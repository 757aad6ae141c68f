/** Roles from the directory: RolesForGroups and MapsRoles of internal/auth/ldap.go,
    syncRoles and sameIDs of internal/auth/service.go, and the role queries of
    internal/store/roles.go they rest on. */
module RoleSync {
  import opened Options
  import opened Sets

  datatype Mapping = Mapping(dn: string, roleIDs: seq<int>)

  ghost predicate Distinct(ids: seq<int>) {
    forall i, j :: 0 <= i < j < |ids| ==> ids[i] != ids[j]
  }

  function Ids(s: seq<int>): set<int> {
    set x | x in s
  }

  /** The user is in the mapping's group; `fold` is how DNs are compared. */
  predicate Member(groups: seq<string>, fold: string -> string, dn: string) {
    exists j :: 0 <= j < |groups| && fold(groups[j]) == fold(dn)
  }

  /** The groups' mappings grant the role. */
  predicate Grants(mappings: seq<Mapping>, groups: seq<string>, fold: string -> string, id: int) {
    id > 0 && exists i :: 0 <= i < |mappings| && Member(groups, fold, mappings[i].dn) && id in mappings[i].roleIDs
  }

  /** What the mappings grant, each role once. */
  method RolesForGroups(mappings: seq<Mapping>, groups: seq<string>, fold: string -> string) returns (out: seq<int>)
    ensures Distinct(out)
    ensures forall id :: id in out <==> Grants(mappings, groups, fold, id)
    ensures forall id :: id in out <==>
              id > 0 && exists i, j :: 0 <= i < |mappings| && 0 <= j < |groups|
                                       && fold(groups[j]) == fold(mappings[i].dn) && id in mappings[i].roleIDs
  {
    hide Member;
    out := [];
    GrantsSpelledOut(mappings, groups, fold);
    if |mappings| == 0 { return; }
    if |groups| == 0 {
      NoMember(groups, fold);
      return;
    }
    var member := set g | g in groups :: fold(g);
    Members(groups, fold);
    for i := 0 to |mappings|
      invariant Distinct(out)
      invariant forall id :: id in out <==> Grants(mappings[..i], groups, fold, id)
    {
      var m := mappings[i];
      assert mappings[..i + 1] == mappings[..i] + [m];
      GrantsMore(mappings[..i], m, groups, fold);
      if fold(m.dn) !in member { continue; }
      hide Grants;
      out := AddNew(out, m.roleIDs);
    }
    assert mappings[..|mappings|] == mappings;
  }

  /** Appends the positive ids not seen yet. */
  method AddNew(seen: seq<int>, ids: seq<int>) returns (out: seq<int>)
    requires Distinct(seen)
    ensures Distinct(out) && forall id :: id in out <==> id in seen || (id > 0 && id in ids)
  {
    out := seen;
    for k := 0 to |ids|
      invariant Distinct(out)
      invariant forall id :: id in out <==> id in seen || (id > 0 && id in ids[..k])
    {
      assert ids[..k + 1] == ids[..k] + [ids[k]];
      if ids[k] > 0 && ids[k] !in out { out := out + [ids[k]]; }
    }
    assert ids[..|ids|] == ids;
  }

  lemma GrantsSpelledOut(mappings: seq<Mapping>, groups: seq<string>, fold: string -> string)
    ensures forall id :: Grants(mappings, groups, fold, id) <==>
              id > 0 && exists i, j :: 0 <= i < |mappings| && 0 <= j < |groups|
                                       && fold(groups[j]) == fold(mappings[i].dn) && id in mappings[i].roleIDs
  {
    forall id | id > 0 && exists i, j :: 0 <= i < |mappings| && 0 <= j < |groups|
                                         && fold(groups[j]) == fold(mappings[i].dn) && id in mappings[i].roleIDs
      ensures Grants(mappings, groups, fold, id)
    {
      var i, j :| 0 <= i < |mappings| && 0 <= j < |groups|
                  && fold(groups[j]) == fold(mappings[i].dn) && id in mappings[i].roleIDs;
      assert Member(groups, fold, mappings[i].dn);
    }
  }

  lemma NoMember(groups: seq<string>, fold: string -> string)
    requires groups == []
    ensures forall dn :: !Member(groups, fold, dn)
  {
  }

  lemma Members(groups: seq<string>, fold: string -> string)
    ensures var member := set g | g in groups :: fold(g);
            forall dn :: fold(dn) in member <==> Member(groups, fold, dn)
  {
    var member := set g | g in groups :: fold(g);
    forall dn ensures fold(dn) in member <==> Member(groups, fold, dn) {
      if Member(groups, fold, dn) {
        var j :| 0 <= j < |groups| && fold(groups[j]) == fold(dn);
        assert groups[j] in groups;
      }
    }
  }

  lemma GrantsMore(mappings: seq<Mapping>, m: Mapping, groups: seq<string>, fold: string -> string)
    ensures forall id :: Grants(mappings + [m], groups, fold, id) <==>
              Grants(mappings, groups, fold, id) || (id > 0 && id in m.roleIDs && Member(groups, fold, m.dn))
  {
    hide Member;
    var more := mappings + [m];
    forall id ensures Grants(more, groups, fold, id) <==>
                        Grants(mappings, groups, fold, id) || (id > 0 && id in m.roleIDs && Member(groups, fold, m.dn))
    {
      if Grants(mappings, groups, fold, id) {
        var i :| 0 <= i < |mappings| && Member(groups, fold, mappings[i].dn) && id in mappings[i].roleIDs;
        assert more[i] == mappings[i];
      }
      assert more[|mappings|] == m;
    }
  }

  // ----- comparing id lists -----

  /** What sameIDs looks at: equal lengths, and every id of `b` somewhere in `a`. */
  predicate SameIDs(a: seq<int>, b: seq<int>) {
    |a| == |b| && forall i :: 0 <= i < |b| ==> b[i] in a
  }

  method CompareIDs(a: seq<int>, b: seq<int>) returns (same: bool)
    ensures same == SameIDs(a, b)
  {
    if |a| != |b| { return false; }
    var seen := Ids(a);
    for i := 0 to |b|
      invariant forall k :: 0 <= k < i ==> b[k] in a
    {
      if b[i] !in seen { return false; }
    }
    return true;
  }

  lemma {:induction false} DistinctCount(s: seq<int>)
    ensures |Ids(s)| <= |s| && (Distinct(s) <==> |Ids(s)| == |s|)
  {
    if s != [] {
      var n := |s| - 1;
      DistinctCount(s[..n]);
      assert s == s[..n] + [s[n]];
      assert Ids(s) == Ids(s[..n]) + {s[n]};
      if s[n] in s[..n] {
        assert Ids(s) == Ids(s[..n]);
      } else {
        assert |Ids(s)| == |Ids(s[..n])| + 1;
      }
    }
  }

  lemma SubsetOfSameSize(a: set<int>, b: set<int>)
    requires b <= a && |a| <= |b|
    ensures a == b
  {
    assert a == b + (a - b);
    assert |a - b| == 0;
  }

  /** When the second list names nothing twice, a match means the lists hold the same ids,
      whatever the first looks like: as many different ids as there are places leave no
      room for another. */
  lemma SameIDsMeansSameSet(a: seq<int>, b: seq<int>)
    requires Distinct(b) && SameIDs(a, b)
    ensures Ids(a) == Ids(b) && Distinct(a)
  {
    DistinctCount(a);
    DistinctCount(b);
    SubsetOfSameSize(Ids(a), Ids(b));
  }

  /** On lists without repeats it decides set equality. */
  lemma SameIDsIffSameSet(a: seq<int>, b: seq<int>)
    requires Distinct(a) && Distinct(b)
    ensures SameIDs(a, b) <==> Ids(a) == Ids(b)
  {
    DistinctCount(a);
    DistinctCount(b);
    if SameIDs(a, b) {
      SameIDsMeansSameSet(a, b);
    } else if Ids(a) == Ids(b) {
      forall i | 0 <= i < |b| ensures b[i] in a { assert b[i] in Ids(b); }
    }
  }

  /** With a repeat in the second list it does not: an id only the first one holds passes. */
  lemma RepeatsDefeatSameIDs() returns (a: seq<int>, b: seq<int>)
    ensures SameIDs(a, b) && Ids(a) != Ids(b)
  {
    a, b := [1, 2], [1, 1];
    assert 2 in Ids(a) && 2 !in Ids(b);
  }

  // ----- the sync -----

  /** Some id names no role. */
  predicate SomeMissing(roles: set<int>, ids: seq<int>) {
    exists w :: w in ids && (w <= 0 || w !in roles)
  }

  /** The role a user should end up with: the wanted ones that exist, and the fallback when
      one of them does not and the fallback does. */
  predicate Target(roles: set<int>, want: seq<int>, fallback: int, id: int) {
    || (id in want && id > 0 && id in roles)
    || (id == fallback && fallback > 0 && fallback in roles && SomeMissing(roles, want))
  }

  function Existing(roles: set<int>, ids: seq<int>): (out: seq<int>)
    ensures |out| <= |ids| && forall id :: id in out <==> id in ids && id > 0 && id in roles
    ensures |out| < |ids| <==> SomeMissing(roles, ids)
    ensures Distinct(ids) ==> Distinct(out)
  {
    hide SomeMissing;
    if ids == [] then
      NoneMissing(roles);
      []
    else
      var n := |ids| - 1;
      var before := Existing(roles, ids[..n]);
      assert ids == ids[..n] + [ids[n]];
      MissingMore(roles, ids[..n], ids[n]);
      if ids[n] > 0 && ids[n] in roles then before + [ids[n]] else before
  }

  lemma NoneMissing(roles: set<int>)
    ensures !SomeMissing(roles, [])
  {
  }

  lemma MissingMore(roles: set<int>, ids: seq<int>, id: int)
    ensures SomeMissing(roles, ids + [id]) <==> SomeMissing(roles, ids) || id <= 0 || id !in roles
  {
    if w :| w in ids && (w <= 0 || w !in roles) { assert w in ids + [id]; }
    assert id in ids + [id];
  }

  /** The roles table and who holds which. */
  class RoleStore {
    var roles: set<int>
    var membership: map<int, set<int>>

    constructor (roles: set<int>)
      ensures this.roles == roles && membership == map[]
    {
      this.roles, membership := roles, map[];
    }

    function Of(user: int): set<int>
      reads this
    {
      if user in membership then membership[user] else {}
    }

    method ExistingRoleIDs(ids: seq<int>) returns (out: seq<int>)
      ensures out == Existing(roles, ids)
    {
      out := [];
      for i := 0 to |ids|
        invariant out == Existing(roles, ids[..i])
      {
        assert ids[..i + 1][..i] == ids[..i];
        if ids[i] <= 0 { continue; }
        if ids[i] in roles { out := out + [ids[i]]; }
      }
      assert ids[..|ids|] == ids;
    }

    /** The stored ids, each once. */
    method RoleIDsForUser(user: int) returns (out: seq<int>)
      ensures Distinct(out) && Ids(out) == Of(user)
    {
      out := [];
      var todo := Of(user);
      while |todo| > 0
        invariant Distinct(out) && Ids(out) == Of(user) - todo && todo <= Of(user)
        decreases |todo|
      {
        Inhabited(todo);
        var id :| id in todo;
        assert id !in Ids(out);
        ghost var before := out;
        out := out + [id];
        assert Ids(out) == Ids(before) + {id};
        todo := todo - {id};
      }
    }

    /** Replaces a user's roles; `stop` is after how many inserts the store fails, if it
        does. */
    method SetUserRoles(user: int, ids: seq<int>, stop: Option<nat>) returns (ok: bool)
      modifies this`membership
      ensures forall u :: u != user ==> Of(u) == old(Of(u))
      ensures ok ==> forall id :: id in Of(user) <==> id in ids && id > 0 && id in roles
      ensures forall id :: id in Of(user) ==> id in ids && id in roles
      ensures stop.None? ==> ok
    {
      hide Distinct;
      membership := membership[user := {}];
      var inserted := 0;
      for i := 0 to |ids|
        invariant user in membership && forall u :: u != user ==> Of(u) == old(Of(u))
        invariant forall id :: id in Of(user) <==> id in ids[..i] && id > 0 && id in roles
      {
        assert ids[..i + 1] == ids[..i] + [ids[i]];
        if ids[i] <= 0 || ids[i] in membership[user] || ids[i] !in roles { continue; }
        if stop.Some? && inserted >= stop.value { return false; }
        membership := membership[user := membership[user] + {ids[i]}];
        inserted := inserted + 1;
      }
      assert ids[..|ids|] == ids;
      return true;
    }

    /** syncRoles. For a wanted list without repeats the user ends up with exactly the
        target, also when nothing is written; if the store fails, with nothing beyond it. */
    method SyncRoles(user: int, want: seq<int>, fallback: int, stop: Option<nat>) returns (ok: bool, wrote: bool)
      requires Distinct(want)
      modifies this`membership
      ensures forall u :: u != user ==> Of(u) == old(Of(u))
      ensures ok ==> forall id :: id in Of(user) <==> Target(roles, want, fallback, id)
      ensures forall id :: id in Of(user) ==> Target(roles, want, fallback, id)
      ensures !wrote ==> ok && membership == old(membership)
      ensures stop.None? ==> ok
      ensures wrote <==> exists id :: !(id in old(Of(user)) <==> Target(roles, want, fallback, id))
    {
      var valid := ExistingRoleIDs(want);
      if |valid| < |want| && fallback > 0 {
        var fb := ExistingRoleIDs([fallback]);
        if |fb| == 1 && fallback !in valid { valid := valid + [fallback]; }
        assert |fb| == 1 <==> fallback in roles by { SingleExists(roles, fallback); }
      }
      assert Distinct(valid);
      assert forall id :: id in valid <==> Target(roles, want, fallback, id);
      var have := RoleIDsForUser(user);
      var same := CompareIDs(have, valid);
      SameIDsIffSameSet(have, valid);
      assert same <==> Of(user) == Ids(valid);
      if same { return true, false; }
      Differ(Of(user), Ids(valid));
      ok := SetUserRoles(user, valid, stop);
      wrote := true;
    }

    /** A directory login: when some mapping hands out roles, the user ends up with what the
        groups grant now. */
    method SyncFromDirectory(user: int, mappings: seq<Mapping>, groups: seq<string>, fold: string -> string,
                             fallback: int)
      modifies this`membership
      ensures forall u :: u != user ==> Of(u) == old(Of(u))
      ensures (forall i :: 0 <= i < |mappings| ==> mappings[i].roleIDs == []) ==> membership == old(membership)
      ensures (exists i :: 0 <= i < |mappings| && mappings[i].roleIDs != []) ==>
                forall id :: id in Of(user) <==>
                  || (Grants(mappings, groups, fold, id) && id in roles)
                  || (id == fallback && fallback > 0 && fallback in roles
                      && exists w :: Grants(mappings, groups, fold, w) && w !in roles)
    {
      var maps := false;
      for i := 0 to |mappings|
        invariant maps <==> exists k :: 0 <= k < i && mappings[k].roleIDs != []
      {
        if |mappings[i].roleIDs| > 0 { maps := true; }
      }
      if maps {
        hide Grants;
        var want := RolesForGroups(mappings, groups, fold);
        TargetOfGrants(roles, mappings, groups, fold, want, fallback);
        hide Target;
        var ok, _ := SyncRoles(user, want, fallback, None);
        assert ok;
      }
    }
  }

  lemma TargetOfGrants(roles: set<int>, mappings: seq<Mapping>, groups: seq<string>, fold: string -> string,
                       want: seq<int>, fallback: int)
    requires forall id :: id in want <==> Grants(mappings, groups, fold, id)
    ensures forall id :: Target(roles, want, fallback, id) <==>
              || (Grants(mappings, groups, fold, id) && id in roles)
              || (id == fallback && fallback > 0 && fallback in roles
                  && exists w :: Grants(mappings, groups, fold, w) && w !in roles)
  {
    assert forall id :: Grants(mappings, groups, fold, id) ==> id > 0;
    hide Grants;
    assert (exists w :: Grants(mappings, groups, fold, w) && w !in roles) <==>
             exists w :: w in want && (w <= 0 || w !in roles) by {
      if w :| Grants(mappings, groups, fold, w) && w !in roles { assert w in want; }
    }
  }

  lemma SingleExists(roles: set<int>, id: int)
    ensures |Existing(roles, [id])| == 1 <==> id > 0 && id in roles
  {
    assert [id][..0] == [];
  }
}
