/** internal/auth/challenge.go: MFA-challenge ids that have already been spent. */
module ChallengeStore {
  import opened BoundedSweep
  import opened Options

  type Seen = map<string, int> // id to the token's expiry

  const ExpiryOf: int -> int := (e: int) => e

  class UsedChallenges {
    var seen: Seen

    constructor ()
      ensures seen == map[]
    {
      seen := map[];
    }

    method Spend(id: string, expiry: int, now: int) returns (ok: bool, ghost scanned: set<string>)
      modifies this`seen
      ensures scanned <= old(seen).Keys && (id != "" ==> |scanned| == ScanLimit(|old(seen)|))
      ensures (ok, seen) == Spent(old(seen), Op(id, expiry, now), scanned)
    {
      scanned := {};
      if id == "" {
        return false, {};
      }
      seen, scanned := Sweep(seen, ExpiryOf, now);
      if id in seen && now < seen[id] {
        return false, scanned;
      }
      seen := seen[id := expiry];
      return true, scanned;
    }
  }

  // ----- whole runs -----

  datatype Op = Op(id: string, expiry: int, now: int)

  /** The answer and the table after one spend whose sweep looked at `scanned`. */
  function Spent(m: Seen, op: Op, scanned: set<string>): (bool, Seen) {
    if op.id == "" then (false, m) else
      var swept := Swept(m, ExpiryOf, op.now, scanned);
      if op.id in swept && op.now < swept[op.id] then (false, swept)
      else (true, swept[op.id := op.expiry])
  }

  function TableAfter(m: Seen, ops: seq<Op>, scans: seq<set<string>>): Seen
    requires |ops| == |scans|
  {
    if ops == [] then m
    else
      var n := |ops| - 1;
      Spent(TableAfter(m, ops[..n], scans[..n]), ops[n], scans[n]).1
  }

  function Answer(m: Seen, ops: seq<Op>, scans: seq<set<string>>, i: nat): bool
    requires |ops| == |scans| && i < |ops|
  {
    Spent(TableAfter(m, ops[..i], scans[..i]), ops[i], scans[i]).0
  }

  ghost predicate Monotone(ops: seq<Op>) {
    forall i, j :: 0 <= i < j < |ops| ==> ops[i].now <= ops[j].now
  }

  lemma SpendKeepsHeld(m: Seen, op: Op, scanned: set<string>, id: string, expiry: int)
    requires id in m && m[id] == expiry && op.now < expiry && (op.id == id ==> op.expiry == expiry)
    ensures var t := Spent(m, op, scanned).1; id in t && t[id] == expiry
  {
  }

  /** What the table remembers: the id is held unexpired by a spend since which it
      has been refused. */
  lemma {:induction false} HeldUntilExpiry(m: Seen, ops: seq<Op>, scans: seq<set<string>>, i: nat, id: string,
                                           expiry: int, now: int)
    requires |ops| == |scans| && Monotone(ops) && i < |ops|
    requires forall j :: i <= j < |ops| && ops[j].id == id ==> ops[j].expiry == expiry
    requires ops[i].id == id && Answer(m, ops, scans, i)
    requires now < expiry && forall j :: 0 <= j < |ops| ==> ops[j].now <= now
    ensures var t := TableAfter(m, ops, scans); id in t && t[id] == expiry
  {
    hide Swept;
    var n := |ops| - 1;
    if i < n {
      hide Spent;
      assert ops[..n][..i] == ops[..i] && scans[..n][..i] == scans[..i];
      HeldUntilExpiry(m, ops[..n], scans[..n], i, id, expiry, now);
      SpendKeepsHeld(TableAfter(m, ops[..n], scans[..n]), ops[n], scans[n], id, expiry);
    }
  }

  /** One challenge, one attempt: among the spends of one id with one expiry, at most
      one that runs before that expiry is granted, whatever the sweeps removed. */
  lemma AtMostOneSpendBeforeExpiry(m: Seen, ops: seq<Op>, scans: seq<set<string>>, i: nat, j: nat)
    requires |ops| == |scans| && Monotone(ops) && i < j < |ops|
    requires ops[i].id == ops[j].id
    requires forall k :: i <= k <= j && ops[k].id == ops[i].id ==> ops[k].expiry == ops[i].expiry
    requires ops[j].now < ops[j].expiry
    ensures !(Answer(m, ops, scans, i) && Answer(m, ops, scans, j))
  {
    if Answer(m, ops, scans, i) {
      assert ops[..j][..i] == ops[..i] && scans[..j][..i] == scans[..i];
      HeldUntilExpiry(m, ops[..j], scans[..j], i, ops[i].id, ops[i].expiry, ops[j].now);
    }
  }

  /** An id that was spent once is granted again exactly when the second spend runs at
      or after its expiry. */
  lemma GrantedAgainIffExpired(m: Seen, ops: seq<Op>, scans: seq<set<string>>, i: nat, j: nat)
    requires |ops| == |scans| && Monotone(ops) && i < j < |ops|
    requires ops[i].id == ops[j].id && Answer(m, ops, scans, i)
    requires forall k :: i <= k <= j && ops[k].id == ops[i].id ==> ops[k].expiry == ops[i].expiry
    ensures Answer(m, ops, scans, j) <==> ops[j].expiry <= ops[j].now
  {
    assert ops[..j][..i] == ops[..i] && scans[..j][..i] == scans[..i];
    if ops[j].now < ops[j].expiry {
      AtMostOneSpendBeforeExpiry(m, ops, scans, i, j);
    } else {
      TableExpiry(m, ops[..j], scans[..j], i, ops[i].id, ops[i].expiry);
    }
  }

  lemma {:induction false} TableExpiry(m: Seen, ops: seq<Op>, scans: seq<set<string>>, i: nat, id: string, expiry: int)
    requires |ops| == |scans| && i < |ops|
    requires ops[i].id == id && Answer(m, ops, scans, i)
    requires forall j :: i <= j < |ops| && ops[j].id == id ==> ops[j].expiry == expiry
    ensures var t := TableAfter(m, ops, scans); id in t ==> t[id] == expiry
  {
    var n := |ops| - 1;
    if i < n {
      assert ops[..n][..i] == ops[..i] && scans[..n][..i] == scans[..i];
      TableExpiry(m, ops[..n], scans[..n], i, id, expiry);
    }
  }

  // ----- the ever-growing set -----

  /** The ids granted so far; unlike the table it never forgets. */
  function Used(m: Seen, ops: seq<Op>, scans: seq<set<string>>): set<string>
    requires |ops| == |scans|
  {
    if ops == [] then {}
    else
      var n := |ops| - 1;
      Used(m, ops[..n], scans[..n]) + (if Answer(m, ops, scans, n) then {ops[n].id} else {})
  }

  /** The invariant behind the refinement: an id the set holds is still in the table,
      unless its token has run out. */
  lemma {:induction false} TableRefinesUsed(ops: seq<Op>, scans: seq<set<string>>, expiryOf: map<string, int>)
    requires |ops| == |scans| && Monotone(ops)
    requires forall i :: 0 <= i < |ops| ==> ops[i].id in expiryOf && ops[i].expiry == expiryOf[ops[i].id]
    ensures var t := TableAfter(map[], ops, scans);
            && t.Keys <= Used(map[], ops, scans) <= expiryOf.Keys
            && (forall id :: id in t ==> t[id] == expiryOf[id])
            && (forall id :: id in Used(map[], ops, scans) && id !in t ==> expiryOf[id] < ops[|ops| - 1].now)
  {
    if ops != [] {
      var n := |ops| - 1;
      TableRefinesUsed(ops[..n], scans[..n], expiryOf);
      assert forall id :: id in Used(map[], ops[..n], scans[..n]) && id !in TableAfter(map[], ops[..n], scans[..n])
                          ==> expiryOf[id] < ops[n].now;
    }
  }

  /** For tokens presented before they expire, the bounded, forgetful table answers
      exactly as a set that remembers every id ever spent. */
  lemma SpendRefinesUsedSet(ops: seq<Op>, scans: seq<set<string>>, expiryOf: map<string, int>)
    requires |ops| == |scans| && Monotone(ops) && ops != []
    requires forall i :: 0 <= i < |ops| ==> ops[i].id in expiryOf && ops[i].expiry == expiryOf[ops[i].id]
    requires ops[|ops| - 1].now < ops[|ops| - 1].expiry
    ensures var n := |ops| - 1;
            Answer(map[], ops, scans, n) <==> ops[n].id != "" && ops[n].id !in Used(map[], ops[..n], scans[..n])
  {
    var n := |ops| - 1;
    TableRefinesUsed(ops[..n], scans[..n], expiryOf);
  }
}
