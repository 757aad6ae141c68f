/** What an import does with projects it must not or cannot bring back: those that exist
    already, those whose archive breaks, and those after an archive that unpacks too much.
    applyRecoveryBundle and extractZipPrefixToDir of internal/api/recovery_import.go. */
module RecoveryImports {
  import opened Options
  import opened PathJail
  import opened ProjectFolder
  import opened Recovery

  // ----- one project -----

  /** The entry is the project's and small enough, by its header, to be looked at. */
  predicate Considered(prefix: string, e: Entry, u: Unpack) {
    && HasPrefix(e.name, prefix) && !e.isDir && u.count < 100
    && Resolve(Some(u.folder), e.name[|prefix|..]).Some? && e.size <= 0x10_0000
  }

  /** A budget is used up, or the content does not fit into what is left. */
  predicate Exceeds(e: Entry, u: Unpack) {
    u.files <= 0 || u.bytes <= 0 || (e.opens && u.bytes < |e.got| <= 0x10_0000)
  }

  /** The budgets would allow it, but it cannot be read, is larger than it may be, or cannot
      be written. */
  predicate Breaks(prefix: string, e: Entry, u: Unpack)
    requires Considered(prefix, e, u)
  {
    && u.files > 0 && u.bytes > 0
    && (!e.opens || |e.got| > 0x10_0000
        || (|e.got| <= u.bytes
            && !WriteFile(u.folder, Resolve(Some(u.folder), e.name[|prefix|..]).value, e.got, e.io).1))
  }

  /** The i-th entry is where unpacking stops with this error. */
  predicate StopsAt(prefix: string, entries: seq<Entry>, st: Unpack, i: nat, err: Err)
    requires i < |entries|
  {
    var u := Unpacked(prefix, entries[..i], st);
    && u.err.None? && Considered(prefix, entries[i], u)
    && if err.TooLarge? then Exceeds(entries[i], u) else Breaks(prefix, entries[i], u)
  }

  lemma OneStops(prefix: string, e: Entry, u: Unpack)
    requires u.err.None?
    ensures UnpackOne(prefix, e, u).err == Some(TooLarge) <==> Considered(prefix, e, u) && Exceeds(e, u)
    ensures UnpackOne(prefix, e, u).err == Some(Broken) <==> Considered(prefix, e, u) && Breaks(prefix, e, u)
  {
    hide Resolve, WriteFile;
  }

  /** Unpacking ends with an error exactly when some entry is the first to make one: too
      large when a budget does not allow it, broken when it cannot be read or written. */
  lemma {:induction false} UnpackStopsIff(prefix: string, entries: seq<Entry>, st: Unpack, err: Err)
    requires st.err.None?
    ensures Unpacked(prefix, entries, st).err == Some(err) <==>
              exists i :: 0 <= i < |entries| && StopsAt(prefix, entries, st, i, err)
  {
    hide UnpackOne, Considered, Exceeds, Breaks;
    if entries != [] {
      var n := |entries| - 1;
      var u := Unpacked(prefix, entries[..n], st);
      UnpackStopsIff(prefix, entries[..n], st, err);
      forall i | 0 <= i < n
        ensures StopsAt(prefix, entries[..n], st, i, err) == StopsAt(prefix, entries, st, i, err)
      {
        assert entries[..n][..i] == entries[..i];
      }
      if u.err.None? {
        OneStops(prefix, entries[n], u);
        forall i | 0 <= i < n ensures !StopsAt(prefix, entries, st, i, err) {
          assert StopsAt(prefix, entries[..n], st, i, err) == StopsAt(prefix, entries, st, i, err);
        }
        assert Unpacked(prefix, entries, st).err == Some(err) <==> StopsAt(prefix, entries, st, n, err);
      } else {
        ErrorStays(prefix, entries[n], u);
        if i :| 0 <= i < n && StopsAt(prefix, entries[..n], st, i, err) {
          assert StopsAt(prefix, entries, st, i, err);
        }
      }
    }
  }

  lemma ErrorStays(prefix: string, e: Entry, u: Unpack)
    requires u.err.Some?
    ensures UnpackOne(prefix, e, u) == u
  {
  }

  // ----- the projects of a bundle -----

  /** The unpacking of the k-th project with what the ones before it left of the budgets. */
  function Attempt(slugs: seq<string>, entries: seq<Entry>, existing: set<string>, k: nat): Unpack
    requires k < |slugs|
  {
    var st := Imported(slugs[..k], entries, existing);
    Unpacked(ProjectPrefix(slugs[k]), entries, Fresh(st.bytes, st.files, st.taken))
  }

  /** The k-th project is new, is reached, and unpacks too much. */
  ghost predicate Overflows(slugs: seq<string>, entries: seq<Entry>, existing: set<string>, k: nat)
    requires k < |slugs|
  {
    && slugs[k] !in existing && !Imported(slugs[..k], entries, existing).stopped
    && Attempt(slugs, entries, existing, k).err == Some(TooLarge)
  }

  lemma StopsOr(slugs: seq<string>, entries: seq<Entry>, existing: set<string>, k: nat)
    requires k < |slugs|
    ensures Imported(slugs[..k + 1], entries, existing).stopped <==>
              Imported(slugs[..k], entries, existing).stopped || Overflows(slugs, entries, existing, k)
  {
    hide Unpacked, ProjectPrefix;
    assert slugs[..k + 1][..k] == slugs[..k];
  }

  lemma {:induction false} StoppedIff(slugs: seq<string>, entries: seq<Entry>, existing: set<string>, n: nat)
    requires n <= |slugs|
    ensures Imported(slugs[..n], entries, existing).stopped <==>
              exists j :: 0 <= j < n && Overflows(slugs, entries, existing, j)
  {
    hide Unpacked, ProjectPrefix;
    if n > 0 {
      StoppedIff(slugs, entries, existing, n - 1);
      StopsOr(slugs, entries, existing, n - 1);
      hide Overflows, Imported;
      if exists j :: 0 <= j < n && Overflows(slugs, entries, existing, j) {
        var j :| 0 <= j < n && Overflows(slugs, entries, existing, j);
        assert j < n - 1 || j == n - 1;
      }
    }
  }

  lemma {:induction false} ResultsStay(slugs: seq<string>, entries: seq<Entry>, existing: set<string>, k: nat, n: nat)
    requires k < n <= |slugs|
    ensures |Imported(slugs[..n], entries, existing).results| == n
    ensures |Imported(slugs[..k + 1], entries, existing).results| == k + 1
    ensures Imported(slugs[..n], entries, existing).results[k]
            == Imported(slugs[..k + 1], entries, existing).results[k]
  {
    hide Unpacked, ProjectPrefix;
    ImportConserves(slugs[..n], entries, existing);
    ImportConserves(slugs[..k + 1], entries, existing);
    if k + 1 < n {
      ResultsStay(slugs, entries, existing, k, n - 1);
      assert slugs[..n][..n - 1] == slugs[..n - 1];
    }
  }

  /** A project that exists already is not imported, and uses up nothing of the budgets. */
  lemma ExistingIsSkipped(slugs: seq<string>, entries: seq<Entry>, existing: set<string>, k: nat)
    requires k < |slugs| && slugs[k] in existing
    ensures var st := Imported(slugs, entries, existing); |st.results| == |slugs| && st.results[k] == None
    ensures var before, after := Imported(slugs[..k], entries, existing), Imported(slugs[..k + 1], entries, existing);
            after.bytes == before.bytes && after.files == before.files && after.taken == before.taken
  {
    hide Unpacked, ProjectPrefix;
    ImportConserves(slugs[..k], entries, existing);
    ResultsStay(slugs, entries, existing, k, |slugs|);
    assert slugs[..|slugs|] == slugs;
    assert slugs[..k + 1][..k] == slugs[..k];
  }

  /** A project comes to nothing exactly when it exists already, a project before it
      unpacked too much, or its own unpacking fails; otherwise it comes back as what its
      entries unpack to. */
  lemma ProjectIsImportedIff(slugs: seq<string>, entries: seq<Entry>, existing: set<string>, k: nat)
    requires k < |slugs|
    ensures var results := Imported(slugs, entries, existing).results;
            && |results| == |slugs|
            && (results[k] == None <==>
                  || slugs[k] in existing
                  || (exists j :: 0 <= j < k && Overflows(slugs, entries, existing, j))
                  || Attempt(slugs, entries, existing, k).err.Some?)
            && (results[k].Some? ==> results[k] == Some(Attempt(slugs, entries, existing, k).folder))
  {
    hide Unpacked, ProjectPrefix, Overflows;
    ImportConserves(slugs[..k], entries, existing);
    ResultsStay(slugs, entries, existing, k, |slugs|);
    StoppedIff(slugs, entries, existing, k);
    assert slugs[..|slugs|] == slugs;
    assert slugs[..k + 1][..k] == slugs[..k];
  }
}
