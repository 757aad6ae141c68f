/** Unpacking under faults: extractZipToDir of internal/api/project_handlers.go goes on past
    an entry that does not open, a short read and a failed write. Exactly which archives of
    a folder still give it back. */
module SnapshotFaults {
  import opened Options
  import opened PathJail
  import opened ProjectFolder
  import opened Snapshots
  import opened SnapshotLimits

  /** An archive of the folder as zipDir wrote it; what happens to each entry on the way out
      is left open. */
  ghost predicate Archives(entries: seq<Entry>, f: Folder, ps: seq<Path>) {
    && |entries| == |ps|
    && forall i :: 0 <= i < |ps| ==>
         entries[i].name == Join(ps[i]) && !entries[i].isDir && entries[i].size == |DataAt(f, ps[i])|
  }

  /** The write of an entry is counted: it was not reported as failed. A path without
      folders above it has none to fail. */
  predicate Counts(e: Entry, p: Path) {
    e.io.Works? || (e.io.ParentsFail? && |p| == 1)
  }

  /** What the write of an entry leaves under its name is the content it was packed with:
      a write that worked after a whole read, or one that failed only once everything was
      written. */
  predicate Lands(e: Entry, p: Path, data: Bytes) {
    e.opens && if Counts(e, p) then Content(e) == data else e.io.FileFails? && e.io.left == Some(data)
  }

  /** How many of the first n entries were counted. */
  function Tally(entries: seq<Entry>, ps: seq<Path>, n: nat): nat
    requires n <= |entries| == |ps|
  {
    if n == 0 then 0 else Tally(entries, ps, n - 1) + if Counts(entries[n - 1], ps[n - 1]) then 1 else 0
  }

  /** The i-th file comes back: it is not oversized, its name is not trimmed, the count has
      not reached the cap, and its content lands. */
  ghost predicate EntryComesBack(f: Folder, ps: seq<Path>, entries: seq<Entry>, i: nat)
    requires i < |entries| == |ps|
  {
    && |DataAt(f, ps[i])| <= MAX_FILE_BYTES && KeepsName(ps[i])
    && Tally(entries, ps, i) < MAX_FILES && Lands(entries[i], ps[i], DataAt(f, ps[i]))
  }

  // ----- one entry -----

  /** An entry that lands leaves the folder as a plain write of its content would. */
  lemma LandingIsWriting(g: Folder, p: Path, e: Entry, data: Bytes)
    requires p != [] && Lands(e, p, data) && WriteFile(g, p, data, Works).1
    ensures WriteFile(g, p, Content(e), e.io) == (WriteFile(g, p, data, Works).0, Counts(e, p))
  {
    hide WithParents, Content;
  }

  /** A write that leaves `data` where no file was has landed. */
  lemma WritingIsLanding(g: Folder, p: Path, e: Entry, data: Bytes)
    requires !ThroughFile(g, p) && p != [] && FileAt(g, p).None? && e.opens
    requires FileAt(WriteFile(g, p, Content(e), e.io).0, p) == Some(data)
    ensures Lands(e, p, data)
  {
    hide ThroughFile, Content, WithParents, WithSomeParents;
    WithParentsKeepsFiles(g, p);
    if e.io.ParentsFail? { SomeParentsKeepFiles(g, p, e.io.made); }
  }

  // ----- entries that all land -----

  lemma {:induction false} LandedPrefix(f: Folder, ps: seq<Path>, entries: seq<Entry>, n: nat)
    requires Tree(f) && Walks(ps, f) && (forall p :: p in ps ==> AllNormal(p)) && Archives(entries, f, ps) && n <= |ps|
    requires forall i :: 0 <= i < n ==> EntryComesBack(f, ps, entries, i)
    ensures Extracted(map[], entries[..n]) == (Kept(f, Upto(ps[..n])), Tally(entries, ps, n))
  {
    hide Tree, Files, AllNormal, Kept, Upto, WriteFile, ThroughFile, Content, Resolve, KeepsName, Lands, DataAt, Join;
    if n == 0 {
      assert ps[..0] == [];
      NothingKept(f);
    } else {
      LandedPrefix(f, ps, entries, n - 1);
      assert entries[..n][..n - 1] == entries[..n - 1] && ps[..n][..n - 1] == ps[..n - 1];
      assert EntryComesBack(f, ps, entries, n - 1);
      UptoGrows(ps[..n], f);
      EntryLands(f, Upto(ps[..n - 1]), ps[n - 1], entries[n - 1], Tally(entries, ps, n - 1));
    }
  }

  lemma EntryLands(f: Folder, s: set<Path>, p: Path, e: Entry, count: nat)
    requires Tree(f) && s <= Files(f) && p in Files(f) && AllNormal(p) && KeepsName(p)
    requires e.name == Join(p) && !e.isDir && e.size == |DataAt(f, p)| <= MAX_FILE_BYTES
    requires count < MAX_FILES && Lands(e, p, DataAt(f, p))
    ensures ExtractOne(Kept(f, s), count, e) == (Kept(f, s + {p}), count + if Counts(e, p) then 1 else 0)
  {
    FilesAreLeaves(f, p);
    hide Tree, Files, AllNormal, Kept, WriteFile, ThroughFile, Content, KeepsName, Lexical, Stack, TrimSpace, DataAt;
    KeptGrows(f, s, p);
    KeptNameLandsOnItself(p);
    LandingIsWriting(Kept(f, s), p, e, DataAt(f, p));
    LandsIsOpen(e, p, DataAt(f, p));
  }

  lemma LandsIsOpen(e: Entry, p: Path, data: Bytes)
    requires Lands(e, p, data)
    ensures e.opens
  {
  }

  // ----- a folder that came back -----

  /** A file that the first n entries did not bring comes from a later one. */
  lemma {:induction false} LaterFilesComeFromLaterEntries(entries: seq<Entry>, n: nat, q: Path)
    requires n <= |entries| && forall i :: n <= i < |entries| ==> !LandsOn(entries[i].name, q)
    ensures FileAt(Extracted(map[], entries).0, q) == FileAt(Extracted(map[], entries[..n]).0, q)
  {
    hide Tree, WriteFile, ThroughFile, Stack, Lexical, TrimSpace;
    if n == |entries| {
      assert entries[..n] == entries;
    } else {
      var m := |entries| - 1;
      assert entries[..m][..n] == entries[..n];
      LaterFilesComeFromLaterEntries(entries[..m], n, q);
      var (f, count) := Extracted(map[], entries[..m]);
      TreeOfExtracted(entries[..m]);
      var p := Resolve(Some(f), entries[m].name);
      if p.Some? { WriteKeeps(f, p.value, Content(entries[m]), entries[m].io); }
    }
  }

  lemma TreeOfExtracted(entries: seq<Entry>)
    ensures Tree(Extracted(map[], entries).0)
  {
    ExtractionIsBounded(entries);
  }

  lemma OwnNameOnly(ps: seq<Path>, i: nat, j: nat)
    requires Distinct(ps) && i < |ps| && j < |ps| && i != j
    requires ps[j] != [] && AllNormal(ps[j]) && KeepsName(ps[j])
    ensures !LandsOn(Join(ps[j]), ps[i])
  {
    hide Stack, Lexical, TrimSpace, AllNormal, KeepsName;
    KeptNameLandsOnItself(ps[j]);
  }

  /** If every file has its content in the end, each entry came back in its turn. */
  lemma {:induction false} AllCameBack(f: Folder, ps: seq<Path>, entries: seq<Entry>, n: nat)
    requires Tree(f) && Walks(ps, f) && (forall p :: p in ps ==> AllNormal(p) && KeepsName(p))
             && Archives(entries, f, ps)
    requires forall p :: p in ps ==> FileAt(Extracted(map[], entries).0, p) == FileAt(f, p)
    requires n <= |ps|
    ensures forall i :: 0 <= i < n ==> EntryComesBack(f, ps, entries, i)
  {
    hide Tree, Files, AllNormal, KeepsName, Extracted, EntryComesBack, LandsOn;
    if n > 0 {
      var m := n - 1;
      AllCameBack(f, ps, entries, m);
      LandedPrefix(f, ps, entries, m);
      assert ps[m] in ps;
      forall j | n <= j < |ps| ensures !LandsOn(entries[j].name, ps[m]) {
        assert ps[j] in ps;
        FilesAreLeaves(f, ps[j]);
        OwnNameOnly(ps, m, j);
      }
      LaterFilesComeFromLaterEntries(entries, n, ps[m]);
      assert entries[..n] == entries[..m] + [entries[m]];
      NotBroughtBefore(f, ps, m);
      OneCameBack(f, ps, entries, m);
    }
  }

  lemma NotBroughtBefore(f: Folder, ps: seq<Path>, m: nat)
    requires Tree(f) && Walks(ps, f) && m < |ps|
    ensures FileAt(Kept(f, Upto(ps[..m])), ps[m]) == None && Tree(Kept(f, Upto(ps[..m])))
    ensures ps[m] in Files(f) && Upto(ps[..m]) <= Files(f)
  {
    hide Tree;
    assert ps[m] !in ps[..m];
    forall p | p in Upto(ps[..m]) ensures p in Files(f) { assert p in ps; }
    assert ps[m] in ps;
    KeptIsTree(f, Upto(ps[..m]));
  }

  lemma OneCameBack(f: Folder, ps: seq<Path>, entries: seq<Entry>, m: nat)
    requires Tree(f) && Walks(ps, f) && Archives(entries, f, ps) && m < |ps| && AllNormal(ps[m]) && KeepsName(ps[m])
    requires Extracted(map[], entries[..m]) == (Kept(f, Upto(ps[..m])), Tally(entries, ps, m))
    requires FileAt(Extracted(map[], entries[..m + 1]).0, ps[m]) == FileAt(f, ps[m])
    ensures EntryComesBack(f, ps, entries, m)
  {
    NotBroughtBefore(f, ps, m);
    FilesAreLeaves(f, ps[m]);
    hide Tree, AllNormal, KeepsName, Kept, Upto, WriteFile, ThroughFile, Content, Lexical, Stack, TrimSpace, Walks;
    hide Lands;
    var e, p, g := entries[m], ps[m], Kept(f, Upto(ps[..m]));
    assert entries[..m + 1][..m] == entries[..m];
    KeptNameLandsOnItself(p);
    KeptGrows(f, Upto(ps[..m]), p);
    assert Resolve(Some(g), e.name) == Some(p);
    WritingIsLanding(g, p, e, DataAt(f, p));
  }

  // ----- the results -----

  /** A trimmed name loses a file whatever else happens to the entries. */
  lemma TrimmedNameIsLostAnyway(f: Folder, ps: seq<Path>, entries: seq<Entry>)
    requires Tree(f) && Walks(ps, f) && (forall p :: p in ps ==> AllNormal(p)) && Archives(entries, f, ps)
    requires exists p :: p in ps && !KeepsName(p)
    ensures Extracted(map[], entries).0 != Pruned(f)
  {
    hide Extracted, Kept, AllNormal, KeepsName, Tree;
    var p := LongestTrimmed(ps);
    KeptIsTree(f, Files(f));
    assert FileAt(f, p).Some?;
    if FileAt(Extracted(map[], entries).0, p).Some? {
      FilesComeFromEntries(entries, p);
      var i :| 0 <= i < |ps| && MayLandOn(entries[i], p);
      var q := ps[i];
      assert q in ps;
      FilesAreLeaves(f, p);
      FilesAreLeaves(f, q);
      if KeepsName(q) {
        KeptNameLandsOnItself(q);
      } else {
        TrimmedLandsShorter(q, p);
      }
      assert false;
    }
  }

  /** Whatever happens to the entries on the way out, unpacking gives the folder back, up to
      sub-folders without files, exactly when every single file comes back. */
  lemma FaultyArchiveUnpacksIff(f: Folder, ps: seq<Path>, entries: seq<Entry>)
    requires Tree(f) && Walks(ps, f) && (forall p :: p in ps ==> AllNormal(p)) && Archives(entries, f, ps)
    ensures Extracted(map[], entries).0 == Pruned(f)
            <==> forall i :: 0 <= i < |ps| ==> EntryComesBack(f, ps, entries, i)
  {
    hide Extracted, Tree, Kept, AllNormal, EntryComesBack;
    if forall i :: 0 <= i < |ps| ==> EntryComesBack(f, ps, entries, i) {
      LandedPrefix(f, ps, entries, |ps|);
      assert ps[..|ps|] == ps && entries[..|ps|] == entries;
      assert Upto(ps) == Files(f);
    }
    if Extracted(map[], entries).0 == Pruned(f) {
      if exists p :: p in ps && !KeepsName(p) {
        TrimmedNameIsLostAnyway(f, ps, entries);
      } else {
        hide KeepsName;
        KeptIsTree(f, Files(f));
        AllCameBack(f, ps, entries, |ps|);
      }
    }
  }

  /** The entry opens, is read whole, and its write is not reported as failed. */
  predicate Faultless(e: Entry, p: Path, data: Bytes) {
    e.opens && Counts(e, p) && Content(e) == data
  }

  lemma {:induction false} AllCounted(entries: seq<Entry>, ps: seq<Path>, n: nat)
    requires n <= |entries| == |ps| && forall i :: 0 <= i < n ==> Counts(entries[i], ps[i])
    ensures Tally(entries, ps, n) == n
  {
    if n > 0 { AllCounted(entries, ps, n - 1); }
  }

  /** Unless a write fails with everything already written, the folder comes back exactly
      when it is within the caps, no path begins or ends with white space, and every entry
      opens, is read whole and is written without a fault. */
  lemma UnpacksIffFaultless(f: Folder, ps: seq<Path>, entries: seq<Entry>)
    requires Tree(f) && Walks(ps, f) && (forall p :: p in ps ==> AllNormal(p)) && Archives(entries, f, ps)
    requires forall i :: 0 <= i < |ps| && entries[i].io.FileFails? ==> entries[i].io.left != Some(DataAt(f, ps[i]))
    ensures Extracted(map[], entries).0 == Pruned(f)
            <==> ComesBack(f, ps) && forall i :: 0 <= i < |ps| ==> Faultless(entries[i], ps[i], DataAt(f, ps[i]))
  {
    hide Extracted, Tree, Kept, AllNormal, KeepsName, Content, Walks;
    FaultyArchiveUnpacksIff(f, ps, entries);
    if forall i :: 0 <= i < |ps| ==> EntryComesBack(f, ps, entries, i) {
      forall i | 0 <= i < |ps| ensures Faultless(entries[i], ps[i], DataAt(f, ps[i])) {
        assert EntryComesBack(f, ps, entries, i);
      }
      forall p | p in ps ensures |DataAt(f, p)| <= MAX_FILE_BYTES && KeepsName(p) {
        var i :| 0 <= i < |ps| && ps[i] == p;
        assert EntryComesBack(f, ps, entries, i);
      }
      if ps != [] {
        assert EntryComesBack(f, ps, entries, |ps| - 1);
        AllCounted(entries, ps, |ps| - 1);
      }
    }
    if ComesBack(f, ps) && forall i :: 0 <= i < |ps| ==> Faultless(entries[i], ps[i], DataAt(f, ps[i])) {
      forall i | 0 <= i < |ps| ensures EntryComesBack(f, ps, entries, i) {
        AllCounted(entries, ps, i);
        assert ps[i] in ps && Faultless(entries[i], ps[i], DataAt(f, ps[i]));
      }
    }
  }

  /** In particular, unpacking without a fault what zipDir packed gives the folder back, up
      to sub-folders without files, exactly when it is within the caps and no path begins or
      ends with white space. */
  lemma UnpacksIffWithinCapsAndUntrimmed(f: Folder, ps: seq<Path>)
    requires Tree(f) && Walks(ps, f) && forall p :: p in ps ==> AllNormal(p)
    ensures Extracted(map[], Zipped(f, ps)).0 == Pruned(f) <==> ComesBack(f, ps)
  {
    hide Extracted, Tree, Kept, AllNormal, KeepsName, Zipped, Walks;
    ZippedEntries(f, ps);
    UnpacksIffFaultless(f, ps, Zipped(f, ps));
    forall i | 0 <= i < |ps| && |DataAt(f, ps[i])| <= MAX_FILE_BYTES
      ensures Faultless(Zipped(f, ps)[i], ps[i], DataAt(f, ps[i]))
    {
    }
    if ComesBack(f, ps) {
      forall i | 0 <= i < |ps| ensures |DataAt(f, ps[i])| <= MAX_FILE_BYTES { assert ps[i] in ps; }
    }
  }
}
