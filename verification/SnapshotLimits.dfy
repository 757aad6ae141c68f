/** Exactly which snapshots come back: zipDir and extractZipToDir of
    internal/api/project_handlers.go, where the trimming of names in safeJoin, the file cap
    and the size cap get in the way. */
module SnapshotLimits {
  import opened Options
  import opened PathJail
  import opened ProjectFolder
  import opened Snapshots

  /** The file's name survives the trimming. */
  ghost predicate KeepsName(p: Path) {
    TrimSpace(Join(p)) == Join(p)
  }

  /** The folder is within the caps, and no file's path begins or ends with white space. */
  ghost predicate ComesBack(f: Folder, ps: seq<Path>) {
    |ps| <= MAX_FILES && forall p :: p in ps ==> |DataAt(f, p)| <= MAX_FILE_BYTES && KeepsName(p)
  }

  // ----- where the files of an unpacked folder come from -----

  /** The path an entry of this name is unpacked to. */
  predicate LandsOn(name: string, p: Path) {
    Lexical(name).Some? && Stack(TrimSpace(name)) == p
  }

  lemma WriteIsSeen(f: Folder, p: Path, data: Bytes, io: WriteFault, q: Path)
    requires !ThroughFile(f, p) && !io.FileFails?
    ensures var (g, ok) := WriteFile(f, p, data, io);
            FileAt(g, q) == if ok && q == p then Some(data) else FileAt(f, q)
  {
    hide ThroughFile, WithParents, WithSomeParents;
    WithParentsKeepsFiles(f, p);
    if io.ParentsFail? { SomeParentsKeepFiles(f, p, io.made); }
  }

  /** The entry is a file's that may be unpacked, and is unpacked to `p`. */
  predicate MayLandOn(e: Entry, p: Path) {
    LandsOn(e.name, p) && !e.isDir && e.opens && e.size <= 0x10_0000
  }

  /** For every file of an unpacked folder there is an entry that was allowed to make it;
      and unless a write was cut short it is within the size cap. */
  lemma {:induction false} FilesComeFromEntries(entries: seq<Entry>, q: Path)
    requires FileAt(Extracted(map[], entries).0, q).Some?
    ensures exists i :: 0 <= i < |entries| && MayLandOn(entries[i], q)
    ensures (forall i :: 0 <= i < |entries| ==> !entries[i].io.FileFails?) ==>
              |FileAt(Extracted(map[], entries).0, q).value| <= MAX_FILE_BYTES
  {
    hide WriteFile, ThroughFile, Stack, Lexical, TrimSpace;
    if entries != [] {
      var n := |entries| - 1;
      var (f, count) := Extracted(map[], entries[..n]);
      var p := Resolve(Some(f), entries[n].name);
      if p.Some? {
        WriteKeeps(f, p.value, Content(entries[n]), entries[n].io);
        if !entries[n].io.FileFails? { WriteIsSeen(f, p.value, Content(entries[n]), entries[n].io, q); }
      }
      if FileAt(f, q).Some? {
        FilesComeFromEntries(entries[..n], q);
        var i :| 0 <= i < n && MayLandOn(entries[..n][i], q);
        assert MayLandOn(entries[i], q);
      }
    }
  }

  lemma {:induction false} ZippedEntries(f: Folder, ps: seq<Path>)
    ensures |Zipped(f, ps)| == |ps| && forall i :: 0 <= i < |ps| ==> Zipped(f, ps)[i] == FileEntry(f, ps[i])
  {
    if ps != [] { ZippedEntries(f, ps[..|ps| - 1]); }
  }

  /** A path whose name is trimmed lands on something shorter. */
  lemma TrimmedLandsShorter(p: Path, q: Path)
    requires AllNormal(p) && p != [] && !KeepsName(p) && q != [] && LandsOn(Join(p), q)
    ensures |Join(q)| < |Join(p)|
  {
    hide Stack, Lexical, TrimSpace;
    TrimmingShortens(Join(p));
    LexicalIsRelative(Join(p));
    StackIsShorter(TrimSpace(Join(p)));
  }

  lemma LexicalIsRelative(name: string)
    requires Lexical(name).Some?
    ensures !Rooted(TrimSpace(name))
  {
  }

  lemma KeptNameLandsOnItself(p: Path)
    requires AllNormal(p) && p != [] && KeepsName(p)
    ensures LandsOn(Join(p), p)
  {
    PlainNameIsItself(p);
  }

  /** Of the paths that lose their name, one with the longest name. */
  lemma {:induction false} LongestTrimmed(ps: seq<Path>) returns (p: Path)
    requires exists q :: q in ps && !KeepsName(q)
    ensures p in ps && !KeepsName(p)
    ensures forall q :: q in ps && !KeepsName(q) ==> |Join(q)| <= |Join(p)|
  {
    hide KeepsName;
    var n := |ps| - 1;
    assert ps == ps[..n] + [ps[n]];
    if exists q :: q in ps[..n] && !KeepsName(q) {
      p := LongestTrimmed(ps[..n]);
      if !KeepsName(ps[n]) && |Join(ps[n])| > |Join(p)| { p := ps[n]; }
    } else {
      p := ps[n];
    }
  }

  lemma PlainIs(p: Path)
    requires p != [] && AllNormal(p) && KeepsName(p)
    ensures Plain(p)
  {
  }

  /** The folder with one empty file named " a". */
  function Spaced(): Folder {
    map[[" a"] := File([])]
  }

  /** It comes back with a file named "a" instead. */
  lemma SpacedComesBackRenamed()
    ensures Tree(Spaced()) && Walks([[" a"]], Spaced()) && AllNormal([" a"])
    ensures Extracted(map[], Zipped(Spaced(), [[" a"]])).0 == map[["a"] := File([])] != Pruned(Spaced())
  {
    var e := FileEntry(Spaced(), [" a"]);
    assert [[" a"]][..0] == [];
    assert Zipped(Spaced(), [[" a"]]) == [e];
    assert [e][..0] == [];
    SpacedName();
    assert Parents(["a"]) == {};
    assert Extracted(map[], [e]) == ExtractOne(map[], 0, e);
    assert Resolve(Some(map[]), " a") == Some(["a"]);
    assert [" a"] in Pruned(Spaced());
  }

  lemma SpacedName()
    ensures Lexical(" a").Some? && Stack(TrimSpace(" a")) == ["a"]
  {
    assert " a"[1..] == "a";
    assert TrimSpace(" a") == "a";
    SplitWhole("a");
    assert ["a"][..0] == [];
  }
}
