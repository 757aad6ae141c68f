/** What a project archive keeps of a folder, whatever packed it and whatever unpacks it:
    the files and the folders above them. zipDir and extractZipToDir of
    internal/api/project_handlers.go. */
module Snapshots {
  import opened Options
  import opened PathJail
  import opened ProjectFolder

  predicate Below(p: Path, q: Path) {
    |p| < |q| && q[..|p|] == p
  }

  /** The files of `f` in `s` with the folders above them. */
  function Kept(f: Folder, s: set<Path>): Folder {
    map p | p in f && (p in s || exists q :: q in s && Below(p, q)) :: f[p]
  }

  /** A folder without those of its sub-folders that hold no file. */
  function Pruned(f: Folder): Folder {
    Kept(f, Files(f))
  }

  ghost predicate Distinct(ps: seq<Path>) {
    forall i, j :: 0 <= i < j < |ps| ==> ps[i] != ps[j]
  }

  /** A walk of the folder: every file once, in whatever order. */
  ghost predicate Walks(ps: seq<Path>, f: Folder) {
    Distinct(ps) && forall p :: p in ps <==> p in Files(f)
  }

  function Upto(ps: seq<Path>): set<Path> {
    set p | p in ps
  }

  function DataAt(f: Folder, p: Path): Bytes {
    if FileAt(f, p).Some? then FileAt(f, p).value else []
  }

  function FileEntry(f: Folder, p: Path): Entry {
    Entry(Join(p), false, |DataAt(f, p)|, DataAt(f, p), true, Works)
  }

  /** zipDir: one entry for every file, under its slash-separated path. */
  function Zipped(f: Folder, ps: seq<Path>): seq<Entry> {
    if ps == [] then [] else Zipped(f, ps[..|ps| - 1]) + [FileEntry(f, ps[|ps| - 1])]
  }

  lemma FilesAreLeaves(f: Folder, p: Path)
    requires Tree(f) && p in Files(f)
    ensures p != [] && !ThroughFile(f, p) && forall q :: q in f ==> !Below(p, q)
  {
  }

  lemma KeptIsTree(f: Folder, s: set<Path>)
    requires Tree(f) && s <= Files(f)
    ensures Tree(Kept(f, s))
    ensures forall q :: FileAt(Kept(f, s), q) == if q in s then FileAt(f, q) else None
  {
    var g := Kept(f, s);
    forall p, i | p in g && 0 < i < |p| ensures p[..i] in g && g[p[..i]].Dir? {
      if p in s {
        assert Below(p[..i], p);
      } else {
        var q :| q in s && Below(p, q);
        assert p[..i] == q[..i];
        assert Below(p[..i], q);
      }
    }
    forall q | q in g && g[q].File? ensures q in s {
      FilesAreLeaves(f, q);
    }
  }

  /** Writing one more file extends what is kept by it and the folders above it. */
  lemma KeptGrows(f: Folder, s: set<Path>, p: Path)
    requires Tree(f) && s <= Files(f) && p in Files(f)
    ensures WriteFile(Kept(f, s), p, DataAt(f, p), Works) == (Kept(f, s + {p}), true)
    ensures !ThroughFile(Kept(f, s), p)
  {
    hide Files, Tree;
    FileIsFile(f, p);
    KeptIsTree(f, s);
    FilesAreLeaves(f, p);
    var g := Kept(f, s);
    ParentsAreShorter(p);
    ParentsAreFolders(f, p);
    assert WithParents(g, p)[p := f[p]] == Kept(f, s + {p}) by {
      forall q ensures q in WithParents(g, p)[p := f[p]] <==> q in Kept(f, s + {p}) {
        assert q in Parents(p) <==> q != [] && Below(q, p);
        assert Below([], p) && [] !in f by { TopIsNotListed(f); }
      }
    }
    assert !(p in WithParents(g, p) && WithParents(g, p)[p].Dir?) by {
      if p in g { assert g[p] == f[p]; }
    }
    assert !ThroughFile(g, p) by {
      forall i | 0 < i < |p| && p[..i] in g ensures !g[p[..i]].File? {
        assert p[..i] in Parents(p);
      }
    }
  }

  lemma TopIsNotListed(f: Folder)
    requires Tree(f)
    ensures [] !in f
  {
  }

  lemma FileIsFile(f: Folder, p: Path)
    requires p in Files(f)
    ensures p in f && f[p].File?
  {
  }

  lemma ParentsAreFolders(f: Folder, p: Path)
    requires Tree(f) && p in f
    ensures forall q :: q in Parents(p) ==> q in f && f[q].Dir?
  {
  }

  lemma {:induction false} ZippedPrefix(f: Folder, ps: seq<Path>)
    requires Tree(f) && Distinct(ps) && |ps| <= MAX_FILES
    requires forall p :: p in ps ==> p in Files(f) && Plain(p) && |DataAt(f, p)| <= MAX_FILE_BYTES
    ensures Extracted(map[], Zipped(f, ps)) == (Kept(f, Upto(ps)), |ps|)
  {
    hide Files, Tree, Plain, WriteFile, Kept, ThroughFile, Upto, Lexical, Stack, DataAt, Join, TrimSpace;
    if ps == [] {
      NothingKept(f);
    } else {
      var n := |ps| - 1;
      ZippedPrefix(f, ps[..n]);
      var before := Zipped(f, ps[..n]);
      assert Zipped(f, ps) == before + [FileEntry(f, ps[n])];
      assert (before + [FileEntry(f, ps[n])])[..|before|] == before;
      UptoGrows(ps, f);
      KeptGrows(f, Upto(ps[..n]), ps[n]);
      PlainNameIsItself(ps[n]);
    }
  }

  lemma NothingKept(f: Folder)
    ensures Kept(f, Upto([])) == map[]
  {
  }

  lemma UptoGrows(ps: seq<Path>, f: Folder)
    requires ps != [] && forall p :: p in ps ==> p in Files(f)
    ensures Upto(ps) == Upto(ps[..|ps| - 1]) + {ps[|ps| - 1]} && Upto(ps[..|ps| - 1]) <= Files(f)
  {
    assert ps == ps[..|ps| - 1] + [ps[|ps| - 1]];
  }

  /** Unpacking into an empty folder what zipDir packed gives back the folder itself, up
      to sub-folders that hold no file: all contents, nothing else. */
  lemma UnpackingUndoesPacking(f: Folder, ps: seq<Path>)
    requires Tree(f) && Walks(ps, f) && |ps| <= MAX_FILES
    requires forall p :: p in ps ==> Plain(p) && |DataAt(f, p)| <= MAX_FILE_BYTES
    ensures var (g, count) := Extracted(map[], Zipped(f, ps));
            && g == Pruned(f) && count == |ps|
            && forall q :: FileAt(g, q) == FileAt(f, q)
  {
    ZippedPrefix(f, ps);
    assert Upto(ps) == Files(f);
    KeptIsTree(f, Files(f));
  }
}
