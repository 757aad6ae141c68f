/** One project's folder: internal/api/rootfs.go, and zipDir, countFiles and
    extractZipToDir of internal/api/project_handlers.go.

    A folder maps the paths below its top to what stands there; links are not part of
    the model. */
module ProjectFolder {
  import opened Options
  import opened PathJail

  const MAX_FILES: nat := 100
  const MAX_FILE_BYTES: nat := 0x10_0000

  type Path = seq<string>
  type Bytes = seq<bv8>

  datatype Node = Dir | File(data: Bytes)

  type Folder = map<Path, Node>

  function FileAt(f: Folder, p: Path): Option<Bytes> {
    if p in f && f[p].File? then Some(f[p].data) else None
  }

  function Files(f: Folder): set<Path> {
    set p | p in f && f[p].File?
  }

  /** Every proper part of a path is a directory. */
  ghost predicate Tree(f: Folder) {
    && [] !in f
    && forall p, i :: p in f && 0 < i < |p| ==> p[..i] in f && f[p[..i]].Dir?
  }

  predicate ThroughFile(f: Folder, p: Path) {
    exists i :: 0 < i < |p| && p[..i] in f && f[p[..i]].File?
  }

  /** safeJoin against a folder: a missing folder or a path that leads through a file is
      an error of the look at the disk. */
  function Resolve(folder: Option<Folder>, name: string): (p: Option<Path>)
    ensures p.Some? ==> folder.Some?
  {
    if folder.None? || Lexical(name).None? then None
    else
      var p := Stack(TrimSpace(name));
      if ThroughFile(folder.value, p) then None else Some(p)
  }

  function Parents(p: Path): set<Path> {
    set i | 0 < i < |p| :: p[..i]
  }

  function WithParents(f: Folder, p: Path): Folder {
    f + map q | q in Parents(p) :: Dir
  }

  predicate Exists(f: Folder, p: Path) {
    p == [] || p in f
  }

  predicate IsDir(f: Folder, p: Path) {
    p == [] || (p in f && f[p].Dir?)
  }

  // ----- what the environment may do to a write -----

  /** How a write went: only the first `made` parents could be made, or the file could not
      be written, perhaps after it was opened and cut short. */
  datatype WriteFault = Works | ParentsFail(made: nat) | FileFails(left: Option<Bytes>)

  /** What MkdirAll leaves of a path's parents when it stops half-way. */
  function WithSomeParents(f: Folder, p: Path, made: nat): Folder {
    WithParents(f, if made + 1 < |p| then p[..made + 1] else p)
  }

  function PutFile(f: Folder, p: Path, data: Bytes, io: WriteFault): (r: (Folder, bool)) {
    if IsDir(f, p) then (f, false)
    else match io
      case FileFails(left) => (if left.Some? then f[p := File(left.value)] else f, false)
      case _ => (f[p := File(data)], true)
  }

  /** writeRootFile. */
  function WriteFile(f: Folder, p: Path, data: Bytes, io: WriteFault): (Folder, bool) {
    if |p| > 1 && io.ParentsFail? then (WithSomeParents(f, p, io.made), false)
    else PutFile(WithParents(f, p), p, data, io)
  }

  predicate HasChildren(f: Folder, p: Path) {
    exists q :: q in f && |p| < |q| && q[..|p|] == p
  }

  // ----- archives -----

  /** One entry of an archive: `size` is what its header claims, `got` what reading it
      yields, `opens` whether it can be read at all. */
  datatype Entry = Entry(name: string, isDir: bool, size: nat, got: Bytes, opens: bool, io: WriteFault)

  /** What io.LimitReader lets through. */
  function Content(e: Entry): Bytes {
    if |e.got| > MAX_FILE_BYTES then e.got[..MAX_FILE_BYTES] else e.got
  }

  /** One turn of extractZipToDir. */
  function ExtractOne(f: Folder, count: nat, e: Entry): (Folder, nat) {
    if e.isDir || count >= MAX_FILES then (f, count)
    else
      var p := Resolve(Some(f), e.name);
      if p.None? || e.size > MAX_FILE_BYTES || !e.opens then (f, count)
      else
        var (f', ok) := WriteFile(f, p.value, Content(e), e.io);
        (f', if ok then count + 1 else count)
  }

  function Extracted(f: Folder, entries: seq<Entry>): (Folder, nat) {
    if entries == [] then (f, 0)
    else
      var (f', count) := Extracted(f, entries[..|entries| - 1]);
      ExtractOne(f', count, entries[|entries| - 1])
  }

  method ExtractZipToDir(entries: seq<Entry>, root: Folder) returns (f: Folder, count: nat)
    ensures (f, count) == Extracted(root, entries)
  {
    hide Resolve, WriteFile, Content;
    f, count := root, 0;
    for i := 0 to |entries|
      invariant (f, count) == Extracted(root, entries[..i])
    {
      assert entries[..i + 1][..i] == entries[..i];
      var e := entries[i];
      if e.isDir || count >= MAX_FILES { continue; }
      var p := Resolve(Some(f), e.name);
      if p.None? || e.size > MAX_FILE_BYTES { continue; }
      if !e.opens { continue; }
      var content := Content(e);
      var (written, ok) := WriteFile(f, p.value, content, e.io);
      f := written;
      if ok { count := count + 1; }
    }
    assert entries[..|entries|] == entries;
  }

  // ----- what writing keeps -----

  lemma ParentsAreShorter(p: Path)
    ensures forall q :: q in Parents(p) <==> 0 < |q| < |p| && q == p[..|q|]
  {
  }

  /** Making the folders above a path touches no file. */
  lemma WithParentsKeepsFiles(f: Folder, p: Path)
    requires !ThroughFile(f, p)
    ensures forall q :: FileAt(WithParents(f, p), q) == FileAt(f, q)
    ensures Files(WithParents(f, p)) == Files(f)
    ensures forall i :: 0 < i < |p| ==> IsDir(WithParents(f, p), p[..i])
  {
    var g := WithParents(f, p);
    ParentsAreShorter(p);
    forall q ensures FileAt(g, q) == FileAt(f, q) {
      if q in Parents(p) && q in f {
        assert q == p[..|q|];
      }
    }
    forall i | 0 < i < |p| ensures IsDir(g, p[..i]) {
      assert p[..i] in Parents(p);
    }
    forall q ensures q in Files(g) <==> q in Files(f) {
      assert FileAt(g, q) == FileAt(f, q);
    }
  }

  lemma WithParentsIsTree(f: Folder, p: Path)
    requires Tree(f) && !ThroughFile(f, p)
    ensures Tree(WithParents(f, p))
  {
    var g := WithParents(f, p);
    ParentsAreShorter(p);
    forall q, i | q in g && 0 < i < |q| ensures q[..i] in g && g[q[..i]].Dir? {
      if q in Parents(p) {
        assert q[..i] == p[..i];
      } else if q[..i] in Parents(p) {
      } else {
        assert q in f;
      }
    }
  }

  /** The same for folders that were made only half-way. */
  lemma SomeParentsKeepFiles(f: Folder, p: Path, made: nat)
    requires !ThroughFile(f, p)
    ensures forall q :: FileAt(WithSomeParents(f, p, made), q) == FileAt(f, q)
    ensures Files(WithSomeParents(f, p, made)) == Files(f)
    ensures Tree(f) ==> Tree(WithSomeParents(f, p, made))
  {
    hide Tree;
    var part := if made + 1 < |p| then p[..made + 1] else p;
    assert forall i :: 0 < i < |part| ==> part[..i] == p[..i];
    WithParentsKeepsFiles(f, part);
    if Tree(f) { WithParentsIsTree(f, part); }
  }

  lemma SetFileIsTree(f: Folder, p: Path, data: Bytes)
    requires Tree(f) && !IsDir(f, p) && forall i :: 0 < i < |p| ==> IsDir(f, p[..i])
    ensures Tree(f[p := File(data)]) && Files(f[p := File(data)]) == Files(f) + {p}
  {
    var g := f[p := File(data)];
    forall q, i | q in g && 0 < i < |q| ensures q[..i] in g && g[q[..i]].Dir? {
      assert q == p || q[..i] != p;
    }
  }

  /** A write changes no other file, leaves its content when it works, and keeps a tree a
      tree. */
  lemma WriteKeeps(f: Folder, p: Path, data: Bytes, io: WriteFault)
    requires !ThroughFile(f, p)
    ensures var (g, ok) := WriteFile(f, p, data, io);
            && Files(f) <= Files(g) <= Files(f) + {p}
            && (forall q :: q != p ==> FileAt(g, q) == FileAt(f, q))
            && (ok ==> FileAt(g, p) == Some(data))
            && (Tree(f) ==> Tree(g))
  {
    hide Tree, ThroughFile, WithParents, WithSomeParents;
    WithParentsKeepsFiles(f, p);
    if io.ParentsFail? { SomeParentsKeepFiles(f, p, io.made); }
    var h := WithParents(f, p);
    if Tree(f) {
      WithParentsIsTree(f, p);
      if !IsDir(h, p) {
        SetFileIsTree(h, p, data);
        if io.FileFails? && io.left.Some? { SetFileIsTree(h, p, io.left.value); }
      }
    }
  }

  lemma AddOne(s: set<Path>, t: set<Path>, p: Path)
    requires t <= s + {p}
    ensures |t| <= |s| + 1 && (p in s ==> |t| <= |s|)
  {
    var u := s + {p};
    assert u == t + (u - t);
    if p in s { assert u == s; }
  }

  /** Extraction keeps a folder a tree. Into an empty one, where no write is cut short,
      it leaves at most as many files as it counted, so at most 100. */
  lemma {:induction false} ExtractionIsBounded(entries: seq<Entry>)
    ensures var (f, count) := Extracted(map[], entries);
            && Tree(f) && count <= MAX_FILES
            && ((forall i :: 0 <= i < |entries| ==> !entries[i].io.FileFails?) ==> |Files(f)| <= count)
  {
    hide Files, Tree, Resolve, WriteFile;
    if entries == [] {
      EmptyFolder();
    } else {
      var n := |entries| - 1;
      ExtractionIsBounded(entries[..n]);
      var (f, count) := Extracted(map[], entries[..n]);
      ExtractOneKeeps(f, count, entries[n]);
    }
  }

  lemma EmptyFolder()
    ensures Tree(map[]) && Files(map[]) == {}
  {
  }

  lemma ExtractOneKeeps(f: Folder, count: nat, e: Entry)
    requires Tree(f)
    ensures var (g, n) := ExtractOne(f, count, e);
            && Tree(g) && count <= n && (count <= MAX_FILES ==> n <= MAX_FILES)
            && (|Files(f)| <= count && !e.io.FileFails? ==> |Files(g)| <= n)
  {
    hide Tree, Files, ThroughFile;
    var p := Resolve(Some(f), e.name);
    if !e.isDir && count < MAX_FILES && p.Some? && e.size <= MAX_FILE_BYTES && e.opens {
      var content := Content(e);
      WriteKeeps(f, p.value, content, e.io);
      AddOne(Files(f), Files(WriteFile(f, p.value, content, e.io).0), p.value);
      if !WriteFile(f, p.value, content, e.io).1 && !e.io.FileFails? {
        RefusedWriteAddsNoFile(f, p.value, content, e.io);
      }
    }
  }

  lemma RefusedWriteAddsNoFile(f: Folder, p: Path, data: Bytes, io: WriteFault)
    requires !ThroughFile(f, p) && !io.FileFails? && !WriteFile(f, p, data, io).1
    ensures Files(WriteFile(f, p, data, io).0) == Files(f)
  {
    hide Files, ThroughFile, WithParents, WithSomeParents;
    WithParentsKeepsFiles(f, p);
    if io.ParentsFail? { SomeParentsKeepFiles(f, p, io.made); }
  }
}
