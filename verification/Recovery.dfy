/** The project files of a recovery bundle: writeDirToZip of
    internal/api/recovery_bundle.go, the packing loop of recovery_export.go, and
    validateProjectFilesBudget, the project loop and extractZipPrefixToDir of
    recovery_import.go. Byte and file budgets are shared by all projects. */
module Recovery {
  import opened Options
  import opened PathJail
  import opened ProjectFolder
  import opened Snapshots

  const MAX_BYTES: nat := 0x4000_0000
  const MAX_BUNDLE_FILES: nat := 20000

  // ----- packing -----

  function BundleEntry(prefix: string, f: Folder, p: Path): Entry {
    FileEntry(f, p).(name := prefix + Join(p))
  }

  /** How far the packing of one folder got. */
  datatype Pack = Pack(entries: seq<Entry>, count: nat, left: int, tooLarge: bool)

  /** One file of the walk. */
  function PackOne(f: Folder, prefix: string, p: Path, st: Pack): Pack {
    var size := |DataAt(f, p)|;
    if st.tooLarge || st.count >= MAX_FILES || size > MAX_FILE_BYTES then st
    else if size > st.left then st.(tooLarge := true)
    else Pack(st.entries + [BundleEntry(prefix, f, p)], st.count + 1, st.left - size, false)
  }

  function Packed(f: Folder, prefix: string, ps: seq<Path>, left: int): Pack {
    if ps == [] then Pack([], 0, left, false)
    else PackOne(f, prefix, ps[|ps| - 1], Packed(f, prefix, ps[..|ps| - 1], left))
  }

  /** The archive under construction and the bytes it may still take. */
  class Bundle {
    var entries: seq<Entry>
    var budget: int

    constructor ()
      ensures entries == [Manifest()] && budget == MAX_BYTES
    {
      entries, budget := [Manifest()], MAX_BYTES;
    }

    method WriteDirToZip(f: Folder, prefix: string, ps: seq<Path>) returns (count: nat, ok: bool)
      modifies this
      ensures var st := Packed(f, prefix, ps, old(budget));
              entries == old(entries) + st.entries && budget == st.left && count == st.count && ok == !st.tooLarge
    {
      hide BundleEntry, DataAt;
      count := 0;
      for i := 0 to |ps|
        invariant var st := Packed(f, prefix, ps[..i], old(budget));
                  entries == old(entries) + st.entries && budget == st.left && count == st.count && !st.tooLarge
      {
        assert ps[..i + 1][..i] == ps[..i];
        var data := DataAt(f, ps[i]);
        if count >= MAX_FILES { continue; }
        if |data| > MAX_FILE_BYTES { continue; } // skipped, not a reason to stop
        if |data| > budget {
          PackingStopped(f, prefix, ps, i + 1, old(budget));
          return count, false;
        }
        entries := entries + [BundleEntry(prefix, f, ps[i])];
        budget := budget - |data|;
        count := count + 1;
      }
      assert ps[..|ps|] == ps;
      return count, true;
    }
  }

  lemma {:induction false} PackingStopped(f: Folder, prefix: string, ps: seq<Path>, i: nat, left: int)
    requires i <= |ps| && Packed(f, prefix, ps[..i], left).tooLarge
    ensures Packed(f, prefix, ps, left) == Packed(f, prefix, ps[..i], left)
  {
    if i == |ps| {
      assert ps[..i] == ps;
    } else {
      assert ps[..|ps| - 1][..i] == ps[..i];
      PackingStopped(f, prefix, ps[..|ps| - 1], i, left);
    }
  }

  /** manifest.json, always the first entry. */
  function Manifest(): Entry {
    Entry("manifest.json", false, 0, [], true, Works)
  }

  function Bytes(entries: seq<Entry>): nat {
    if entries == [] then 0 else Bytes(entries[..|entries| - 1]) + |entries[|entries| - 1].got|
  }

  lemma BytesOfMore(entries: seq<Entry>, e: Entry)
    ensures Bytes(entries + [e]) == Bytes(entries) + |e.got|
  {
    assert (entries + [e])[..|entries|] == entries;
  }

  /** Packing conserves the budget: what is left and what was packed make up what there
      was, and what is left is never negative. */
  lemma {:induction false} PackingConserves(f: Folder, prefix: string, ps: seq<Path>, left: int)
    requires left >= 0
    ensures var st := Packed(f, prefix, ps, left);
            st.left + Bytes(st.entries) == left && st.left >= 0 && |st.entries| == st.count <= MAX_FILES
  {
    if ps != [] {
      PackingConserves(f, prefix, ps[..|ps| - 1], left);
      BytesOfMore(Packed(f, prefix, ps[..|ps| - 1], left).entries, BundleEntry(prefix, f, ps[|ps| - 1]));
    }
  }

  // ----- unpacking -----

  datatype Err = TooLarge | Broken

  /** How far the unpacking of one project got; `taken` lists the entries written so far,
      for every project of the bundle. */
  datatype Unpack = Unpack(folder: Folder, count: nat, bytes: int, files: int, err: Option<Err>, taken: seq<Entry>)

  function CutPrefix(name: string, prefix: string): Option<string> {
    if HasPrefix(name, prefix) then Some(name[|prefix|..]) else None
  }

  /** One turn of extractZipPrefixToDir. */
  function UnpackOne(prefix: string, e: Entry, st: Unpack): Unpack {
    var rel := CutPrefix(e.name, prefix);
    if st.err.Some? || e.isDir || st.count >= MAX_FILES || rel.None? then st
    else
      var p := Resolve(Some(st.folder), rel.value);
      if p.None? || e.size > MAX_FILE_BYTES then st
      else if st.files <= 0 || st.bytes <= 0 then st.(err := Some(TooLarge))
      else if !e.opens || |e.got| > MAX_FILE_BYTES then st.(err := Some(Broken))
      else if |e.got| > st.bytes then st.(err := Some(TooLarge))
      else
        var (f, ok) := WriteFile(st.folder, p.value, e.got, e.io);
        if !ok then st.(folder := f, err := Some(Broken))
        else Unpack(f, st.count + 1, st.bytes - |e.got|, st.files - 1, None, st.taken + [e])
  }

  function Unpacked(prefix: string, entries: seq<Entry>, st: Unpack): Unpack {
    if entries == [] then st
    else UnpackOne(prefix, entries[|entries| - 1], Unpacked(prefix, entries[..|entries| - 1], st))
  }

  function Fresh(bytes: int, files: int, taken: seq<Entry>): Unpack {
    Unpack(map[], 0, bytes, files, None, taken)
  }

  /** What the import has left and what came of each project of the manifest. */
  datatype Import = Import(bytes: int, files: int, taken: seq<Entry>, results: seq<Option<Folder>>, stopped: bool)

  function ProjectPrefix(slug: string): string {
    "projects/" + slug + "/"
  }

  /** One project of the manifest; a bundle that unpacks too much stops the import. */
  function ImportOne(slug: string, entries: seq<Entry>, existing: set<string>, st: Import): Import {
    if st.stopped || slug in existing then st.(results := st.results + [None])
    else
      var u := Unpacked(ProjectPrefix(slug), entries, Fresh(st.bytes, st.files, st.taken));
      Import(u.bytes, u.files, u.taken, st.results + [if u.err.None? then Some(u.folder) else None],
             u.err == Some(TooLarge))
  }

  function Imported(slugs: seq<string>, entries: seq<Entry>, existing: set<string>): Import {
    if slugs == [] then Import(MAX_BYTES, MAX_BUNDLE_FILES, [], [], false)
    else ImportOne(slugs[|slugs| - 1], entries, existing, Imported(slugs[..|slugs| - 1], entries, existing))
  }

  /** The budgets the import threads through every project. */
  class Importer {
    var bytes: int
    var files: int
    ghost var taken: seq<Entry>

    constructor ()
      ensures bytes == MAX_BYTES && files == MAX_BUNDLE_FILES && taken == []
    {
      bytes, files, taken := MAX_BYTES, MAX_BUNDLE_FILES, [];
    }

    method ExtractZipPrefixToDir(entries: seq<Entry>, prefix: string)
      returns (folder: Folder, count: nat, err: Option<Err>)
      modifies this
      ensures Unpack(folder, count, bytes, files, err, taken)
              == Unpacked(prefix, entries, Fresh(old(bytes), old(files), old(taken)))
    {
      hide Resolve, WriteFile, CutPrefix;
      folder, count, err := map[], 0, None;
      ghost var start := Fresh(bytes, files, taken);
      for i := 0 to |entries|
        invariant Unpack(folder, count, bytes, files, None, taken) == Unpacked(prefix, entries[..i], start)
        invariant err == None
      {
        assert entries[..i + 1][..i] == entries[..i];
        var e := entries[i];
        if e.isDir || count >= MAX_FILES { continue; }
        var rel := CutPrefix(e.name, prefix);
        if rel.None? { continue; }
        var full := Resolve(Some(folder), rel.value);
        if full.None? || e.size > MAX_FILE_BYTES { continue; }
        var fits := files > 0 && bytes > 0;
        var readable := e.opens && |e.got| <= MAX_FILE_BYTES;
        if !fits || !readable || |e.got| > bytes {
          err := if fits && !readable then Some(Broken) else Some(TooLarge);
          UnpackingStopped(prefix, entries, i + 1, start);
          return;
        }
        var (written, ok) := WriteFile(folder, full.value, e.got, e.io);
        folder := written;
        if !ok {
          err := Some(Broken);
          UnpackingStopped(prefix, entries, i + 1, start);
          return;
        }
        bytes, files, count := bytes - |e.got|, files - 1, count + 1;
        taken := taken + [e];
      }
      assert entries[..|entries|] == entries;
    }

    /** The project loop of applyRecoveryBundle. */
    method ImportProjects(slugs: seq<string>, entries: seq<Entry>, existing: set<string>)
      returns (results: seq<Option<Folder>>, stopped: bool)
      requires bytes == MAX_BYTES && files == MAX_BUNDLE_FILES && taken == []
      modifies this
      ensures Import(bytes, files, taken, results, stopped) == Imported(slugs, entries, existing)
    {
      hide Unpacked, ProjectPrefix;
      results, stopped := [], false;
      for i := 0 to |slugs|
        invariant Import(bytes, files, taken, results, stopped) == Imported(slugs[..i], entries, existing)
      {
        assert slugs[..i + 1][..i] == slugs[..i];
        if stopped || slugs[i] in existing {
          results := results + [None];
          continue;
        }
        var folder, _, err := ExtractZipPrefixToDir(entries, ProjectPrefix(slugs[i]));
        results := results + [if err.None? then Some(folder) else None];
        stopped := err == Some(TooLarge);
      }
      assert slugs[..|slugs|] == slugs;
    }
  }

  lemma {:induction false} UnpackingStopped(prefix: string, entries: seq<Entry>, i: nat, st: Unpack)
    requires i <= |entries| && Unpacked(prefix, entries[..i], st).err.Some?
    ensures Unpacked(prefix, entries, st) == Unpacked(prefix, entries[..i], st)
  {
    if i == |entries| {
      assert entries[..i] == entries;
    } else {
      assert entries[..|entries| - 1][..i] == entries[..i];
      UnpackingStopped(prefix, entries[..|entries| - 1], i, st);
    }
  }

  /** Budgets and what was taken against them add up to what there was at the start. */
  predicate Balanced(bytes: int, files: int, taken: seq<Entry>) {
    bytes + Bytes(taken) == MAX_BYTES && files + |taken| == MAX_BUNDLE_FILES && bytes >= 0 && files >= 0
  }

  lemma {:induction false} UnpackingBalances(prefix: string, entries: seq<Entry>, st: Unpack)
    requires Balanced(st.bytes, st.files, st.taken)
    ensures var u := Unpacked(prefix, entries, st); Balanced(u.bytes, u.files, u.taken)
  {
    hide Resolve, WriteFile, CutPrefix;
    if entries != [] {
      var n := |entries| - 1;
      UnpackingBalances(prefix, entries[..n], st);
      BytesOfMore(Unpacked(prefix, entries[..n], st).taken, entries[n]);
    }
  }

  /** Across all projects of any bundle, honest or not, bytes written and bytes left make
      up the budget, the same for files, and neither is ever overdrawn. */
  lemma {:induction false} ImportConserves(slugs: seq<string>, entries: seq<Entry>, existing: set<string>)
    ensures var st := Imported(slugs, entries, existing);
            Balanced(st.bytes, st.files, st.taken) && |st.results| == |slugs|
  {
    hide Balanced, Unpacked, ProjectPrefix;
    if slugs == [] {
      StartsBalanced();
    } else {
      var n := |slugs| - 1;
      ImportConserves(slugs[..n], entries, existing);
      var st := Imported(slugs[..n], entries, existing);
      UnpackingBalances(ProjectPrefix(slugs[n]), entries, Fresh(st.bytes, st.files, st.taken));
    }
  }

  lemma StartsBalanced()
    ensures Balanced(MAX_BYTES, MAX_BUNDLE_FILES, [])
  {
  }
}
