/** What the export packs, the import gives back: exactly which exported bundles the same
    program imports again, and that those it does come back file for file. */
module RecoveryRoundTrip {
  import opened Options
  import opened PathJail
  import opened ProjectFolder
  import opened Snapshots
  import opened SnapshotLimits
  import opened Recovery
  import opened Picks

  // ----- validation -----

  function Counted(e: Entry): bool {
    !e.isDir && HasPrefix(e.name, "projects/")
  }

  function CountOf(entries: seq<Entry>): nat {
    if entries == [] then 0 else CountOf(entries[..|entries| - 1]) + if Counted(entries[|entries| - 1]) then 1 else 0
  }

  function SizeOf(entries: seq<Entry>): nat {
    if entries == [] then 0
    else SizeOf(entries[..|entries| - 1]) + if Counted(entries[|entries| - 1]) then entries[|entries| - 1].size else 0
  }

  /** validateProjectFilesBudget, on the sizes the archive declares. */
  method ValidateProjectFilesBudget(entries: seq<Entry>, maxBytes: int, maxFiles: int) returns (ok: bool)
    ensures ok <==> CountOf(entries) <= maxFiles && SizeOf(entries) <= maxBytes
  {
    hide Counted;
    var totalBytes, totalFiles := 0, 0;
    for i := 0 to |entries|
      invariant totalFiles == CountOf(entries[..i]) && totalBytes == SizeOf(entries[..i])
    {
      assert entries[..i + 1][..i] == entries[..i];
      if !Counted(entries[i]) { continue; }
      totalFiles := totalFiles + 1;
      totalBytes := totalBytes + entries[i].size;
    }
    assert entries[..|entries|] == entries;
    return totalFiles <= maxFiles && totalBytes <= maxBytes;
  }

  // ----- what an export packs -----

  /** A project of the export: its slug, its folder, and the order the walk met its files. */
  datatype Project = Project(slug: string, folder: Folder, walk: seq<Path>)

  ghost predicate Exportable(pr: Project) {
    Tree(pr.folder) && Walks(pr.walk, pr.folder) && (forall p :: p in pr.walk ==> AllNormal(p)) && '/' !in pr.slug
  }

  /** The files the caps let through: the first hundred that are not oversized. */
  function Chosen(f: Folder, ps: seq<Path>): seq<Path> {
    if ps == [] then []
    else
      var before := Chosen(f, ps[..|ps| - 1]);
      var p := ps[|ps| - 1];
      if |before| >= MAX_FILES || |DataAt(f, p)| > MAX_FILE_BYTES then before else before + [p]
  }

  /** How many of the first n files of a walk are no larger than a mebibyte. */
  function SmallOnes(f: Folder, ps: seq<Path>, n: nat): nat
    requires n <= |ps|
  {
    if n == 0 then 0 else SmallOnes(f, ps, n - 1) + if |DataAt(f, ps[n - 1])| <= 0x10_0000 then 1 else 0
  }

  lemma {:induction false} ChosenUpTo(f: Folder, ps: seq<Path>, n: nat) returns (at: seq<nat>)
    requires n <= |ps|
    ensures PickedAt(ps[..n], Chosen(f, ps[..n]), at)
    ensures forall i :: i in at <==> 0 <= i < n && |DataAt(f, ps[i])| <= 0x10_0000 && SmallOnes(f, ps, i) < 100
    ensures |at| == if SmallOnes(f, ps, n) < 100 then SmallOnes(f, ps, n) else 100
  {
    hide DataAt;
    if n == 0 {
      at := [];
    } else {
      at := ChosenUpTo(f, ps, n - 1);
      assert ps[..n][..n - 1] == ps[..n - 1];
      PickNext(ps[..n], Chosen(f, ps[..n - 1]), at, n - 1);
      if |at| < 100 && |DataAt(f, ps[n - 1])| <= 0x10_0000 { at := at + [n - 1]; }
    }
  }

  /** What the caps let through of a walk: its files of at most a mebibyte, in order and each
      once, up to the hundredth. */
  lemma ChosenArePicked(f: Folder, ps: seq<Path>) returns (at: seq<nat>)
    ensures PickedAt(ps, Chosen(f, ps), at)
    ensures forall i :: i in at <==> 0 <= i < |ps| && |DataAt(f, ps[i])| <= 0x10_0000 && SmallOnes(f, ps, i) < 100
  {
    at := ChosenUpTo(f, ps, |ps|);
    assert ps[..|ps|] == ps;
  }

  function EntriesOf(prefix: string, f: Folder, ps: seq<Path>): seq<Entry> {
    if ps == [] then [] else EntriesOf(prefix, f, ps[..|ps| - 1]) + [BundleEntry(prefix, f, ps[|ps| - 1])]
  }

  function Total(f: Folder, ps: seq<Path>): nat {
    if ps == [] then 0 else Total(f, ps[..|ps| - 1]) + |DataAt(f, ps[|ps| - 1])|
  }

  function ChosenOf(pr: Project): seq<Path> {
    Chosen(pr.folder, pr.walk)
  }

  function Own(pr: Project): seq<Entry> {
    EntriesOf(ProjectPrefix(pr.slug), pr.folder, ChosenOf(pr))
  }

  /** The whole export: the archive, the bytes left, and whether it was refused. */
  datatype Export = Export(entries: seq<Entry>, left: int, tooLarge: bool)

  function Exported(projects: seq<Project>): Export {
    if projects == [] then Export([Manifest()], MAX_BYTES, false)
    else
      var before := Exported(projects[..|projects| - 1]);
      var pr := projects[|projects| - 1];
      if before.tooLarge then before
      else
        var st := Packed(pr.folder, ProjectPrefix(pr.slug), pr.walk, before.left);
        Export(before.entries + st.entries, st.left, st.tooLarge)
  }

  /** The packing loop of handleExportRecoveryBundle. */
  method ExportBundle(projects: seq<Project>) returns (entries: seq<Entry>, ok: bool)
    ensures ok == !Exported(projects).tooLarge && entries == Exported(projects).entries
  {
    hide Packed, ProjectPrefix;
    var bundle := new Bundle();
    for i := 0 to |projects|
      invariant Exported(projects[..i]) == Export(bundle.entries, bundle.budget, false)
    {
      assert projects[..i + 1][..i] == projects[..i];
      var _, packed := bundle.WriteDirToZip(projects[i].folder, ProjectPrefix(projects[i].slug), projects[i].walk);
      if !packed {
        ExportStopped(projects, i + 1);
        return bundle.entries, false;
      }
    }
    assert projects[..|projects|] == projects;
    return bundle.entries, true;
  }

  lemma {:induction false} ExportStopped(projects: seq<Project>, i: nat)
    requires i <= |projects| && Exported(projects[..i]).tooLarge
    ensures Exported(projects) == Exported(projects[..i])
  {
    if i == |projects| {
      assert projects[..i] == projects;
    } else {
      assert projects[..|projects| - 1][..i] == projects[..i];
      ExportStopped(projects[..|projects| - 1], i);
    }
  }

  lemma {:induction false} PackedIsChosen(f: Folder, prefix: string, ps: seq<Path>, left: int)
    requires !Packed(f, prefix, ps, left).tooLarge
    ensures var st := Packed(f, prefix, ps, left);
            && st.entries == EntriesOf(prefix, f, Chosen(f, ps)) && st.count == |Chosen(f, ps)|
            && st.left == left - Total(f, Chosen(f, ps))
    ensures Chosen(f, ps) != [] ==> Packed(f, prefix, ps, left).left >= 0
  {
    hide BundleEntry, DataAt;
    if ps != [] {
      var before := Chosen(f, ps[..|ps| - 1]);
      PackedIsChosen(f, prefix, ps[..|ps| - 1], left);
      assert (before + [ps[|ps| - 1]])[..|before|] == before;
    }
  }

  function BytesIn(projects: seq<Project>): nat {
    if projects == [] then 0
    else
      var pr := projects[|projects| - 1];
      BytesIn(projects[..|projects| - 1]) + Total(pr.folder, ChosenOf(pr))
  }

  function FilesIn(projects: seq<Project>): nat {
    if projects == [] then 0 else FilesIn(projects[..|projects| - 1]) + |ChosenOf(projects[|projects| - 1])|
  }

  function Archive(projects: seq<Project>): seq<Entry> {
    if projects == [] then [Manifest()] else Archive(projects[..|projects| - 1]) + Own(projects[|projects| - 1])
  }

  /** An export that was not refused is the manifest and every project's chosen files. */
  lemma {:induction false} ExportedIsArchive(projects: seq<Project>)
    requires !Exported(projects).tooLarge
    ensures var x := Exported(projects);
            x.entries == Archive(projects) && x.left == MAX_BYTES - BytesIn(projects) && x.left >= 0
  {
    hide ProjectPrefix, Packed;
    if projects != [] {
      var n := |projects| - 1;
      var pr := projects[n];
      ExportedIsArchive(projects[..n]);
      PackedIsChosen(pr.folder, ProjectPrefix(pr.slug), pr.walk, Exported(projects[..n]).left);
      PackingConserves(pr.folder, ProjectPrefix(pr.slug), pr.walk, Exported(projects[..n]).left);
    }
  }

  // ----- whose entry is whose -----

  lemma PrefixTellsTheSlug(slug: string, other: string, rest: string)
    requires '/' !in slug && '/' !in other
    ensures HasPrefix(ProjectPrefix(slug) + rest, ProjectPrefix(other)) ==> slug == other
  {
    var name, prefix := ProjectPrefix(slug) + rest, ProjectPrefix(other);
    var a, b := slug + "/" + rest, other + "/";
    assert name == "projects/" + a && prefix == "projects/" + b;
    assert a[|slug|] == '/' && b[|other|] == '/';
    assert forall i :: 0 <= i < |slug| ==> a[i] == slug[i];
    assert forall i :: 0 <= i < |other| ==> b[i] == other[i];
    if HasPrefix(name, prefix) {
      assert forall i :: 0 <= i < |b| ==> a[i] == name[9 + i] && b[i] == prefix[9 + i];
    }
  }

  lemma OwnPrefix(prefix: string, rest: string)
    ensures CutPrefix(prefix + rest, prefix) == Some(rest)
  {
  }

  lemma ManifestIsNobodys(slug: string)
    ensures !HasPrefix(Manifest().name, ProjectPrefix(slug)) && !Counted(Manifest())
  {
    assert ProjectPrefix(slug)[0] == 'p';
    assert "projects/"[0] == 'p';
  }

  ghost predicate Nobodys(prefix: string, entries: seq<Entry>) {
    forall i :: 0 <= i < |entries| ==> !HasPrefix(entries[i].name, prefix)
  }

  lemma {:induction false} UnpackConcat(prefix: string, a: seq<Entry>, b: seq<Entry>, st: Unpack)
    ensures Unpacked(prefix, a + b, st) == Unpacked(prefix, b, Unpacked(prefix, a, st))
  {
    hide UnpackOne;
    if b == [] {
      assert a + b == a;
    } else {
      assert (a + b)[..|a + b| - 1] == a + b[..|b| - 1];
      UnpackConcat(prefix, a, b[..|b| - 1], st);
    }
  }

  lemma {:induction false} UnpackNobodys(prefix: string, entries: seq<Entry>, st: Unpack)
    requires Nobodys(prefix, entries)
    ensures Unpacked(prefix, entries, st) == st
  {
    hide HasPrefix;
    if entries != [] { UnpackNobodys(prefix, entries[..|entries| - 1], st); }
  }

  lemma {:induction false} OthersAreNobodys(slug: string, other: string, f: Folder, ps: seq<Path>)
    requires '/' !in slug && '/' !in other && slug != other
    ensures Nobodys(ProjectPrefix(other), EntriesOf(ProjectPrefix(slug), f, ps))
  {
    hide ProjectPrefix, HasPrefix;
    if ps != [] {
      OthersAreNobodys(slug, other, f, ps[..|ps| - 1]);
      PrefixTellsTheSlug(slug, other, Join(ps[|ps| - 1]));
    }
  }

  /** The slugs of an installation are unique and hold no slash. */
  ghost predicate Slugs(projects: seq<Project>) {
    && (forall i :: 0 <= i < |projects| ==> '/' !in projects[i].slug)
    && forall i, j :: 0 <= i < j < |projects| ==> projects[i].slug != projects[j].slug
  }

  /** Of the whole archive a project's prefix picks out its own entries. */
  lemma {:induction false} UnpackPicksOwn(projects: seq<Project>, k: nat, st: Unpack)
    requires Slugs(projects) && k < |projects|
    ensures var prefix := ProjectPrefix(projects[k].slug);
            Unpacked(prefix, Archive(projects), st) == Unpacked(prefix, Own(projects[k]), st)
  {
    hide ProjectPrefix, Own, Unpacked, Nobodys;
    var n := |projects| - 1;
    var prefix := ProjectPrefix(projects[k].slug);
    UnpackConcat(prefix, Archive(projects[..n]), Own(projects[n]), st);
    if k == n {
      ArchiveIsOthers(projects[..n], projects[k].slug);
      UnpackNobodys(prefix, Archive(projects[..n]), st);
    } else {
      UnpackPicksOwn(projects[..n], k, st);
      OwnIsOthers(projects[n], projects[k].slug);
      UnpackNobodys(prefix, Own(projects[n]), Unpacked(prefix, Archive(projects[..n]), st));
    }
  }

  lemma OwnIsOthers(pr: Project, other: string)
    requires '/' !in pr.slug && '/' !in other && pr.slug != other
    ensures Nobodys(ProjectPrefix(other), Own(pr))
  {
    OthersAreNobodys(pr.slug, other, pr.folder, ChosenOf(pr));
  }

  lemma {:induction false} ArchiveIsOthers(projects: seq<Project>, other: string)
    requires Slugs(projects) && '/' !in other && forall i :: 0 <= i < |projects| ==> projects[i].slug != other
    ensures Nobodys(ProjectPrefix(other), Archive(projects))
  {
    hide ProjectPrefix, HasPrefix, Own;
    if projects == [] {
      ManifestIsNobodys(other);
    } else {
      var n := |projects| - 1;
      ArchiveIsOthers(projects[..n], other);
      OwnIsOthers(projects[n], other);
    }
  }

  // ----- one project comes back -----

  /** Every file of `ps` finds room: at least a byte and a file left before it. */
  ghost predicate Room(f: Folder, ps: seq<Path>, bytes: int, files: int) {
    forall i :: 0 <= i < |ps| ==> Total(f, ps[..i]) < bytes && i < files
  }

  ghost predicate Good(f: Folder, ps: seq<Path>) {
    && Tree(f) && Distinct(ps) && |ps| <= MAX_FILES
    && forall i :: 0 <= i < |ps| ==> ps[i] in Files(f) && Plain(ps[i]) && |DataAt(f, ps[i])| <= MAX_FILE_BYTES
  }

  lemma {:induction false} RoomPrefix(f: Folder, ps: seq<Path>, bytes: int, files: int)
    requires ps != []
    ensures var n := |ps| - 1;
            Room(f, ps, bytes, files) <==> Room(f, ps[..n], bytes, files) && Total(f, ps[..n]) < bytes && n < files
  {
    var n := |ps| - 1;
    assert forall i :: 0 <= i < n ==> ps[..n][..i] == ps[..i];
  }

  /** A project's own entries unpack completely exactly when there is room for each, and
      then to its packed files and the folders above them. */
  lemma {:induction false} OwnEntriesUnpack(prefix: string, f: Folder, ps: seq<Path>, st: Unpack)
    requires Good(f, ps) && st == Fresh(st.bytes, st.files, st.taken) && Total(f, ps) <= st.bytes
    ensures var u := Unpacked(prefix, EntriesOf(prefix, f, ps), st);
            && (u.err.None? <==> Room(f, ps, st.bytes, st.files))
            && (u.err.None? ==>
                  u == Unpack(Kept(f, Upto(ps)), |ps|, st.bytes - Total(f, ps), st.files - |ps|, None, u.taken))
            && (u.err.Some? ==> u.err == Some(TooLarge))
  {
    hide Good, Kept, Upto, DataAt, Room, UnpackOne, BundleEntry;
    if ps == [] {
      NothingKept(f);
      RoomForNothing(f, st.bytes, st.files);
    } else {
      var n := |ps| - 1;
      var before := EntriesOf(prefix, f, ps[..n]);
      GoodPrefix(f, ps);
      OwnEntriesUnpack(prefix, f, ps[..n], st);
      RoomPrefix(f, ps, st.bytes, st.files);
      OwnEntryUnpacks(prefix, f, ps, Unpacked(prefix, before, st));
      assert (before + [BundleEntry(prefix, f, ps[n])])[..|before|] == before;
    }
  }

  lemma GoodPrefix(f: Folder, ps: seq<Path>)
    requires Good(f, ps) && ps != []
    ensures Good(f, ps[..|ps| - 1])
  {
  }

  lemma RoomForNothing(f: Folder, bytes: int, files: int)
    ensures Room(f, [], bytes, files)
  {
  }

  lemma OwnEntryUnpacks(prefix: string, f: Folder, ps: seq<Path>, st: Unpack)
    requires ps != [] && Good(f, ps)
    requires st.err.None? ==>
             st.folder == Kept(f, Upto(ps[..|ps| - 1])) && st.count == |ps| - 1 && |DataAt(f, ps[|ps| - 1])| <= st.bytes
    ensures var n := |ps| - 1;
            var u := UnpackOne(prefix, BundleEntry(prefix, f, ps[n]), st);
            && (st.err.Some? ==> u == st)
            && (st.err.None? && (st.bytes <= 0 || st.files <= 0) ==> u.err == Some(TooLarge))
            && (st.err.None? && st.bytes > 0 && st.files > 0 ==>
                  u == Unpack(Kept(f, Upto(ps)), n + 1, st.bytes - |DataAt(f, ps[n])|, st.files - 1, None, u.taken))
  {
    hide Files, Tree, Plain, Kept, Upto, UnpackOne, BundleEntry, DataAt;
    var n := |ps| - 1;
    if st.err.None? {
      UptoGrows(ps, f);
      OneUnpacks(prefix, f, Upto(ps[..n]), ps[n], st);
    } else {
      StoppedStays(prefix, BundleEntry(prefix, f, ps[n]), st);
    }
  }

  lemma StoppedStays(prefix: string, e: Entry, st: Unpack)
    requires st.err.Some?
    ensures UnpackOne(prefix, e, st) == st
  {
  }

  lemma OneUnpacks(prefix: string, f: Folder, s: set<Path>, p: Path, st: Unpack)
    requires Tree(f) && s <= Files(f) && p in Files(f) && Plain(p)
    requires |DataAt(f, p)| <= st.bytes && |DataAt(f, p)| <= MAX_FILE_BYTES
    requires st.err.None? && st.count < MAX_FILES && st.folder == Kept(f, s)
    ensures var u := UnpackOne(prefix, BundleEntry(prefix, f, p), st);
            if st.bytes <= 0 || st.files <= 0 then u.err == Some(TooLarge)
            else u == Unpack(Kept(f, s + {p}), st.count + 1, st.bytes - |DataAt(f, p)|, st.files - 1, None, u.taken)
  {
    hide Files, Tree, Plain, Kept, DataAt, Join, WriteFile, CutPrefix, Resolve;
    OwnPrefix(prefix, Join(p));
    KeptGrows(f, s, p);
    PlainResolves(st.folder, p);
  }

  lemma PlainResolves(f: Folder, p: Path)
    requires Plain(p) && !ThroughFile(f, p)
    ensures Resolve(Some(f), Join(p)) == Some(p)
  {
    hide Plain, Lexical, Stack, TrimSpace, Join, ThroughFile;
    PlainNameIsItself(p);
  }

  // ----- the whole bundle comes back -----

  lemma {:induction false} ChosenIsWithinCaps(f: Folder, ps: seq<Path>)
    requires Distinct(ps)
    ensures var cs := Chosen(f, ps);
            && Distinct(cs) && |cs| <= MAX_FILES
            && forall i :: 0 <= i < |cs| ==> cs[i] in ps && |DataAt(f, cs[i])| <= MAX_FILE_BYTES
  {
    hide DataAt;
    if ps != [] {
      var n := |ps| - 1;
      ChosenIsWithinCaps(f, ps[..n]);
      assert ps[n] !in ps[..n];
      assert ps[n] !in Chosen(f, ps[..n]);
    }
  }

  /** Nothing is left out of a folder within the caps. */
  lemma {:induction false} WithinCapsAllAreChosen(f: Folder, ps: seq<Path>)
    requires |ps| <= MAX_FILES && forall i :: 0 <= i < |ps| ==> |DataAt(f, ps[i])| <= MAX_FILE_BYTES
    ensures Chosen(f, ps) == ps
  {
    hide DataAt;
    if ps != [] {
      WithinCapsAllAreChosen(f, ps[..|ps| - 1]);
      assert ps[..|ps| - 1] + [ps[|ps| - 1]] == ps;
    }
  }

  lemma {:induction false} CountConcat(a: seq<Entry>, b: seq<Entry>)
    ensures CountOf(a + b) == CountOf(a) + CountOf(b) && SizeOf(a + b) == SizeOf(a) + SizeOf(b)
  {
    hide Counted;
    if b == [] {
      assert a + b == a;
    } else {
      assert (a + b)[..|a + b| - 1] == a + b[..|b| - 1];
      CountConcat(a, b[..|b| - 1]);
    }
  }

  lemma {:induction false} OwnAreCounted(slug: string, f: Folder, ps: seq<Path>)
    ensures var es := EntriesOf(ProjectPrefix(slug), f, ps); CountOf(es) == |ps| && SizeOf(es) == Total(f, ps)
  {
    hide DataAt, Join;
    if ps != [] {
      var n := |ps| - 1;
      OwnAreCounted(slug, f, ps[..n]);
      var before := EntriesOf(ProjectPrefix(slug), f, ps[..n]);
      var e := BundleEntry(ProjectPrefix(slug), f, ps[n]);
      assert (before + [e])[..|before|] == before;
      assert e.name == "projects/" + (slug + "/" + Join(ps[n]));
      assert Counted(e);
    }
  }

  lemma {:induction false} ArchiveIsCounted(projects: seq<Project>)
    ensures CountOf(Archive(projects)) == FilesIn(projects) && SizeOf(Archive(projects)) == BytesIn(projects)
  {
    hide Own, Counted, ChosenOf;
    if projects == [] {
      ManifestIsNobodys("");
      assert [Manifest()][..0] == [];
    } else {
      var n := |projects| - 1;
      ArchiveIsCounted(projects[..n]);
      CountConcat(Archive(projects[..n]), Own(projects[n]));
      OwnIsCounted(projects[n]);
    }
  }

  lemma OwnIsCounted(pr: Project)
    ensures CountOf(Own(pr)) == |ChosenOf(pr)| && SizeOf(Own(pr)) == Total(pr.folder, ChosenOf(pr))
  {
    OwnAreCounted(pr.slug, pr.folder, ChosenOf(pr));
  }

  function SlugsOf(projects: seq<Project>): seq<string> {
    if projects == [] then [] else SlugsOf(projects[..|projects| - 1]) + [projects[|projects| - 1].slug]
  }

  predicate AllBack(results: seq<Option<Folder>>) {
    forall k :: 0 <= k < |results| ==> results[k].Some?
  }

  /** What the export packed of a project: its chosen files and the folders above them. */
  function PackedTree(pr: Project): Folder {
    Kept(pr.folder, Upto(ChosenOf(pr)))
  }

  /** Room for the k-th project once those before it have come back. */
  ghost predicate RoomFor(projects: seq<Project>, k: nat)
    requires k < |projects|
  {
    Room(projects[k].folder, ChosenOf(projects[k]), MAX_BYTES - BytesIn(projects[..k]),
      MAX_BUNDLE_FILES - FilesIn(projects[..k]))
  }

  ghost predicate AllExportable(projects: seq<Project>) {
    Slugs(projects) && forall k :: 0 <= k < |projects| ==> Exportable(projects[k])
  }

  /** No packed path of the project begins or ends with white space. */
  ghost predicate NamesKept(pr: Project) {
    forall p :: p in ChosenOf(pr) ==> KeepsName(p)
  }

  ghost predicate AllNamesKept(projects: seq<Project>) {
    forall k :: 0 <= k < |projects| ==> NamesKept(projects[k])
  }

  lemma {:induction false} BytesFit(projects: seq<Project>, k: nat)
    requires k <= |projects| && !Exported(projects).tooLarge
    ensures BytesIn(projects[..k]) <= MAX_BYTES
  {
    if Exported(projects[..k]).tooLarge { ExportStopped(projects, k); }
    ExportedIsArchive(projects[..k]);
  }

  lemma SlugsOfPrefix(projects: seq<Project>, j: nat)
    requires 0 < j <= |projects|
    ensures SlugsOf(projects[..j]) == SlugsOf(projects[..j - 1]) + [projects[j - 1].slug]
    ensures BytesIn(projects[..j])
            == BytesIn(projects[..j - 1]) + Total(projects[j - 1].folder, ChosenOf(projects[j - 1]))
    ensures FilesIn(projects[..j]) == FilesIn(projects[..j - 1]) + |ChosenOf(projects[j - 1])|
  {
    assert projects[..j][..j - 1] == projects[..j - 1];
  }

  lemma ExportableIsGood(pr: Project)
    requires Exportable(pr) && NamesKept(pr)
    ensures Good(pr.folder, ChosenOf(pr))
  {
    hide KeepsName, Tree, Files, AllNormal, Chosen;
    ChosenIsWithinCaps(pr.folder, pr.walk);
    var cs := ChosenOf(pr);
    forall i | 0 <= i < |cs| ensures cs[i] in Files(pr.folder) && Plain(cs[i]) {
      assert cs[i] in pr.walk && cs[i] in cs;
      FilesAreLeaves(pr.folder, cs[i]);
      PlainIs(cs[i]);
    }
  }

  lemma AllBackMore(results: seq<Option<Folder>>, r: Option<Folder>)
    ensures AllBack(results + [r]) <==> AllBack(results) && r.Some?
  {
    assert forall k :: 0 <= k < |results| ==> (results + [r])[k] == results[k];
    assert (results + [r])[|results|] == r;
  }

  /** The import after its first `j` projects. */
  ghost predicate BackSoFar(projects: seq<Project>, j: nat, st: Import)
    requires j <= |projects|
  {
    && |st.results| == j
    && (AllBack(st.results) <==> forall k :: 0 <= k < j ==> RoomFor(projects, k))
    && (AllBack(st.results) ==>
          && !st.stopped && st.bytes == MAX_BYTES - BytesIn(projects[..j])
          && st.files == MAX_BUNDLE_FILES - FilesIn(projects[..j])
          && forall k :: 0 <= k < j ==> st.results[k] == Some(PackedTree(projects[k])))
  }

  /** One project more, once all before it have come back. */
  lemma NextProjectComesBack(projects: seq<Project>, k: nat, existing: set<string>, st: Import)
    requires k < |projects| && AllExportable(projects) && AllNamesKept(projects) && !Exported(projects).tooLarge
             && projects[k].slug !in existing
    requires !st.stopped && st.bytes == MAX_BYTES - BytesIn(projects[..k])
             && st.files == MAX_BUNDLE_FILES - FilesIn(projects[..k])
    ensures var st' := ImportOne(projects[k].slug, Archive(projects), existing, st);
            var r := if RoomFor(projects, k) then Some(PackedTree(projects[k])) else None;
            && st'.results == st.results + [r]
            && (r.Some? ==> && !st'.stopped && st'.bytes == MAX_BYTES - BytesIn(projects[..k + 1])
                            && st'.files == MAX_BUNDLE_FILES - FilesIn(projects[..k + 1]))
  {
    hide Exportable, NamesKept, Slugs, Own, Unpacked, ProjectPrefix, Room, ChosenOf, Archive, BytesIn, FilesIn, Good;
    hide PackedTree, Exported;
    var pr := projects[k];
    var start := Fresh(st.bytes, st.files, st.taken);
    UnpackPicksOwn(projects, k, start);
    SlugsOfPrefix(projects, k + 1);
    BytesFit(projects, k + 1);
    ExportableIsGood(pr);
    OwnUnpacks(pr, start);
  }

  lemma ImportOneMore(projects: seq<Project>, j: nat, existing: set<string>, st: Import)
    requires 0 < j <= |projects| && AllExportable(projects) && AllNamesKept(projects) && !Exported(projects).tooLarge
    requires projects[j - 1].slug !in existing && BackSoFar(projects, j - 1, st)
    ensures BackSoFar(projects, j, ImportOne(projects[j - 1].slug, Archive(projects), existing, st))
  {
    hide AllExportable, AllNamesKept, AllBack, Archive, BytesIn, FilesIn, RoomFor, PackedTree, Exported, Unpacked;
    hide ProjectPrefix;
    var slug := projects[j - 1].slug;
    if AllBack(st.results) {
      NextProjectComesBack(projects, j - 1, existing, st);
      AllBackMore(st.results, if RoomFor(projects, j - 1) then Some(PackedTree(projects[j - 1])) else None);
    } else {
      var st' := ImportOne(slug, Archive(projects), existing, st);
      assert st'.results == st.results + [st'.results[j - 1]];
      AllBackMore(st.results, st'.results[j - 1]);
    }
  }

  lemma OwnUnpacks(pr: Project, st: Unpack)
    requires Good(pr.folder, ChosenOf(pr)) && st == Fresh(st.bytes, st.files, st.taken)
             && Total(pr.folder, ChosenOf(pr)) <= st.bytes
    ensures var u := Unpacked(ProjectPrefix(pr.slug), Own(pr), st);
            && (u.err.None? <==> Room(pr.folder, ChosenOf(pr), st.bytes, st.files))
            && (u.err.None? ==> u.folder == PackedTree(pr) && u.bytes == st.bytes - Total(pr.folder, ChosenOf(pr))
                                && u.files == st.files - |ChosenOf(pr)|)
  {
    hide ProjectPrefix, Good, Room, Kept, Upto, Chosen;
    OwnEntriesUnpack(ProjectPrefix(pr.slug), pr.folder, ChosenOf(pr), st);
  }

  lemma {:induction false} ImportSoFar(projects: seq<Project>, j: nat, existing: set<string>)
    requires j <= |projects| && AllExportable(projects) && AllNamesKept(projects) && !Exported(projects).tooLarge
    requires forall k :: 0 <= k < |projects| ==> projects[k].slug !in existing
    ensures BackSoFar(projects, j, Imported(SlugsOf(projects[..j]), Archive(projects), existing))
  {
    hide AllExportable, AllNamesKept, BackSoFar, ImportOne;
    if j == 0 {
      NothingBackYet(projects);
    } else {
      ImportSoFar(projects, j - 1, existing);
      SlugsOfPrefix(projects, j);
      var slugs := SlugsOf(projects[..j]);
      assert slugs[..|slugs| - 1] == SlugsOf(projects[..j - 1]);
      ImportOneMore(projects, j, existing, Imported(SlugsOf(projects[..j - 1]), Archive(projects), existing));
    }
  }

  lemma NothingBackYet(projects: seq<Project>)
    ensures BackSoFar(projects, 0, Import(MAX_BYTES, MAX_BUNDLE_FILES, [], [], false))
  {
  }

  /** No file of the k-th project follows the point where the export had used up its last
      byte. */
  ghost predicate ClearOfFull(projects: seq<Project>, k: nat)
    requires k < |projects|
  {
    forall i :: 0 <= i < |ChosenOf(projects[k])| ==>
      BytesIn(projects[..k]) + Total(projects[k].folder, ChosenOf(projects[k])[..i]) < MAX_BYTES
  }

  ghost predicate NothingAfterFull(projects: seq<Project>) {
    forall k :: 0 <= k < |projects| ==> ClearOfFull(projects, k)
  }

  lemma {:induction false} FilesGrow(projects: seq<Project>, j: nat, k: nat)
    requires j <= k <= |projects|
    ensures FilesIn(projects[..j]) <= FilesIn(projects[..k]) && BytesIn(projects[..j]) <= BytesIn(projects[..k])
  {
    if j < k {
      SlugsOfPrefix(projects, k);
      FilesGrow(projects, j, k - 1);
    }
  }

  lemma RoomIffClear(projects: seq<Project>, k: nat)
    requires k < |projects| && FilesIn(projects) <= MAX_BUNDLE_FILES
    ensures RoomFor(projects, k) <==> ClearOfFull(projects, k)
  {
    hide ChosenOf, Total, BytesIn, FilesIn;
    assert projects[..|projects|] == projects;
    SlugsOfPrefix(projects, k + 1);
    FilesGrow(projects, k + 1, |projects|);
  }

  lemma RoomIffNothingAfterFull(projects: seq<Project>)
    requires FilesIn(projects) <= MAX_BUNDLE_FILES
    ensures (forall k :: 0 <= k < |projects| ==> RoomFor(projects, k)) <==> NothingAfterFull(projects)
  {
    hide RoomFor, ClearOfFull;
    forall k | 0 <= k < |projects| ensures RoomFor(projects, k) <==> ClearOfFull(projects, k) {
      RoomIffClear(projects, k);
    }
  }

  /** A bundle the export wrote, with names the trimming leaves alone, is taken back whole,
      every project with exactly the files that were packed, if and only if it carries at
      most 20000 files and no file follows the one that used up the last byte of the
      gigabyte. */
  lemma KeptNamesReimportIff(projects: seq<Project>, existing: set<string>)
    requires AllExportable(projects) && AllNamesKept(projects) && !Exported(projects).tooLarge
    requires forall k :: 0 <= k < |projects| ==> projects[k].slug !in existing
    ensures var entries := Exported(projects).entries;
            var st := Imported(SlugsOf(projects), entries, existing);
            && (CountOf(entries) <= MAX_BUNDLE_FILES && SizeOf(entries) <= MAX_BYTES && AllBack(st.results)
                <==> FilesIn(projects) <= MAX_BUNDLE_FILES && NothingAfterFull(projects))
            && (AllBack(st.results) ==>
                  && |st.results| == |projects|
                  && forall k :: 0 <= k < |projects| ==> st.results[k] == Some(PackedTree(projects[k])))
  {
    hide AllExportable, AllNamesKept, Imported, AllBack, NothingAfterFull, Archive, CountOf, SizeOf, RoomFor;
    hide PackedTree;
    assert projects[..|projects|] == projects;
    ExportedIsArchive(projects);
    ArchiveIsCounted(projects);
    ImportSoFar(projects, |projects|, existing);
    if FilesIn(projects) <= MAX_BUNDLE_FILES { RoomIffNothingAfterFull(projects); }
  }

  lemma {:induction false} TotalGrows(f: Folder, ps: seq<Path>, i: nat)
    requires i <= |ps|
    ensures Total(f, ps[..i]) <= Total(f, ps)
  {
    if i == |ps| {
      assert ps[..i] == ps;
    } else {
      assert ps[..|ps| - 1][..i] == ps[..i];
      TotalGrows(f, ps[..|ps| - 1], i);
    }
  }

  /** In particular every export under the gigabyte with at most 20000 files. */
  lemma UnderTheLimitNothingIsLost(projects: seq<Project>)
    requires BytesIn(projects) < MAX_BYTES
    ensures NothingAfterFull(projects)
  {
    hide ChosenOf, BytesIn;
    assert projects[..|projects|] == projects;
    forall k | 0 <= k < |projects| ensures ClearOfFull(projects, k) {
      SlugsOfPrefix(projects, k + 1);
      FilesGrow(projects, k + 1, |projects|);
      forall i | 0 <= i < |ChosenOf(projects[k])|
        ensures Total(projects[k].folder, ChosenOf(projects[k])[..i])
                <= Total(projects[k].folder, ChosenOf(projects[k]))
      {
        TotalGrows(projects[k].folder, ChosenOf(projects[k]), i);
      }
    }
  }

  /** And a project within the caps comes back as it was, up to folders without files. */
  lemma WithinCapsComesBackWhole(pr: Project)
    requires Exportable(pr) && |pr.walk| <= MAX_FILES
    requires forall i :: 0 <= i < |pr.walk| ==> |DataAt(pr.folder, pr.walk[i])| <= MAX_FILE_BYTES
    ensures PackedTree(pr) == Pruned(pr.folder)
    ensures forall p :: FileAt(PackedTree(pr), p) == FileAt(pr.folder, p)
  {
    WithinCapsAllAreChosen(pr.folder, pr.walk);
    assert Upto(pr.walk) == Files(pr.folder);
    KeptIsTree(pr.folder, Files(pr.folder));
  }
}
