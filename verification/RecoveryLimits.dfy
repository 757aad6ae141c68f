/** Exactly which exported bundles the import takes back, whatever the names, and exports
    that are refused or come back incomplete. */
module RecoveryLimits {
  import opened Options
  import opened PathJail
  import opened ProjectFolder
  import opened Snapshots
  import opened SnapshotLimits
  import opened Recovery
  import opened RecoveryRoundTrip

  // ----- where the files of an imported project come from -----

  predicate EntryLandsOn(e: Entry, prefix: string, p: Path) {
    CutPrefix(e.name, prefix).Some? && LandsOn(CutPrefix(e.name, prefix).value, p)
  }

  /** Every file of an unpacked project has an entry under the prefix that leads to it. */
  lemma {:induction false} UnpackedFilesComeFromEntries(prefix: string, entries: seq<Entry>, st: Unpack, q: Path)
    requires st.folder == map[] && FileAt(Unpacked(prefix, entries, st).folder, q).Some?
    ensures exists i :: 0 <= i < |entries| && EntryLandsOn(entries[i], prefix, q)
  {
    hide Tree, WriteFile, ThroughFile, CutPrefix, Lexical, Stack, TrimSpace;
    if entries != [] {
      var n := |entries| - 1;
      var before := Unpacked(prefix, entries[..n], st);
      var rel := CutPrefix(entries[n].name, prefix);
      if rel.Some? {
        var p := Resolve(Some(before.folder), rel.value);
        if p.Some? { WriteKeeps(before.folder, p.value, entries[n].got, entries[n].io); }
      }
      if FileAt(before.folder, q).Some? {
        UnpackedFilesComeFromEntries(prefix, entries[..n], st, q);
        var i :| 0 <= i < n && EntryLandsOn(entries[..n][i], prefix, q);
        assert EntryLandsOn(entries[i], prefix, q);
      } else {
        assert EntryLandsOn(entries[n], prefix, q);
      }
    }
  }

  lemma {:induction false} OwnEntriesAre(prefix: string, f: Folder, ps: seq<Path>)
    ensures |EntriesOf(prefix, f, ps)| == |ps|
    ensures forall i :: 0 <= i < |ps| ==> EntriesOf(prefix, f, ps)[i] == BundleEntry(prefix, f, ps[i])
  {
    if ps != [] { OwnEntriesAre(prefix, f, ps[..|ps| - 1]); }
  }

  /** A project with a trimmed name among its packed files does not come back as packed. */
  lemma TrimmedProjectIsLost(pr: Project, st: Unpack)
    requires Exportable(pr) && !NamesKept(pr) && st.folder == map[]
    ensures Unpacked(ProjectPrefix(pr.slug), Own(pr), st).folder != PackedTree(pr)
  {
    hide Tree, KeepsName, AllNormal, Unpacked, Kept, Chosen, LandsOn, EntriesOf;
    var f, cs, prefix := pr.folder, ChosenOf(pr), ProjectPrefix(pr.slug);
    ChosenIsWithinCaps(f, pr.walk);
    forall p | p in cs ensures p in Files(f) && AllNormal(p) && p != [] {
      var i :| 0 <= i < |cs| && cs[i] == p;
      assert p in pr.walk;
      FilesAreLeaves(f, p);
    }
    var p := LongestTrimmed(cs);
    KeptIsTree(f, Upto(cs));
    assert FileAt(PackedTree(pr), p).Some?;
    if FileAt(Unpacked(prefix, Own(pr), st).folder, p).Some? {
      OwnEntriesAre(prefix, f, cs);
      UnpackedFilesComeFromEntries(prefix, Own(pr), st, p);
      var i :| 0 <= i < |cs| && EntryLandsOn(Own(pr)[i], prefix, p);
      OwnPrefix(prefix, Join(cs[i]));
      var q := cs[i];
      assert q in cs;
      if KeepsName(q) {
        KeptNameLandsOnItself(q);
        LandsOnOne(Join(q), p, q);
      } else {
        TrimmedLandsShorter(q, p);
      }
      assert false;
    }
  }

  lemma LandsOnOne(name: string, p: Path, q: Path)
    requires LandsOn(name, p) && LandsOn(name, q)
    ensures p == q
  {
  }

  /** What came back for a project was unpacked from the archive into an empty folder. */
  lemma {:induction false} ResultWasUnpacked(slugs: seq<string>, entries: seq<Entry>, existing: set<string>, k: nat)
    returns (st: Unpack)
    requires k < |slugs| && |Imported(slugs, entries, existing).results| == |slugs|
    requires Imported(slugs, entries, existing).results[k].Some?
    ensures st.folder == map[]
    ensures Imported(slugs, entries, existing).results[k].value == Unpacked(ProjectPrefix(slugs[k]), entries, st).folder
  {
    hide Unpacked, ProjectPrefix;
    var n := |slugs| - 1;
    ImportConserves(slugs[..n], entries, existing);
    var before := Imported(slugs[..n], entries, existing);
    if k < n {
      st := ResultWasUnpacked(slugs[..n], entries, existing, k);
    } else {
      st := Fresh(before.bytes, before.files, before.taken);
    }
  }

  lemma {:induction false} SlugsOfAt(projects: seq<Project>)
    ensures |SlugsOf(projects)| == |projects|
            && forall k :: 0 <= k < |projects| ==> SlugsOf(projects)[k] == projects[k].slug
  {
    if projects != [] { SlugsOfAt(projects[..|projects| - 1]); }
  }

  /** Every project came back as it was packed. */
  ghost predicate AsPacked(projects: seq<Project>, results: seq<Option<Folder>>) {
    |results| == |projects| && forall k :: 0 <= k < |projects| ==> results[k] == Some(PackedTree(projects[k]))
  }

  /** Projects can only come back as packed if no packed name was trimmed. */
  lemma AsPackedKeepsNames(projects: seq<Project>, existing: set<string>)
    requires AllExportable(projects)
             && AsPacked(projects, Imported(SlugsOf(projects), Archive(projects), existing).results)
    ensures AllNamesKept(projects)
  {
    hide Unpacked, ProjectPrefix, Own, Archive, PackedTree, NamesKept, Imported, Exportable, Slugs;
    SlugsOfAt(projects);
    forall k | 0 <= k < |projects| ensures NamesKept(projects[k]) {
      var st := ResultWasUnpacked(SlugsOf(projects), Archive(projects), existing, k);
      UnpackPicksOwn(projects, k, st);
      if !NamesKept(projects[k]) { TrimmedProjectIsLost(projects[k], st); }
    }
  }

  /** A bundle the export wrote passes validation and comes back as packed, every project
      with exactly its packed files, if and only if it carries at most 20000 files, no file
      follows the one that used up the last byte of the gigabyte, and no packed path begins
      or ends with white space. */
  lemma ExportReimportsIff(projects: seq<Project>, existing: set<string>)
    requires AllExportable(projects) && !Exported(projects).tooLarge
    requires forall k :: 0 <= k < |projects| ==> projects[k].slug !in existing
    ensures var entries := Exported(projects).entries;
            && CountOf(entries) <= MAX_BUNDLE_FILES && SizeOf(entries) <= MAX_BYTES
            && AsPacked(projects, Imported(SlugsOf(projects), entries, existing).results)
            <==> FilesIn(projects) <= MAX_BUNDLE_FILES && NothingAfterFull(projects) && AllNamesKept(projects)
  {
    hide AllExportable, Imported, NothingAfterFull, Archive, CountOf, SizeOf, PackedTree, AllNamesKept, AsPacked;
    hide SlugsOf, Exported;
    ExportedIsArchive(projects);
    var st := Imported(SlugsOf(projects), Archive(projects), existing);
    if AsPacked(projects, st.results) { AsPackedKeepsNames(projects, existing); }
    if AllNamesKept(projects) {
      KeptNamesReimportIff(projects, existing);
      AsPackedIsBack(projects, st.results);
    }
  }

  lemma AsPackedIsBack(projects: seq<Project>, results: seq<Option<Folder>>)
    ensures AsPacked(projects, results) ==> AllBack(results)
    ensures |results| == |projects|
            && (forall k :: 0 <= k < |projects| ==> results[k] == Some(PackedTree(projects[k]))) ==>
              AsPacked(projects, results)
  {
  }

  // ----- exactly which exports are refused -----

  lemma {:induction false} PackedFits(f: Folder, prefix: string, ps: seq<Path>, left: int)
    requires Total(f, Chosen(f, ps)) <= left
    ensures !Packed(f, prefix, ps, left).tooLarge
  {
    hide BundleEntry, DataAt;
    if ps != [] {
      var n := |ps| - 1;
      var before := Chosen(f, ps[..n]);
      assert (before + [ps[n]])[..|before|] == before;
      PackedFits(f, prefix, ps[..n], left);
      PackedIsChosen(f, prefix, ps[..n], left);
    }
  }

  /** The export is refused exactly when the files the caps let through come to more than
      the gigabyte. */
  lemma {:induction false} ExportRefusedIffTooLarge(projects: seq<Project>)
    ensures Exported(projects).tooLarge <==> BytesIn(projects) > MAX_BYTES
  {
    hide ProjectPrefix, Packed, Chosen;
    if !Exported(projects).tooLarge {
      ExportedIsArchive(projects);
    } else if projects != [] {
      var n := |projects| - 1;
      var pr := projects[n];
      ExportRefusedIffTooLarge(projects[..n]);
      if !Exported(projects[..n]).tooLarge && BytesIn(projects) <= MAX_BYTES {
        ExportedIsArchive(projects[..n]);
        PackedFits(pr.folder, ProjectPrefix(pr.slug), pr.walk, Exported(projects[..n]).left);
      }
    }
  }

  // ----- exports that do not come back -----

  function Letters(n: nat, c: char): (s: string)
    ensures |s| == n && forall i :: 0 <= i < n ==> s[i] == c
  {
    seq(n, _ => c)
  }

  /** The names "a", "aa" and so on, m of them. */
  predicate Nth(p: Path, m: nat) {
    |p| == 1 && 1 <= |p[0]| <= m && p[0] == Letters(|p[0]|, 'a')
  }

  /** m files of the same content under these names. */
  function Stored(m: nat, data: Bytes): Folder {
    if m == 0 then map[] else Stored(m - 1, data)[[Letters(m, 'a')] := File(data)]
  }

  function Listed(m: nat): seq<Path> {
    if m == 0 then [] else Listed(m - 1) + [[Letters(m, 'a')]]
  }

  lemma NthMore(p: Path, m: nat)
    requires m > 0
    ensures Nth(p, m) <==> Nth(p, m - 1) || p == [Letters(m, 'a')]
  {
    if Nth(p, m) && |p[0]| == m { assert p == [p[0]]; }
  }

  lemma {:induction false} StoredHolds(m: nat, data: Bytes)
    ensures forall p :: p in Stored(m, data) <==> Nth(p, m)
    ensures forall p :: p in Stored(m, data) ==> Stored(m, data)[p] == File(data)
  {
    hide Nth;
    if m > 0 {
      StoredHolds(m - 1, data);
      forall p ensures p in Stored(m, data) <==> Nth(p, m) { NthMore(p, m); }
    } else {
      forall p ensures !Nth(p, 0) { NoneIsNth(p); }
    }
  }

  lemma NoneIsNth(p: Path)
    ensures !Nth(p, 0)
  {
  }

  lemma {:induction false} ListedHolds(m: nat)
    ensures |Listed(m)| == m && Distinct(Listed(m)) && forall p :: p in Listed(m) <==> Nth(p, m)
  {
    hide Nth;
    if m > 0 {
      ListedHolds(m - 1);
      forall p ensures p in Listed(m) <==> Nth(p, m) { NthMore(p, m); }
      LongerIsNotNth(m);
    } else {
      forall p ensures !Nth(p, 0) { NoneIsNth(p); }
    }
  }

  lemma LongerIsNotNth(m: nat)
    requires m > 0
    ensures !Nth([Letters(m, 'a')], m - 1)
  {
  }

  lemma LetterNames(n: nat)
    requires n > 0
    ensures AllNormal([Letters(n, 'a')]) && KeepsName([Letters(n, 'a')])
  {
    var s := Letters(n, 'a');
    assert s[0] == 'a' && s[n - 1] == 'a';
    assert Join([s]) == s;
    assert !IsSpace('a');
    assert TrimLeft(s) == s && TrimRight(s) == s;
  }

  function Uniform(k: nat, m: nat, data: Bytes): Project {
    Project(Letters(k + 1, 'b'), Stored(m, data), Listed(m))
  }

  lemma UniformFolder(m: nat, data: Bytes)
    ensures Tree(Stored(m, data)) && Walks(Listed(m), Stored(m, data))
    ensures forall p :: p in Listed(m) ==> AllNormal(p) && KeepsName(p) && DataAt(Stored(m, data), p) == data
  {
    hide KeepsName, AllNormal, Stored, Listed;
    StoredHolds(m, data);
    ListedHolds(m);
    forall p | p in Listed(m) ensures AllNormal(p) && KeepsName(p) {
      LetterNames(|p[0]|);
      assert p == [p[0]];
    }
  }

  lemma UniformIsExportable(k: nat, m: nat, data: Bytes)
    requires m <= MAX_FILES && |data| <= MAX_FILE_BYTES
    ensures Exportable(Uniform(k, m, data)) && NamesKept(Uniform(k, m, data))
    ensures ChosenOf(Uniform(k, m, data)) == Listed(m) && |Listed(m)| == m
    ensures forall i :: 0 <= i <= m ==> Total(Stored(m, data), Listed(m)[..i]) == i * |data|
  {
    hide KeepsName, AllNormal, Stored, Listed, Tree, Walks, Chosen, Total;
    var f, ps := Stored(m, data), Listed(m);
    ListedHolds(m);
    UniformFolder(m, data);
    WithinCapsAllAreChosen(f, ps);
    forall i | 0 <= i <= m ensures Total(f, ps[..i]) == i * |data| { UniformTotal(f, ps, i, data); }
  }

  lemma {:induction false} UniformTotal(f: Folder, ps: seq<Path>, i: nat, data: Bytes)
    requires i <= |ps| && forall p :: p in ps ==> DataAt(f, p) == data
    ensures Total(f, ps[..i]) == i * |data|
  {
    if i > 0 {
      UniformTotal(f, ps, i - 1, data);
      assert ps[..i][..i - 1] == ps[..i - 1];
    }
  }

  /** n projects of m files each. */
  function Bulk(n: nat, m: nat, data: Bytes): seq<Project> {
    if n == 0 then [] else Bulk(n - 1, m, data) + [Uniform(n - 1, m, data)]
  }

  lemma {:induction false} BulkShape(n: nat, m: nat, data: Bytes)
    ensures |Bulk(n, m, data)| == n && forall k :: 0 <= k < n ==> Bulk(n, m, data)[k] == Uniform(k, m, data)
  {
    hide Uniform;
    if n > 0 { BulkShape(n - 1, m, data); }
  }

  lemma Times(n: nat, w: int)
    requires n > 0
    ensures n * w == (n - 1) * w + w
  {
  }

  lemma {:induction false} BulkIs(n: nat, m: nat, data: Bytes)
    requires m <= MAX_FILES && |data| <= MAX_FILE_BYTES
    ensures FilesIn(Bulk(n, m, data)) == n * m && BytesIn(Bulk(n, m, data)) == n * (m * |data|)
  {
    hide Uniform, ChosenOf, FilesIn, BytesIn;
    if n == 0 {
      NothingIn();
    } else {
      BulkIs(n - 1, m, data);
      OneMore(Bulk(n - 1, m, data), Uniform(n - 1, m, data));
      UniformWeighs(n - 1, m, data);
      Times(n, m);
      Times(n, m * |data|);
    }
  }

  lemma NothingIn()
    ensures FilesIn([]) == 0 && BytesIn([]) == 0
  {
  }

  lemma UniformWeighs(k: nat, m: nat, data: Bytes)
    requires m <= MAX_FILES && |data| <= MAX_FILE_BYTES
    ensures var pr := Uniform(k, m, data); |ChosenOf(pr)| == m && Total(pr.folder, ChosenOf(pr)) == m * |data|
  {
    UniformIsExportable(k, m, data);
    assert Listed(m)[..m] == Listed(m);
  }

  lemma OneMore(projects: seq<Project>, pr: Project)
    ensures FilesIn(projects + [pr]) == FilesIn(projects) + |ChosenOf(pr)|
    ensures BytesIn(projects + [pr]) == BytesIn(projects) + Total(pr.folder, ChosenOf(pr))
  {
    assert (projects + [pr])[..|projects|] == projects;
  }

  ghost predicate IsUniform(pr: Project, k: nat) {
    exists m: nat, data: Bytes :: m <= MAX_FILES && |data| <= MAX_FILE_BYTES && pr == Uniform(k, m, data)
  }

  ghost predicate AllUniform(projects: seq<Project>) {
    forall k :: 0 <= k < |projects| ==> IsUniform(projects[k], k)
  }

  lemma UniformProjectsExport(projects: seq<Project>)
    requires AllUniform(projects)
    ensures AllExportable(projects) && AllNamesKept(projects)
  {
    hide Exportable, NamesKept, Chosen;
    forall k | 0 <= k < |projects|
      ensures Exportable(projects[k]) && NamesKept(projects[k]) && |projects[k].slug| == k + 1
                                           && '/' !in projects[k].slug
    {
      var m: nat, data: Bytes :| m <= MAX_FILES && |data| <= MAX_FILE_BYTES && projects[k] == Uniform(k, m, data);
      UniformIsExportable(k, m, data);
    }
  }

  /** 201 projects of a hundred empty files are exported; the import refuses the bundle. */
  lemma TooManyFilesAreExported() returns (projects: seq<Project>)
    ensures AllExportable(projects) && AllNamesKept(projects) && !Exported(projects).tooLarge && |projects| == 201
    ensures CountOf(Exported(projects).entries) > MAX_BUNDLE_FILES
  {
    hide Exported, CountOf, Archive, AllExportable, AllNamesKept, AllUniform, Uniform, Bulk, BytesIn, FilesIn;
    projects := Bulk(201, 100, []);
    BulkIs(201, 100, []);
    BulkShape(201, 100, []);
    BulkIsUniform(201, 100, []);
    UniformProjectsExport(projects);
    ExportRefusedIffTooLarge(projects);
    ExportedIsArchive(projects);
    ArchiveIsCounted(projects);
  }

  /** A file of the largest size. */
  function Largest(): (data: Bytes)
    ensures |data| == MAX_FILE_BYTES
  {
    seq(MAX_FILE_BYTES, _ => 0)
  }

  /** 1024 files of a megabyte use up the gigabyte; the empty one after them is exported and
      validated like the rest, and then does not come back. */
  lemma EmptyFileAfterFullIsLost() returns (projects: seq<Project>)
    ensures AllExportable(projects) && AllNamesKept(projects) && !Exported(projects).tooLarge && |projects| == 12
    ensures BytesIn(projects) == MAX_BYTES && FilesIn(projects) == 1025
    ensures CountOf(Exported(projects).entries) <= MAX_BUNDLE_FILES && SizeOf(Exported(projects).entries) <= MAX_BYTES
    ensures !AsPacked(projects, Imported(SlugsOf(projects), Exported(projects).entries, {}).results)
  {
    hide Exported, CountOf, SizeOf, Archive, AllExportable, AllNamesKept, Uniform, Largest, AsPacked, Imported, SlugsOf,
         Bulk, AllUniform, BytesIn, FilesIn, ChosenOf, Total, ClearOfFull;
    var data := Largest();
    var ten := Bulk(10, 100, data);
    var full := ten + [Uniform(10, 24, data)];
    projects := full + [Uniform(11, 1, [])];
    BulkIs(10, 100, data);
    BulkShape(10, 100, data);
    UniformWeighs(10, 24, data);
    UniformWeighs(11, 1, []);
    OneMore(ten, Uniform(10, 24, data));
    OneMore(full, Uniform(11, 1, []));
    BulkIsUniform(10, 100, data);
    UniformMore(ten, 24, data);
    UniformMore(full, 1, []);
    UniformProjectsExport(projects);
    ExportRefusedIffTooLarge(projects);
    ExportedIsArchive(projects);
    ArchiveIsCounted(projects);
    NothingFitsAfterFull(full, Uniform(11, 1, []));
    ExportReimportsIff(projects, {});
  }

  lemma BulkIsUniform(n: nat, m: nat, data: Bytes)
    requires m <= MAX_FILES && |data| <= MAX_FILE_BYTES
    ensures AllUniform(Bulk(n, m, data)) && |Bulk(n, m, data)| == n
  {
    hide Uniform, Bulk;
    BulkShape(n, m, data);
    forall k | 0 <= k < n ensures IsUniform(Bulk(n, m, data)[k], k) { UniformIs(k, m, data); }
  }

  lemma UniformIs(k: nat, m: nat, data: Bytes)
    requires m <= MAX_FILES && |data| <= MAX_FILE_BYTES
    ensures IsUniform(Uniform(k, m, data), k)
  {
  }

  lemma UniformMore(projects: seq<Project>, m: nat, data: Bytes)
    requires AllUniform(projects) && m <= MAX_FILES && |data| <= MAX_FILE_BYTES
    ensures AllUniform(projects + [Uniform(|projects|, m, data)])
  {
    hide Uniform, IsUniform;
    UniformIs(|projects|, m, data);
  }

  /** A project with a file does not fit after projects that use up the gigabyte. */
  lemma NothingFitsAfterFull(full: seq<Project>, pr: Project)
    requires BytesIn(full) == MAX_BYTES && |ChosenOf(pr)| > 0
    ensures !NothingAfterFull(full + [pr])
  {
    hide BytesIn, ChosenOf;
    var projects, n := full + [pr], |full|;
    assert projects[..n] == full && projects[n] == pr;
    assert ChosenOf(pr)[..0] == [];
    assert Total(pr.folder, ChosenOf(pr)[..0]) == 0;
    assert !ClearOfFull(projects, n);
  }
}
