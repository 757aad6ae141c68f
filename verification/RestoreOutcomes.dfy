/** Exactly when a restore succeeds, and exactly what it then leaves in the folder:
    handleRestoreRevision of internal/api/project_revisions_handlers.go, with the leftovers
    of earlier attempts it tries to clear first. */
module RestoreOutcomes {
  import opened Options
  import opened PathJail
  import opened ProjectFolder
  import opened Snapshots
  import opened SnapshotLimits
  import opened SnapshotFaults
  import opened ProjectSteps
  import opened RestoreSafety

  // ----- exactly when a restore is done -----

  /** The swap and the deploy after it. */
  predicate SwapSucceeds(plan: Plan, staged: bool, root: Option<Folder>, backup: Option<Folder>) {
    && plan.swapInOk && staged && plan.upOk
    && if root.Some? && plan.statOk then plan.swapOutOk && Free(backup) else Free(root)
  }

  predicate SeedSucceeds(plan: Plan) {
    plan.seed.Some? ==> plan.seed.value.snapshotOk && plan.seed.value.fails.None?
  }

  /** The digest pin, the policy gate and the seed. */
  predicate GateSucceeds(plan: Plan) {
    (plan.pin.NoPin? || plan.pin.Pinned?) && plan.gateOk && SeedSucceeds(plan)
  }

  /** Everything a restore needs, read off the request and the disk before it begins. */
  predicate Succeeds(plan: Plan, d: Disk) {
    && plan.revision.Some? && plan.mkdirOk && plan.valid && plan.envOk && GateSucceeds(plan)
    && SwapSucceeds(plan, true, d.root, Removed(d.backup, plan.clearBackup))
  }

  predicate WillBeDone(plan: Plan, pc: Pc, d: Disk) {
    var swaps := SwapSucceeds(plan, d.staging.Some?, d.root, d.backup);
    match pc
    case Begin => Succeeds(plan, d)
    case ClearStaging => plan.revision.Some? ==> Succeeds(plan, d)
    case ClearBackup => plan.revision.Some? ==> Succeeds(plan, d)
    case MakeStaging =>
      plan.mkdirOk && plan.valid && plan.envOk && GateSucceeds(plan) && SwapSucceeds(plan, true, d.root, d.backup)
    case Extract => plan.valid && plan.envOk && GateSucceeds(plan) && swaps
    case Validate => plan.valid && plan.envOk && GateSucceeds(plan) && swaps
    case Env => plan.envOk && GateSucceeds(plan) && swaps
    case PinFile => GateSucceeds(plan) && swaps
    case Gate => plan.gateOk && SeedSucceeds(plan) && swaps
    case Snapshot => plan.seed.Some? && SeedSucceeds(plan) && swaps
    case RunSeed(_) => plan.seed.Some? && plan.seed.value.fails.None? && swaps
    case SwapOut(_) => swaps
    case SwapIn(_, _) => plan.swapInOk && d.staging.Some? && Free(d.root) && plan.upOk
    case Up(_, _) => plan.upOk
    case Commit => true
    case DropRoot(_, reply) => reply.Done?
    case RenameBack(reply) => reply.Done?
    case Discard(reply) => reply.Done?
    case Cleanup(reply) => reply.Done?
    case DropStaging(reply) => reply.Done?
    case Finished(reply) => reply.Done?
    case _ => false
  }

  lemma PreparePromise(plan: Plan, pc: Pc, d: Disk)
    requires Preparing(pc) && plan.revision.Some?
    ensures var (pc', d') := PrepareStep(plan, pc, d); WillBeDone(plan, pc, d) == WillBeDone(plan, pc', d')
  {
    hide Free, Removed, Extracted;
  }

  lemma SwapPromise(plan: Plan, pc: Pc, d: Disk)
    requires Swapping(pc)
    ensures var (pc', d') := SwapStep(plan, pc, d); WillBeDone(plan, pc, d) == WillBeDone(plan, pc', d')
  {
    hide Free;
    NoneIsFree();
  }

  lemma LivePromise(plan: Plan, pc: Pc, d: Disk)
    requires Live(pc)
    ensures var (pc', d') := LiveStep(plan, pc, d); WillBeDone(plan, pc, d) == WillBeDone(plan, pc', d')
  {
    hide Free, Removed, Seeded, Damaged, Undone, Succeeds;
  }

  lemma DeferredPromise(plan: Plan, pc: Pc, d: Disk)
    requires Deferred(pc)
    ensures var (pc', d') := DeferredStep(plan, pc, d); WillBeDone(plan, pc, d) == WillBeDone(plan, pc', d')
  {
    hide Free, Removed, Succeeds, SwapSucceeds;
  }

  lemma PromiseIsKept(plan: Plan, pc: Pc, d: Disk)
    requires !pc.Finished? && plan.revision.Some?
    ensures var (pc', d') := Next(Restore(plan), pc, d); WillBeDone(plan, pc, d) == WillBeDone(plan, pc', d')
  {
    hide WillBeDone, PrepareStep, SwapStep, LiveStep, DeferredStep;
    if Preparing(pc) {
      PreparePromise(plan, pc, d);
    } else if Swapping(pc) {
      SwapPromise(plan, pc, d);
    } else if Live(pc) {
      LivePromise(plan, pc, d);
    } else if Deferred(pc) {
      DeferredPromise(plan, pc, d);
    } else {
      FirstPromise(plan, pc, d);
    }
  }

  lemma FirstPromise(plan: Plan, pc: Pc, d: Disk)
    requires (pc.Begin? || pc.MakeParents? || pc.WriteData?) && plan.revision.Some?
    ensures var (pc', d') := Next(Restore(plan), pc, d); WillBeDone(plan, pc, d) == WillBeDone(plan, pc', d')
  {
    hide Free, Removed, PrepareStep, SwapStep, LiveStep, DeferredStep;
  }

  lemma NoneIsFree()
    ensures Free(None)
  {
  }

  lemma {:induction false} DoneAsPromised(plan: Plan, pc: Pc, d: Disk)
    requires plan.revision.Some?
    ensures Rest(Restore(plan), pc, d).0.reply.Done? <==> WillBeDone(plan, pc, d)
    decreases Rank(pc)
  {
    hide Next, WillBeDone;
    if pc.Finished? {
      FinishedPromise(plan, pc, d);
    } else {
      var (pc', d') := Next(Restore(plan), pc, d);
      PromiseIsKept(plan, pc, d);
      DoneAsPromised(plan, pc', d');
    }
  }

  lemma FinishedPromise(plan: Plan, pc: Pc, d: Disk)
    requires pc.Finished?
    ensures WillBeDone(plan, pc, d) <==> pc.reply.Done?
  {
  }

  /** A restore answers done exactly when every check passes, every call it makes works,
      and the folders it renames onto are free: for a project whose folder is there, the
      backup's place after the clearing, else the folder's own. */
  lemma RestoreIsDoneIff(plan: Plan, d0: Disk)
    ensures ReplyTo(Restore(plan), d0).Done? <==> Succeeds(plan, d0)
  {
    if plan.revision.Some? {
      hide Rest, Succeeds;
      DoneAsPromised(plan, Begin, d0);
    } else {
      RestUnfolds(Restore(plan), Begin, d0);
      RestOfFinished(Restore(plan), Finished(Refused), d0);
    }
  }

  // ----- a backup that cannot be cleared -----

  /** A leftover backup stands where the live folder would be put aside. */
  predicate Blocked(plan: Plan, d: Disk) {
    d.root.Some? && plan.statOk && !Free(Removed(d.backup, plan.clearBackup))
  }

  predicate BlockedInv(plan: Plan, d0: Disk, pc: Pc, d: Disk) {
    && d.root == d0.root
    && (28 <= Rank(pc) ==> d.backup == d0.backup)
    && (19 <= Rank(pc) <= 27 ==> d.backup == Removed(d0.backup, plan.clearBackup))
    && !pc.SwapIn? && !pc.SwapBack? && !pc.Up? && !pc.UndoUp? && !pc.DropRoot? && !pc.RenameBack? && !pc.Commit?
    && !pc.MakeParents? && !pc.WriteData?
  }

  lemma BlockedStep(plan: Plan, d0: Disk, pc: Pc, d: Disk)
    requires Blocked(plan, d0) && BlockedInv(plan, d0, pc, d) && !pc.Finished?
    ensures var (pc', d') := Next(Restore(plan), pc, d); BlockedInv(plan, d0, pc', d')
  {
    hide Removed, Extracted, Seeded, Damaged, Undone, Free;
  }

  lemma {:induction false} BlockedRest(plan: Plan, d0: Disk, pc: Pc, d: Disk)
    requires Blocked(plan, d0) && BlockedInv(plan, d0, pc, d)
    ensures Rest(Restore(plan), pc, d).1.root == d0.root
    decreases Rank(pc)
  {
    hide Next;
    if !pc.Finished? {
      var (pc', d') := Next(Restore(plan), pc, d);
      BlockedStep(plan, d0, pc, d);
      BlockedRest(plan, d0, pc', d');
    }
  }

  /** While it cannot be cleared no restore of the project is ever done; the folder stays
      as it is, and so do the volumes unless putting them back fails. */
  lemma BackupLeftoverBlocks(plan: Plan, d0: Disk)
    requires Blocked(plan, d0)
    ensures !ReplyTo(Restore(plan), d0).Done?
    ensures DiskAfter(Restore(plan), d0).root == d0.root
    ensures (plan.seed.Some? ==> plan.seed.value.undoFails.None?) ==> DiskAfter(Restore(plan), d0).volumes == d0.volumes
  {
    hide Rest, Removed;
    RestoreIsDoneIff(plan, d0);
    BlockedRest(plan, d0, Begin, d0);
    TheAnswerIsHonest(plan, d0);
  }

  // ----- what the folder then holds -----

  /** The scratch folder is gone, or empty. */
  predicate NothingLeft(f: Option<Folder>) {
    f.None? || f.value == map[]
  }

  /** The restored folder is what this revision unpacks to. */
  predicate IsTheRevision(plan: Plan, staging: Option<Folder>, rev: seq<Entry>) {
    Restored(plan.(revision := Some(rev)), staging) == Extracted(map[], rev).0
  }

  function OneFile(): seq<Entry> {
    [Entry("x", false, 0, [], true, Works)]
  }

  /** The target of a restore is the extracted revision, whichever it is, exactly when the
      staging folder could be opened and nothing of an earlier attempt was left in it. */
  lemma RestoredIsTheRevisionIff(plan: Plan, staging: Option<Folder>)
    ensures (forall rev :: IsTheRevision(plan, staging, rev))
            <==> plan.openOk && NothingLeft(Removed(staging, plan.clearStaging))
  {
    hide Removed;
    if forall rev :: IsTheRevision(plan, staging, rev) {
      assert IsTheRevision(plan, staging, []);
      assert IsTheRevision(plan, staging, OneFile());
      hide Extracted;
      OneFileUnpacks();
    }
  }

  lemma OneFileUnpacks()
    ensures Extracted(map[], OneFile()).0 != map[] && Extracted(map[], []).0 == map[]
  {
    assert OneFile()[..0] == [];
    PlainLetter();
    var e := OneFile()[0];
    assert Extracted(map[], OneFile()) == ExtractOne(map[], 0, e);
    assert WriteFile(map[], ["x"], [], Works).0 == WithParents(map[], ["x"])[["x"] := File([])];
    assert ["x"] in Extracted(map[], OneFile()).0;
  }

  lemma PlainLetter()
    ensures Resolve(Some(map[]), "x") == Some(["x"])
  {
    PlainName();
    assert TrimSpace("x") == "x";
  }

  /** The entry of a compose file, packed and unpacked without a fault. */
  function ComposeEntry(compose: Bytes): Entry {
    Entry("compose.yml", false, |compose|, compose, true, Works)
  }

  function WithCompose(f: Folder, compose: Bytes): Folder {
    f[["compose.yml"] := File(compose)]
  }

  lemma ComposeIsPlain()
    ensures AllNormal(["compose.yml"]) && KeepsName(["compose.yml"]) && Join(["compose.yml"]) == "compose.yml"
    ensures LandsOn("compose.yml", ["compose.yml"])
  {
    hide Lexical, Stack, Split;
    var name := "compose.yml";
    assert TrimSpace(name) == name;
    KeptNameLandsOnItself([name]);
  }

  /** The compose file comes out of its archive, whatever the folder holds beside it. */
  lemma ComposeUnpacks(f: Folder, compose: Bytes)
    requires ["compose.yml"] !in f && |compose| <= MAX_FILE_BYTES
    ensures Extracted(f, [ComposeEntry(compose)]) == (WithCompose(f, compose), 1)
  {
    var (p, e) := (["compose.yml"], ComposeEntry(compose));
    ComposeIsPlain();
    hide Lexical, Stack, TrimSpace;
    assert [e][..0] == [];
    assert WithParents(f, p) == f;
    assert Resolve(Some(f), e.name) == Some(p);
    assert Extracted(f, [e]) == ExtractOne(f, 0, e);
  }

  /** A file an earlier attempt left, in a staging folder that cannot be cleared, ends up in
      the restored project beside the revision's compose file. */
  lemma LeftoverIsMixedIn(compose: Bytes) returns (plan: Plan, d0: Disk)
    requires |compose| <= MAX_FILE_BYTES
    ensures plan.revision == Some([ComposeEntry(compose)]) && ReplyTo(Restore(plan), d0).Done?
    ensures Extracted(map[], plan.revision.value).0 == WithCompose(map[], compose)
    ensures DiskAfter(Restore(plan), d0).root == Some(WithCompose(map[["old"] := File([])], compose))
  {
    var left: Folder := map[["old"] := File([])];
    plan := Plan(Some([ComposeEntry(compose)]), Left(left.Keys), Gone, true, true, true, true, false, NoPin, true, None,
                 true, true, true, true, true, Gone, Gone, Gone);
    d0 := Disk(None, Some(left), None, map[], false, false, false);
    assert Succeeds(plan, d0);
    hide Rest, Restored, Succeeds, Extracted, ReplyTo, DiskAfter, VolumesAfter;
    ComposeUnpacks(left, compose);
    ComposeUnpacks(map[], compose);
    RestoredOver(plan, left);
    hide ComposeEntry, WithCompose;
    RestoreIsDoneIff(plan, d0);
    RestoreIsAllOrNothing(plan, d0);
  }

  lemma RestoredOver(plan: Plan, left: Folder)
    requires plan.revision.Some? && plan.openOk && plan.clearStaging == Left(left.Keys)
    ensures Restored(plan, Some(left)) == Extracted(left, plan.revision.value).0
  {
    assert (map p | p in left && p in left.Keys :: left[p]) == left;
  }

  /** A restore, which succeeds over a cleared staging folder, of a revision that zipDir
      packed: whatever happens to its entries on the way out, it brings the packed folder
      back exactly when every single file comes back. */
  lemma RestoreBringsTheSnapshotBackIff(plan: Plan, d0: Disk, f: Folder, ps: seq<Path>, entries: seq<Entry>)
    requires Tree(f) && Walks(ps, f) && (forall p :: p in ps ==> AllNormal(p)) && Archives(entries, f, ps)
    requires plan.revision == Some(entries) && plan.openOk && NothingLeft(Removed(d0.staging, plan.clearStaging))
    requires Succeeds(plan, d0)
    ensures DiskAfter(Restore(plan), d0).root == Some(Pruned(f))
            <==> forall i :: 0 <= i < |ps| ==> EntryComesBack(f, ps, entries, i)
  {
    hide VolumesAfter, Kept, Extracted, ReplyTo, DiskAfter, AllNormal, Tree, EntryComesBack, Removed, Succeeds, Walks;
    RestoreIsDoneIff(plan, d0);
    RestoreIsAllOrNothing(plan, d0);
    FaultyArchiveUnpacksIff(f, ps, entries);
  }

  /** Without such faults, exactly when the folder was within the caps and no path begins or
      ends with white space; and then with every file and its content. */
  lemma RestoreBringsTheSnapshotBack(plan: Plan, d0: Disk, f: Folder, ps: seq<Path>)
    requires Tree(f) && Walks(ps, f) && forall p :: p in ps ==> AllNormal(p)
    requires plan.revision == Some(Zipped(f, ps)) && plan.openOk && NothingLeft(Removed(d0.staging, plan.clearStaging))
    requires Succeeds(plan, d0)
    ensures DiskAfter(Restore(plan), d0).root == Some(Pruned(f)) <==> ComesBack(f, ps)
    ensures ComesBack(f, ps) ==> forall p :: FileAt(DiskAfter(Restore(plan), d0).root.value, p) == FileAt(f, p)
  {
    hide VolumesAfter, Kept, Extracted, Zipped, ReplyTo, DiskAfter, AllNormal, Tree, ComesBack, Removed, Succeeds;
    hide Walks;
    RestoreIsDoneIff(plan, d0);
    RestoreIsAllOrNothing(plan, d0);
    UnpacksIffWithinCapsAndUntrimmed(f, ps);
    PrunedKeepsFiles(f);
  }

  /** A project of a compose file and a file "x", packed whole, of which "x" cannot be read
      when it is restored. The restore of what the project already holds is done all the
      same, and "x" is gone from the folder and from the backup. */
  lemma FaultyRestoreLosesAFile(compose: Bytes) returns (plan: Plan, d0: Disk, f: Folder, entries: seq<Entry>)
    requires |compose| <= MAX_FILE_BYTES
    ensures f == WithCompose(map[["x"] := File([])], compose) && Tree(f)
    ensures Walks(BothPaths(), f) && Archives(entries, f, BothPaths()) && ComesBack(f, BothPaths())
    ensures plan.revision == Some(entries) && d0.root == Some(f)
    ensures ReplyTo(Restore(plan), d0).Done?
    ensures DiskAfter(Restore(plan), d0).root == Some(WithCompose(map[], compose))
    ensures DiskAfter(Restore(plan), d0).backup == None
  {
    f := WithCompose(map[["x"] := File([])], compose);
    entries := [ComposeEntry(compose), Unread()];
    plan := Plan(Some(entries), Gone, Gone, true, true, true, true, false, NoPin, true, None,
                 true, true, true, true, true, Gone, Gone, Gone);
    d0 := Disk(Some(f), None, None, map[], false, false, false);
    assert Succeeds(plan, d0);
    BothComeBack(f, compose);
    UnreadIsSkipped(compose);
    hide Rest, Succeeds, Extracted, Restored, ReplyTo, DiskAfter, VolumesAfter, ComesBack, WithCompose, Tree, Walks;
    RestoreIsDoneIff(plan, d0);
    RestoreIsAllOrNothing(plan, d0);
    RestoredFromNothing(plan, entries);
  }

  function BothPaths(): seq<Path> {
    [["compose.yml"], ["x"]]
  }

  lemma RestoredFromNothing(plan: Plan, entries: seq<Entry>)
    requires plan.revision == Some(entries) && plan.openOk
    ensures Restored(plan, None) == Extracted(map[], entries).0
  {
  }

  /** An empty file's entry that does not open. */
  function Unread(): Entry {
    Entry("x", false, 0, [], false, Works)
  }

  lemma UnreadIsSkipped(compose: Bytes)
    requires |compose| <= MAX_FILE_BYTES
    ensures Extracted(map[], [ComposeEntry(compose), Unread()]).0 == WithCompose(map[], compose)
  {
    var entries := [ComposeEntry(compose), Unread()];
    assert entries[..1] == [ComposeEntry(compose)];
    ComposeUnpacks(map[], compose);
    hide Resolve, WriteFile, ComposeEntry, WithCompose;
    assert Extracted(map[], entries) == ExtractOne(WithCompose(map[], compose), 1, Unread());
  }

  lemma BothComeBack(f: Folder, compose: Bytes)
    requires f == WithCompose(map[["x"] := File([])], compose) && |compose| <= MAX_FILE_BYTES
    ensures Tree(f) && Walks(BothPaths(), f) && ComesBack(f, BothPaths())
    ensures Archives([ComposeEntry(compose), Unread()], f, BothPaths())
  {
    BothAreWalked(f, compose);
    ComposeIsPlain();
    PlainNameTrimmed();
    hide TrimSpace, AllNormal, LandsOn, Tree, Walks, WithCompose, FileAt, Join;
    TwoFilesComeBack(f, ["compose.yml"], ["x"], ComposeEntry(compose), Unread());
  }

  lemma TwoFilesComeBack(f: Folder, p: Path, q: Path, d: Entry, e: Entry)
    requires KeepsName(p) && d.name == Join(p) && !d.isDir && d.size == |DataAt(f, p)| <= MAX_FILE_BYTES
    requires KeepsName(q) && e.name == Join(q) && !e.isDir && e.size == |DataAt(f, q)| <= MAX_FILE_BYTES
    ensures ComesBack(f, [p, q]) && Archives([d, e], f, [p, q])
  {
  }

  lemma BothAreWalked(f: Folder, compose: Bytes)
    requires f == WithCompose(map[["x"] := File([])], compose)
    ensures Tree(f) && Walks(BothPaths(), f)
    ensures FileAt(f, ["x"]) == Some([]) && FileAt(f, ["compose.yml"]) == Some(compose)
  {
    assert ["compose.yml"][0] != ["x"][0];
    assert Files(f) == {["compose.yml"], ["x"]};
  }

  lemma PlainNameTrimmed()
    ensures TrimSpace("x") == "x" && Join(["x"]) == "x"
  {
  }

  lemma PrunedKeepsFiles(f: Folder)
    requires Tree(f)
    ensures forall p :: FileAt(Pruned(f), p) == FileAt(f, p)
  {
    hide Tree, Kept;
    KeptIsTree(f, Files(f));
  }
}
