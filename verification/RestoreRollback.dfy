/** What a restore that was not done leaves behind: exactly when the project's folder and
    the bound volumes are what they were, whatever failed, the rollback included.
    internal/api/project_revisions_handlers.go, handleRestoreRevision. */
module RestoreRollback {
  import opened Options
  import opened PathJail
  import opened ProjectFolder
  import opened ProjectSteps
  import opened RestoreSafety
  import opened RestoreOutcomes

  // ----- the conditions, read off the request and the disk -----

  /** Every check and call before the live folder is touched goes well. */
  predicate ReachesSwap(plan: Plan) {
    plan.revision.Some? && plan.mkdirOk && plan.valid && plan.envOk && GateSucceeds(plan)
  }

  /** The seed is begun, with a copy of the volumes saved. */
  predicate ReachesSeed(plan: Plan) {
    && plan.revision.Some? && plan.mkdirOk && plan.valid && plan.envOk
    && (plan.pin.NoPin? || plan.pin.Pinned?) && plan.gateOk
    && plan.seed.Some? && plan.seed.value.snapshotOk
  }

  /** The live folder is put aside. */
  predicate PutAside(plan: Plan, d: Disk) {
    d.root.Some? && plan.statOk && plan.swapOutOk && Free(Removed(d.backup, plan.clearBackup))
  }

  /** What a failed deploy leaves of the new files before the old ones are renamed back. */
  function Remains(plan: Plan, d: Disk): Option<Folder> {
    Removed(Some(Restored(plan, d.staging)), plan.dropRoot)
  }

  /** The project's folder survives a failed restore: it was never touched; or it was put
      aside and can be renamed back, once the new files, if they went live, are all removed;
      or there was none, and the new files are all removed. What is left of the new files may
      also happen to be the old folder. */
  predicate FolderComesBack(plan: Plan, d: Disk) {
    ReachesSwap(plan) ==>
      && (PutAside(plan, d) ==>
            || (plan.swapBackOk && (plan.swapInOk ==> plan.dropRoot.Gone?))
            || (plan.swapInOk && Remains(plan, d) == d.root))
      && (d.root.None? && plan.swapInOk ==> plan.dropRoot.Gone?)
  }

  /** The volumes survive it: they were never touched, or putting them back works, or what a
      failed attempt at that left in them happens to be what they held. */
  predicate VolumesComeBack(plan: Plan, d: Disk) {
    ReachesSeed(plan) && plan.seed.value.undoFails.Some? ==>
      Damaged(d.volumes, plan.seed.value.binds, plan.seed.value.undoFails.value) == d.volumes
  }

  // ----- the folder at the end, foretold from every step -----

  /** The checks and calls still to come up to the policy gate go well. */
  predicate PassesGate(plan: Plan, pc: Pc) {
    && (Rank(pc) >= Rank(MakeStaging) ==> plan.mkdirOk)
    && (Rank(pc) >= Rank(Validate) ==> plan.valid)
    && (Rank(pc) >= Rank(Env) ==> plan.envOk)
    && (Rank(pc) >= Rank(PinFile) ==> plan.pin.NoPin? || plan.pin.Pinned?)
    && (Rank(pc) >= Rank(Gate) ==> plan.gateOk)
  }

  /** And so does the seed after it, if there is one. */
  predicate ComesThrough(plan: Plan, pc: Pc) {
    && PassesGate(plan, pc)
    && (pc.Snapshot? || pc.RunSeed? ==> plan.seed.Some?)
    && (Rank(pc) >= Rank(Snapshot) && plan.seed.Some? ==> plan.seed.value.snapshotOk)
    && (!pc.SwapOut? && plan.seed.Some? ==> plan.seed.value.fails.None?)
  }

  function RenamedBack(plan: Plan, root: Option<Folder>, backup: Option<Folder>): Option<Folder> {
    if plan.swapBackOk && Free(root) then backup else root
  }

  /** After a deploy that failed. */
  function DroppedRoot(plan: Plan, existed: bool, root: Option<Folder>, backup: Option<Folder>): Option<Folder> {
    var left := Removed(root, plan.dropRoot);
    if existed then RenamedBack(plan, left, backup) else left
  }

  function AfterUp(plan: Plan, existed: bool, root: Option<Folder>, backup: Option<Folder>): Option<Folder> {
    if plan.upOk then root else DroppedRoot(plan, existed, root, backup)
  }

  function AfterSwapIn(plan: Plan, target: Folder, existed: bool, root: Option<Folder>, backup: Option<Folder>)
    : Option<Folder>
  {
    if plan.swapInOk && Free(root) then AfterUp(plan, existed, Some(target), backup)
    else if existed then RenamedBack(plan, root, backup)
    else root
  }

  function AfterSwapOut(plan: Plan, target: Folder, root: Option<Folder>, backup: Option<Folder>): Option<Folder> {
    if root.None? || !plan.statOk then AfterSwapIn(plan, target, false, root, backup)
    else if plan.swapOutOk && Free(backup) then AfterSwapIn(plan, target, true, None, root)
    else root
  }

  /** The same from a step before the swap, where the backup may still have to be cleared. */
  function BeforeSwap(plan: Plan, target: Folder, pc: Pc, root: Option<Folder>, backup: Option<Folder>)
    : Option<Folder>
  {
    var cleared := if Rank(pc) >= Rank(ClearBackup) then Removed(backup, plan.clearBackup) else backup;
    if ComesThrough(plan, pc) then AfterSwapOut(plan, target, root, cleared) else root
  }

  /** The folder a restore ends with, from any of its steps on. */
  function RootAtEnd(plan: Plan, target: Folder, pc: Pc, root: Option<Folder>, backup: Option<Folder>): Option<Folder> {
    match pc
    case SwapIn(_, existed) => AfterSwapIn(plan, target, existed, root, backup)
    case SwapBack(_) => RenamedBack(plan, root, backup)
    case Up(_, existed) => AfterUp(plan, existed, root, backup)
    case UndoUp(_, existed) => DroppedRoot(plan, existed, root, backup)
    case DropRoot(existed, _) => DroppedRoot(plan, existed, root, backup)
    case RenameBack(_) => RenamedBack(plan, root, backup)
    case _ => if Rank(pc) >= Rank(SwapOut(None)) then BeforeSwap(plan, target, pc, root, backup) else root
  }

  ghost predicate Foretold(plan: Plan, d0: Disk, pc: Pc, d: Disk, pc': Pc, d': Disk) {
    var target := Restored(plan, d0.staging);
    RootAtEnd(plan, target, pc, d.root, d.backup) == RootAtEnd(plan, target, pc', d'.root, d'.backup)
  }

  lemma PrepareForetells(plan: Plan, d0: Disk, pc: Pc, d: Disk)
    requires Preparing(pc)
    ensures var (pc', d') := PrepareStep(plan, pc, d); Foretold(plan, d0, pc, d, pc', d')
  {
    PrepareComesThrough(plan, pc, d);
    PrepareLeavesFolders(plan, pc, d);
    hide Removed, Restored, AfterSwapOut, ComesThrough, PrepareStep;
  }

  lemma PrepareLeavesFolders(plan: Plan, pc: Pc, d: Disk)
    requires Preparing(pc)
    ensures var (pc', d') := PrepareStep(plan, pc, d);
            && d'.root == d.root
            && d'.backup == (if pc.ClearBackup? then Removed(d.backup, plan.clearBackup) else d.backup)
            && (Rank(pc') >= Rank(ClearBackup) <==> pc.ClearStaging?)
  {
    hide Removed, Extracted;
  }

  /** Where a preparing step leads, and what that says of the checks. */
  ghost predicate LeadsOn(plan: Plan, pc: Pc, pc': Pc, volumes: Volumes) {
    if Preparing(pc') then
      Rank(pc') == Rank(pc) - 1 && PassesGate(plan, pc) == PassesGate(plan, pc')
    else if pc'.RunSeed? then pc.Snapshot? && ComesToSeed(plan, pc) && pc'.before == volumes
    else if pc'.SwapOut? then pc.Gate? && PassesGate(plan, pc) && plan.seed.None? && pc'.saved.None?
    else
      && (pc'.Cleanup? || pc'.DropStaging? || pc'.Finished?)
      && (PassesGate(plan, pc) ==> pc.Snapshot? && !ComesToSeed(plan, pc))
  }

  lemma StagingLeadsOn(plan: Plan, pc: Pc, d: Disk)
    requires pc.ClearStaging? || pc.ClearBackup? || pc.MakeStaging? || pc.Extract?
    ensures var (pc', d') := PrepareStep(plan, pc, d); d'.volumes == d.volumes && LeadsOn(plan, pc, pc', d.volumes)
  {
    hide Removed, Extracted;
  }

  lemma ChecksLeadOn(plan: Plan, pc: Pc, d: Disk)
    requires pc.Validate? || pc.Env? || pc.PinFile? || pc.Gate? || pc.Snapshot?
    ensures var (pc', d') := PrepareStep(plan, pc, d); d'.volumes == d.volumes && LeadsOn(plan, pc, pc', d.volumes)
  {
    hide Removed, Extracted;
  }

  lemma PrepareLeadsOn(plan: Plan, pc: Pc, d: Disk)
    requires Preparing(pc)
    ensures var (pc', d') := PrepareStep(plan, pc, d); d'.volumes == d.volumes && LeadsOn(plan, pc, pc', d.volumes)
  {
    hide PrepareStep, LeadsOn;
    if pc.ClearStaging? || pc.ClearBackup? || pc.MakeStaging? || pc.Extract? {
      StagingLeadsOn(plan, pc, d);
    } else {
      ChecksLeadOn(plan, pc, d);
    }
  }

  lemma PrepareComesThrough(plan: Plan, pc: Pc, d: Disk)
    requires Preparing(pc)
    ensures var pc' := PrepareStep(plan, pc, d).0;
            if Rank(pc') >= Rank(SwapOut(None)) then ComesThrough(plan, pc) == ComesThrough(plan, pc')
            else !ComesThrough(plan, pc) && (pc'.Cleanup? || pc'.DropStaging? || pc'.Finished?)
  {
    PrepareLeadsOn(plan, pc, d);
    hide PrepareStep;
  }

  lemma ComesThroughLate(plan: Plan)
    ensures forall saved :: ComesThrough(plan, SwapOut(saved))
    ensures forall b :: ComesThrough(plan, RunSeed(b)) <==> plan.seed.Some? && plan.seed.value.fails.None?
  {
  }

  lemma SwapForetells(plan: Plan, d0: Disk, pc: Pc, d: Disk)
    requires Swapping(pc) && StagingInv(plan, d0.staging, pc, d.staging)
    ensures var (pc', d') := SwapStep(plan, pc, d); Foretold(plan, d0, pc, d, pc', d')
  {
    ComesThroughLate(plan);
    hide Removed, Restored, AfterUp, ComesThrough;
  }

  lemma LiveForetells(plan: Plan, d0: Disk, pc: Pc, d: Disk)
    requires Live(pc) && StagingInv(plan, d0.staging, pc, d.staging)
    ensures var (pc', d') := LiveStep(plan, pc, d); Foretold(plan, d0, pc, d, pc', d')
  {
    ComesThroughLate(plan);
    hide Removed, Restored, AfterSwapOut, AfterSwapIn, DroppedRoot, RenamedBack, Seeded, Damaged, Undone, ComesThrough;
    if pc.RunSeed? {
      hide AfterUp;
    } else {
      hide StagingInv, BeforeSwap;
    }
  }

  lemma DeferredForetells(plan: Plan, d0: Disk, pc: Pc, d: Disk)
    requires Deferred(pc)
    ensures var (pc', d') := DeferredStep(plan, pc, d); Foretold(plan, d0, pc, d, pc', d')
  {
    hide Removed, Restored, AfterSwapOut;
  }

  lemma StepForetells(plan: Plan, d0: Disk, pc: Pc, d: Disk)
    requires plan.revision.Some? && Inv(plan, d0, pc, d) && !pc.Finished?
    ensures var (pc', d') := Next(Restore(plan), pc, d); Foretold(plan, d0, pc, d, pc', d')
  {
    hide RootInv, VolumeInv, GateInv, TempInv, StagingInv, Restored, PrepareStep, SwapStep, LiveStep, DeferredStep;
    hide AfterSwapOut, AfterSwapIn, AfterUp, DroppedRoot, RenamedBack, Removed;
    if Preparing(pc) {
      PrepareForetells(plan, d0, pc, d);
    } else if Swapping(pc) {
      SwapForetells(plan, d0, pc, d);
    } else if Live(pc) {
      LiveForetells(plan, d0, pc, d);
    } else if Deferred(pc) {
      DeferredForetells(plan, d0, pc, d);
    }
  }

  lemma {:induction false} EndsAsForetold(plan: Plan, d0: Disk, pc: Pc, d: Disk)
    requires plan.revision.Some? && Inv(plan, d0, pc, d)
    ensures Rest(Restore(plan), pc, d).1.root == RootAtEnd(plan, Restored(plan, d0.staging), pc, d.root, d.backup)
    decreases Rank(pc)
  {
    hide Inv, Next, Restored, AfterSwapOut;
    if !pc.Finished? {
      var (pc', d') := Next(Restore(plan), pc, d);
      StepForetells(plan, d0, pc, d);
      StepKeeps(plan, d0, pc, d);
      EndsAsForetold(plan, d0, pc', d');
    }
  }

  /** Whatever fails, the folder at the end is the old one, the new one, what a removal left
      of the new one, or there is none. */
  lemma EndsWithOneOf(plan: Plan, d0: Disk)
    ensures var root := DiskAfter(Restore(plan), d0).root;
            || root == d0.root || root.None? || root == Some(Restored(plan, d0.staging))
            || root == Removed(Some(Restored(plan, d0.staging)), plan.dropRoot)
  {
    hide Rest, Inv, Restored, ComesThrough, Removed;
    if plan.revision.Some? {
      InvAtStart(plan, d0);
      EndsAsForetold(plan, d0, Begin, d0);
    } else {
      RestUnfolds(Restore(plan), Begin, d0);
      RestOfFinished(Restore(plan), Finished(Refused), d0);
    }
  }

  lemma FolderIsBackIff(plan: Plan, d0: Disk)
    requires !ReplyTo(Restore(plan), d0).Done?
    ensures DiskAfter(Restore(plan), d0).root == d0.root <==> FolderComesBack(plan, d0)
  {
    hide Rest, Inv, Restored, GateSucceeds, ComesThrough, AfterSwapOut, FolderComesBack, Succeeds;
    RestoreIsDoneIff(plan, d0);
    if plan.revision.Some? {
      InvAtStart(plan, d0);
      EndsAsForetold(plan, d0, Begin, d0);
      ThroughIffReached(plan);
      if ReachesSwap(plan) { SwappedBackIff(plan, d0); } else { UnreachedComesBack(plan, d0); }
    } else {
      RestUnfolds(Restore(plan), Begin, d0);
      RestOfFinished(Restore(plan), Finished(Refused), d0);
      UnreachedComesBack(plan, d0);
    }
  }

  /** A restore that was not done left the project's folder as it was exactly when that
      folder comes back, which the request and the disk decide before it begins. A folder
      that does not come back is in one piece in the backup. */
  lemma FailedRestoreKeepsTheFolderIff(plan: Plan, d0: Disk)
    requires !ReplyTo(Restore(plan), d0).Done?
    ensures DiskAfter(Restore(plan), d0).root == d0.root <==> FolderComesBack(plan, d0)
    ensures d0.root.Some? && !FolderComesBack(plan, d0) ==> DiskAfter(Restore(plan), d0).backup == d0.root
  {
    hide FolderComesBack, ReplyTo, DiskAfter;
    FolderIsBackIff(plan, d0);
    InBackupOtherwise(plan, d0);
  }

  lemma InBackupOtherwise(plan: Plan, d0: Disk)
    requires !ReplyTo(Restore(plan), d0).Done?
    ensures var d := DiskAfter(Restore(plan), d0); FilesHeld(d0.root, d.root, d.backup)
  {
    hide Inv, Next, Course, Restored;
    InvAtStart(plan, d0);
    CourseKeeps(plan, d0, Begin, d0);
    InvAtEnd(plan, d0, Rest(Restore(plan), Begin, d0).0, DiskAfter(Restore(plan), d0));
  }

  /** A restore whose two last renames fail, the one in and the one back: the project is
      left without a folder, and all its files are in the backup. */
  lemma RenameBackCanFail() returns (plan: Plan, d0: Disk)
    ensures d0.root.Some? && !ReplyTo(Restore(plan), d0).Done?
    ensures DiskAfter(Restore(plan), d0).root == None && DiskAfter(Restore(plan), d0).backup == d0.root
  {
    plan := Plan(Some([]), Gone, Gone, true, true, true, true, false, NoPin, true, None,
                 true, true, false, false, true, Gone, Gone, Gone);
    d0 := Disk(Some(map[]), None, None, map[], false, false, false);
    RestoreIsDoneIff(plan, d0);
    InvAtStart(plan, d0);
    hide Rest, Inv;
    EndsAsForetold(plan, d0, Begin, d0);
    FailedRestoreKeepsTheFolderIff(plan, d0);
  }

  lemma UnreachedComesBack(plan: Plan, d: Disk)
    requires !ReachesSwap(plan)
    ensures FolderComesBack(plan, d)
  {
  }

  lemma SwappedBackIff(plan: Plan, d: Disk)
    requires ReachesSwap(plan) && !Succeeds(plan, d)
    ensures AfterSwapOut(plan, Restored(plan, d.staging), d.root, Removed(d.backup, plan.clearBackup)) == d.root
            <==> FolderComesBack(plan, d)
  {
    hide Restored, GateSucceeds;
  }

  lemma ThroughIffReached(plan: Plan)
    requires plan.revision.Some?
    ensures ComesThrough(plan, Begin) == ReachesSwap(plan)
  {
  }

  // ----- the volumes at the end, foretold likewise -----

  /** The volumes once the seed has been undone. */
  function AfterUndo(plan: Plan, before: Volumes): Volumes {
    if plan.seed.Some? && plan.seed.value.undoFails.Some?
    then Damaged(before, plan.seed.value.binds, plan.seed.value.undoFails.value)
    else before
  }

  /** The steps still to come before the seed go well. */
  predicate ComesToSeed(plan: Plan, pc: Pc) {
    PassesGate(plan, pc) && plan.seed.Some? && plan.seed.value.snapshotOk
  }

  function FromSaved(plan: Plan, saved: Option<Volumes>, volumes: Volumes): Volumes {
    if saved.Some? then AfterUndo(plan, saved.value) else volumes
  }

  function BeforeSeed(plan: Plan, pc: Pc, volumes: Volumes): Volumes {
    if ComesToSeed(plan, pc) then AfterUndo(plan, volumes) else volumes
  }

  /** The volumes a restore that will not be done ends with, from any of its steps on. */
  function VolumesAtEnd(plan: Plan, pc: Pc, volumes: Volumes): Volumes {
    match pc
    case RunSeed(before) => AfterUndo(plan, before)
    case SwapOut(saved) => FromSaved(plan, saved, volumes)
    case SwapIn(saved, _) => FromSaved(plan, saved, volumes)
    case SwapBack(saved) => FromSaved(plan, saved, volumes)
    case Undo(saved) => FromSaved(plan, saved, volumes)
    case Up(saved, _) => FromSaved(plan, saved, volumes)
    case UndoUp(saved, _) => FromSaved(plan, saved, volumes)
    case _ => if Rank(pc) >= Rank(Snapshot) then BeforeSeed(plan, pc, volumes) else volumes
  }

  lemma UndoingIs(plan: Plan, before: Volumes, volumes: Volumes)
    requires Recoverable(plan, before, volumes)
    ensures Undone(plan, volumes, Some(before)).0 == AfterUndo(plan, before)
  {
    var binds := plan.seed.value.binds;
    assert volumes - binds.Keys == before - binds.Keys by {
      SameOutside(before, volumes, binds);
    }
  }

  lemma SameOutside(before: Volumes, volumes: Volumes, binds: Binds)
    requires PutBack(volumes, binds, before) == before
    ensures volumes - binds.Keys == before - binds.Keys
  {
    var back := PutBack(volumes, binds, before);
    assert back - binds.Keys == volumes - binds.Keys;
  }

  lemma VolumesBeforeSeed(plan: Plan, pc: Pc, volumes: Volumes)
    ensures Preparing(pc) ==> VolumesAtEnd(plan, pc, volumes) == BeforeSeed(plan, pc, volumes)
    ensures pc.Cleanup? || pc.DropStaging? || pc.Finished? ==> VolumesAtEnd(plan, pc, volumes) == volumes
  {
    hide BeforeSeed;
  }

  lemma PrepareForetellsVolumes(plan: Plan, pc: Pc, d: Disk)
    requires Preparing(pc)
    ensures var (pc', d') := PrepareStep(plan, pc, d);
            VolumesAtEnd(plan, pc, d.volumes) == VolumesAtEnd(plan, pc', d'.volumes)
  {
    PrepareLeadsOn(plan, pc, d);
    var pc' := PrepareStep(plan, pc, d).0;
    VolumesBeforeSeed(plan, pc, d.volumes);
    VolumesBeforeSeed(plan, pc', d.volumes);
    hide AfterUndo, PassesGate, PrepareStep, Rank;
    if Preparing(pc') || !(pc'.RunSeed? || pc'.SwapOut?) { hide VolumesAtEnd; }
  }

  lemma SwapForetellsVolumes(plan: Plan, pc: Pc, d: Disk)
    requires Swapping(pc)
    ensures var (pc', d') := SwapStep(plan, pc, d);
            d'.volumes == d.volumes && VolumesAtEnd(plan, pc, d.volumes) == VolumesAtEnd(plan, pc', d'.volumes)
  {
    hide FromSaved, BeforeSeed, Free;
  }

  /** The undo of the seed, for whichever step makes it. */
  lemma UndoForetells(plan: Plan, before: Volumes, saved: Option<Volumes>, volumes: Volumes)
    requires SavedOk(plan, before, saved, volumes)
    ensures Undone(plan, volumes, saved).0 == FromSaved(plan, saved, volumes)
  {
    if saved.Some? { UndoingIs(plan, before, volumes); }
    hide Recoverable;
  }

  lemma LiveForetellsVolumes(plan: Plan, d0: Disk, pc: Pc, d: Disk)
    requires Live(pc) && VolumeInv(plan, d0.volumes, Restored(plan, d0.staging), pc, d.volumes)
    requires StagingInv(plan, d0.staging, pc, d.staging)
    ensures var (pc', d') := LiveStep(plan, pc, d);
            pc'.Commit? || VolumesAtEnd(plan, pc, d.volumes) == VolumesAtEnd(plan, pc', d'.volumes)
  {
    hide Restored, VolumesAfter, AfterUndo, Undone, Seeded, Damaged, Recoverable, SavedOk, Removed;
    match pc
    case Undo(saved) =>
      hide StagingInv, FromSaved;
      UndoForetells(plan, d0.volumes, saved, d.volumes);
    case UndoUp(saved, _) =>
      hide StagingInv, FromSaved;
      UndoForetells(plan, d0.volumes, saved, d.volumes);
    case Up(_, _) =>
      hide StagingInv;
    case RunSeed(_) =>
  }

  lemma DeferredForetellsVolumes(plan: Plan, pc: Pc, d: Disk)
    requires Deferred(pc)
    ensures var (pc', d') := DeferredStep(plan, pc, d);
            VolumesAtEnd(plan, pc, d.volumes) == VolumesAtEnd(plan, pc', d'.volumes)
  {
    hide Removed, Free;
  }

  lemma BeginForetellsVolumes(plan: Plan, pc: Pc, d: Disk)
    requires plan.revision.Some? && (pc.Begin? || pc.MakeParents? || pc.WriteData?)
    ensures var (pc', d') := Next(Restore(plan), pc, d);
            VolumesAtEnd(plan, pc, d.volumes) == VolumesAtEnd(plan, pc', d'.volumes)
  {
    hide AfterUndo, PrepareStep, SwapStep, LiveStep, DeferredStep;
  }

  lemma StepForetellsVolumes(plan: Plan, d0: Disk, pc: Pc, d: Disk)
    requires plan.revision.Some? && Inv(plan, d0, pc, d) && !pc.Finished?
    ensures var (pc', d') := Next(Restore(plan), pc, d);
            pc'.Commit? || VolumesAtEnd(plan, pc, d.volumes) == VolumesAtEnd(plan, pc', d'.volumes)
  {
    hide RootInv, VolumeInv, GateInv, TempInv, StagingInv, Restored, Rank, VolumesAtEnd;
    hide PrepareStep, SwapStep, LiveStep, DeferredStep;
    if Preparing(pc) {
      PrepareForetellsVolumes(plan, pc, d);
    } else if Swapping(pc) {
      SwapForetellsVolumes(plan, pc, d);
    } else if Live(pc) {
      LiveForetellsVolumes(plan, d0, pc, d);
    } else if Deferred(pc) {
      DeferredForetellsVolumes(plan, pc, d);
    } else {
      BeginForetellsVolumes(plan, pc, d);
    }
  }

  lemma {:induction false} VolumesEndAsForetold(plan: Plan, d0: Disk, pc: Pc, d: Disk)
    requires plan.revision.Some? && Inv(plan, d0, pc, d)
    ensures Rest(Restore(plan), pc, d).0.reply.Done?
            || Rest(Restore(plan), pc, d).1.volumes == VolumesAtEnd(plan, pc, d.volumes)
    decreases Rank(pc)
  {
    hide Inv, Next, VolumesAtEnd, WillBeDone;
    if pc.Finished? {
      FinishedVolumes(plan, pc, d.volumes);
    } else {
      var (pc', d') := Next(Restore(plan), pc, d);
      StepForetellsVolumes(plan, d0, pc, d);
      StepKeeps(plan, d0, pc, d);
      if pc'.Commit? {
        DoneAsPromised(plan, pc', d');
        CommitIsDone(plan, d');
      } else {
        VolumesEndAsForetold(plan, d0, pc', d');
      }
    }
  }

  lemma FinishedVolumes(plan: Plan, pc: Pc, volumes: Volumes)
    requires pc.Finished?
    ensures VolumesAtEnd(plan, pc, volumes) == volumes
  {
  }

  lemma CommitIsDone(plan: Plan, d: Disk)
    ensures WillBeDone(plan, Commit, d)
  {
  }

  /** And it left the bound volumes as they were exactly when those come back. */
  lemma FailedRestoreKeepsTheVolumesIff(plan: Plan, d0: Disk)
    requires !ReplyTo(Restore(plan), d0).Done?
    ensures DiskAfter(Restore(plan), d0).volumes == d0.volumes <==> VolumesComeBack(plan, d0)
  {
    hide Rest, Inv, Restored, Damaged, VolumesAtEnd;
    if plan.revision.Some? {
      InvAtStart(plan, d0);
      VolumesEndAsForetold(plan, d0, Begin, d0);
      VolumesFromBegin(plan, d0);
    } else {
      RestUnfolds(Restore(plan), Begin, d0);
      RestOfFinished(Restore(plan), Finished(Refused), d0);
    }
  }

  lemma VolumesFromBegin(plan: Plan, d: Disk)
    requires plan.revision.Some?
    ensures VolumesAtEnd(plan, Begin, d.volumes) == d.volumes <==> VolumesComeBack(plan, d)
  {
    hide Damaged;
  }
}
