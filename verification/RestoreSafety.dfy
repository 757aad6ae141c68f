/** A restore under every fault: all or nothing, nothing lost on the way, and an answer
    that says what happened to the volumes.
    internal/api/project_revisions_handlers.go, handleRestoreRevision. */
module RestoreSafety {
  import opened Options
  import opened ProjectFolder
  import opened PathJail
  import opened ProjectSteps
  import opened Snapshots

  // ----- what every step keeps -----

  /** What the staging folder holds once the revision is unpacked: into an empty folder,
      or over what an earlier attempt left and could not be cleared. */
  function Restored(plan: Plan, staging: Option<Folder>): Folder {
    var left := Removed(staging, plan.clearStaging);
    var base := if left.None? then map[] else left.value;
    if plan.revision.None? || !plan.openOk then base else Extracted(base, plan.revision.value).0
  }

  /** The revision still validates and the deploy policy lets it through. */
  predicate ChecksPass(plan: Plan) {
    plan.valid && plan.gateOk
  }

  /** The rollback's own calls succeed. */
  predicate RollbackWorks(plan: Plan) {
    && plan.swapBackOk && plan.dropRoot.Gone?
    && (plan.seed.Some? ==> plan.seed.value.undoFails.None?)
  }

  /** The old folder is in one piece under its name or in the backup, if there was one. */
  predicate FilesHeld(prior: Option<Folder>, root: Option<Folder>, backup: Option<Folder>) {
    root == prior || backup == prior || prior.None?
  }

  /** A swap is under way: the old folder is in the backup, or there was none to keep. */
  predicate Aside(plan: Plan, prior: Option<Folder>, existed: bool, backup: Option<Folder>) {
    if existed then prior.Some? && backup == prior else prior.None?
  }

  ghost predicate Settled(plan: Plan, prior: Option<Folder>, target: Folder, reply: Reply, root: Option<Folder>,
                          backup: Option<Folder>) {
    if reply.Done? then root == Some(target) && (plan.dropBackup.Gone? ==> backup.None?)
    else
      && FilesHeld(prior, root, backup)
      && (RollbackWorks(plan) || reply.Refused? || !ChecksPass(plan) ==> root == prior)
  }

  ghost predicate RootInv(plan: Plan, prior: Option<Folder>, target: Folder, pc: Pc, root: Option<Folder>,
                          backup: Option<Folder>) {
    match pc
    case SwapIn(_, existed) =>
      if existed then prior.Some? && backup == prior && root.None? else root == prior && (prior.None? || !plan.statOk)
    case SwapBack(_) => prior.Some? && backup == prior && root.None?
    case Undo(_) => root == prior || (backup == prior && !plan.swapBackOk)
    case Up(_, existed) => root == Some(target) && Aside(plan, prior, existed, backup)
    case UndoUp(_, existed) => root == Some(target) && Aside(plan, prior, existed, backup)
    case DropRoot(existed, reply) => reply.Error? && root == Some(target) && Aside(plan, prior, existed, backup)
    case RenameBack(reply) => reply.Error? && Aside(plan, prior, true, backup) && (plan.dropRoot.Gone? ==> root.None?)
    case Commit => root == Some(target)
    case Discard(reply) => Settled(plan, prior, target, reply, root, backup)
    case Cleanup(reply) => Settled(plan, prior, target, reply, root, backup)
    case DropStaging(reply) => Settled(plan, prior, target, reply, root, backup)
    case Finished(reply) => Settled(plan, prior, target, reply, root, backup)
    case _ => root == prior
  }

  /** Only the bound volumes differ from what they held. */
  ghost predicate Recoverable(plan: Plan, before: Volumes, volumes: Volumes) {
    plan.seed.Some? && PutBack(volumes, plan.seed.value.binds, before) == before
  }

  ghost predicate SavedOk(plan: Plan, before: Volumes, saved: Option<Volumes>, volumes: Volumes) {
    match saved
    case None => volumes == before
    case Some(s) => s == before && Recoverable(plan, before, volumes)
  }

  function VolumesAfter(plan: Plan, before: Volumes, target: Folder): Volumes {
    if plan.seed.None? then before else Seeded(before, target, plan.seed.value.binds)
  }

  ghost predicate Told(plan: Plan, before: Volumes, target: Folder, reply: Reply, volumes: Volumes) {
    match reply
    case Done => volumes == VolumesAfter(plan, before, target)
    case Refused => volumes == before
    case Error(note) =>
      if note.PutBackFailed? then ChecksPass(plan) && plan.seed.Some? && plan.seed.value.undoFails.Some?
      else volumes == before
  }

  ghost predicate VolumeInv(plan: Plan, before: Volumes, target: Folder, pc: Pc, volumes: Volumes) {
    match pc
    case RunSeed(b) => b == before == volumes && plan.seed.Some?
    case SwapOut(saved) => SavedOk(plan, before, saved, volumes) && volumes == VolumesAfter(plan, before, target)
    case SwapIn(saved, _) => SavedOk(plan, before, saved, volumes) && volumes == VolumesAfter(plan, before, target)
    case SwapBack(saved) => SavedOk(plan, before, saved, volumes)
    case Undo(saved) => SavedOk(plan, before, saved, volumes)
    case Up(saved, _) => SavedOk(plan, before, saved, volumes) && volumes == VolumesAfter(plan, before, target)
    case UndoUp(saved, _) => SavedOk(plan, before, saved, volumes)
    case DropRoot(_, reply) => reply.Error? && Told(plan, before, target, reply, volumes)
    case RenameBack(reply) => reply.Error? && Told(plan, before, target, reply, volumes)
    case Commit => volumes == VolumesAfter(plan, before, target)
    case Discard(reply) => Told(plan, before, target, reply, volumes)
    case Cleanup(reply) => Told(plan, before, target, reply, volumes)
    case DropStaging(reply) => Told(plan, before, target, reply, volumes)
    case Finished(reply) => Told(plan, before, target, reply, volumes)
    case _ => volumes == before
  }

  /** The staging folder up to the swap that uses it up. */
  ghost predicate StagingInv(plan: Plan, prior: Option<Folder>, pc: Pc, staging: Option<Folder>) {
    match pc
    case Begin => staging == prior
    case ClearStaging => staging == prior
    case ClearBackup => staging == Removed(prior, plan.clearStaging)
    case MakeStaging => staging == Removed(prior, plan.clearStaging)
    case Extract => staging == (var left := Removed(prior, plan.clearStaging); if left.None? then Some(map[]) else left)
    case _ => 18 <= Rank(pc) <= 25 ==> staging == Some(Restored(plan, prior))
  }

  /** The request is on its way to an answer that says done. */
  predicate OnTrack(pc: Pc) {
    pc.Discard? || pc.Cleanup? || pc.DropStaging? || pc.Finished? ==> pc.reply.Done?
  }

  /** Nothing past a check happens unless it was passed. */
  predicate GateInv(plan: Plan, pc: Pc) {
    && (Rank(pc) <= 26 && !pc.Finished? ==> plan.mkdirOk)
    && (Rank(pc) <= 24 && OnTrack(pc) ==> plan.valid)
    && (Rank(pc) <= 21 && OnTrack(pc) ==> plan.gateOk)
    && (pc.Commit? || (Rank(pc) <= 11 && OnTrack(pc)) ==> plan.upOk)
    && (pc.UndoUp? || pc.DropRoot? || pc.RenameBack? ==> !plan.upOk)
  }

  /** Neither a temporary compose file nor a saved copy of the volumes. */
  predicate NoTemps(d: Disk) {
    !d.savedCopy && !d.bindFile && !d.pinFile
  }

  predicate TempInv(pc: Pc, d: Disk) {
    && (24 <= Rank(pc) || pc.DropStaging? || pc.Finished? ==> !d.bindFile && !d.pinFile)
    && (21 <= Rank(pc) || Rank(pc) <= 10 ==> !d.savedCopy)
  }

  ghost predicate Inv(plan: Plan, d0: Disk, pc: Pc, d: Disk) {
    var target := Restored(plan, d0.staging);
    && !pc.MakeParents? && !pc.WriteData?
    && RootInv(plan, d0.root, target, pc, d.root, d.backup)
    && VolumeInv(plan, d0.volumes, target, pc, d.volumes)
    && StagingInv(plan, d0.staging, pc, d.staging)
    && GateInv(plan, pc)
    && (NoTemps(d0) ==> TempInv(pc, d))
  }

  // ----- one step at a time -----

  lemma SeedingIsRecoverable(before: Volumes, folder: Folder, binds: Binds, junk: Volumes)
    ensures PutBack(Seeded(before, folder, binds), binds, before) == before
    ensures PutBack(Damaged(before, binds, junk), binds, before) == before
  {
    hide Shipped;
    PuttingBack(before, Seeded(before, folder, binds), binds);
    PuttingBack(before, Damaged(before, binds, junk), binds);
  }

  lemma PuttingBack(before: Volumes, now: Volumes, binds: Binds)
    requires forall v :: v !in binds ==> (v in now <==> v in before)
    requires forall v :: v !in binds && v in before ==> now[v] == before[v]
    ensures PutBack(now, binds, before) == before
  {
    var back := PutBack(now, binds, before);
    assert forall v :: v in back <==> v in before;
    assert forall v :: v in before ==> back[v] == before[v];
  }

  lemma PrepareKeepsStaging(plan: Plan, d0: Disk, pc: Pc, d: Disk)
    requires Preparing(pc) && StagingInv(plan, d0.staging, pc, d.staging)
    ensures var (pc', d') := PrepareStep(plan, pc, d); StagingInv(plan, d0.staging, pc', d'.staging)
  {
    hide Removed, Extracted;
  }

  lemma PrepareKeepsGate(plan: Plan, d0: Disk, pc: Pc, d: Disk)
    requires Preparing(pc) && GateInv(plan, pc) && (NoTemps(d0) ==> TempInv(pc, d))
    ensures var (pc', d') := PrepareStep(plan, pc, d); GateInv(plan, pc') && (NoTemps(d0) ==> TempInv(pc', d'))
  {
    hide Removed, Extracted;
  }

  lemma PrepareKeeps(plan: Plan, d0: Disk, pc: Pc, d: Disk)
    requires Inv(plan, d0, pc, d) && Preparing(pc)
    ensures var (pc', d') := PrepareStep(plan, pc, d); Inv(plan, d0, pc', d')
  {
    hide Removed, Extracted, Seeded, Damaged, Restored;
    PrepareKeepsStaging(plan, d0, pc, d);
    PrepareKeepsGate(plan, d0, pc, d);
    hide StagingInv, TempInv;
  }

  lemma SwapKeeps(plan: Plan, d0: Disk, pc: Pc, d: Disk)
    requires Inv(plan, d0, pc, d) && Swapping(pc)
    ensures var (pc', d') := SwapStep(plan, pc, d); Inv(plan, d0, pc', d')
  {
    hide Restored, Recoverable, VolumesAfter;
  }

  lemma LiveKeepsVolumes(plan: Plan, d0: Disk, pc: Pc, d: Disk)
    requires Inv(plan, d0, pc, d) && Live(pc)
    ensures var (pc', d') := LiveStep(plan, pc, d);
            VolumeInv(plan, d0.volumes, Restored(plan, d0.staging), pc', d'.volumes)
  {
    hide RootInv, TempInv, Extracted, Seeded, Damaged, PutBack, Restored;
    if pc.RunSeed? {
      SeedingIsRecoverable(d0.volumes, Restored(plan, d0.staging), plan.seed.value.binds,
                           if plan.seed.value.fails.Some? then plan.seed.value.fails.value else map[]);
    }
  }

  lemma LiveKeeps(plan: Plan, d0: Disk, pc: Pc, d: Disk)
    requires Inv(plan, d0, pc, d) && Live(pc)
    ensures var (pc', d') := LiveStep(plan, pc, d); Inv(plan, d0, pc', d')
  {
    LiveKeepsVolumes(plan, d0, pc, d);
    hide VolumeInv, Restored, Extracted, Seeded, Damaged, PutBack;
  }

  lemma DeferredKeepsRoot(plan: Plan, prior: Option<Folder>, target: Folder, pc: Pc, d: Disk)
    requires RootInv(plan, prior, target, pc, d.root, d.backup) && GateInv(plan, pc) && Deferred(pc)
    ensures var (pc', d') := DeferredStep(plan, pc, d); RootInv(plan, prior, target, pc', d'.root, d'.backup)
  {
  }

  lemma DeferredKeeps(plan: Plan, d0: Disk, pc: Pc, d: Disk)
    requires Inv(plan, d0, pc, d) && Deferred(pc)
    ensures var (pc', d') := DeferredStep(plan, pc, d); Inv(plan, d0, pc', d')
  {
    DeferredKeepsRoot(plan, d0.root, Restored(plan, d0.staging), pc, d);
    hide RootInv, Restored, Extracted, Seeded, Damaged, PutBack, Removed;
  }

  lemma StepKeeps(plan: Plan, d0: Disk, pc: Pc, d: Disk)
    requires Inv(plan, d0, pc, d) && !pc.Finished?
    ensures var (pc', d') := Next(Restore(plan), pc, d); Inv(plan, d0, pc', d')
  {
    hide RootInv, VolumeInv, StagingInv, GateInv;
    if pc.Begin? {
      BeginKeeps(plan, d0, d);
    } else if Preparing(pc) {
      PrepareKeeps(plan, d0, pc, d);
    } else if Swapping(pc) {
      SwapKeeps(plan, d0, pc, d);
    } else if Live(pc) {
      LiveKeeps(plan, d0, pc, d);
    } else {
      DeferredKeeps(plan, d0, pc, d);
    }
  }

  lemma BeginKeeps(plan: Plan, d0: Disk, d: Disk)
    requires Inv(plan, d0, Begin, d)
    ensures var (pc', d') := Next(Restore(plan), Begin, d); Inv(plan, d0, pc', d')
  {
  }

  // ----- whole restores -----

  lemma InvAtStart(plan: Plan, d: Disk)
    ensures Inv(plan, d, Begin, d)
  {
  }

  lemma {:induction false} CourseKeeps(plan: Plan, d0: Disk, pc: Pc, d: Disk)
    requires Inv(plan, d0, pc, d)
    ensures forall m :: m in Course(Restore(plan), pc, d) ==> Inv(plan, d0, m.pc, m.disk)
    ensures var (pc', d') := Rest(Restore(plan), pc, d); Inv(plan, d0, pc', d')
    decreases Rank(pc)
  {
    hide Inv, Next;
    if !pc.Finished? {
      StepKeeps(plan, d0, pc, d);
      var (pc', d') := Next(Restore(plan), pc, d);
      CourseKeeps(plan, d0, pc', d');
    }
  }

  /** The new files are committed. */
  predicate Committed(pc: Pc) {
    pc.Commit? || ((pc.Discard? || pc.Cleanup? || pc.DropStaging? || pc.Finished?) && pc.reply.Done?)
  }

  lemma InvHoldsFiles(plan: Plan, d0: Disk, pc: Pc, d: Disk)
    requires Inv(plan, d0, pc, d)
    ensures FilesHeld(d0.root, d.root, d.backup) || Committed(pc)
  {
    hide VolumeInv, StagingInv, GateInv, Restored;
  }

  lemma InvBeforeGate(plan: Plan, d0: Disk, pc: Pc, d: Disk)
    requires Inv(plan, d0, pc, d) && (Rank(pc) >= Rank(Gate) || !ChecksPass(plan))
    ensures d.root == d0.root && d.volumes == d0.volumes && !Swapping(pc) && !Live(pc)
  {
    hide StagingInv, Restored, VolumesAfter;
  }

  lemma InvAtEnd(plan: Plan, d0: Disk, pc: Pc, d: Disk)
    requires Inv(plan, d0, pc, d) && pc.Finished?
    ensures Settled(plan, d0.root, Restored(plan, d0.staging), pc.reply, d.root, d.backup)
    ensures Told(plan, d0.volumes, Restored(plan, d0.staging), pc.reply, d.volumes)
    ensures (NoTemps(d0) ==> NoTemps(d)) && (pc.reply.Done? ==> ChecksPass(plan) && plan.upOk)
  {
    hide StagingInv, Restored, VolumesAfter;
  }

  /** A restore that answers done left what the revision unpacks to, over whatever could not
      be cleared from the staging folder, in the project folder and in the bound volumes. One
      that did not, whatever failed, left folder and volumes as they were, as long as the
      rollback's own calls work; one that a check refused always did. No temporary file and
      no saved copy stays behind either way. */
  lemma RestoreIsAllOrNothing(plan: Plan, d0: Disk)
    ensures var d, reply := DiskAfter(Restore(plan), d0), ReplyTo(Restore(plan), d0);
            var target := Restored(plan, d0.staging);
            && (reply.Done? ==>
                  && d.root == Some(target) && d.volumes == VolumesAfter(plan, d0.volumes, target)
                  && (plan.dropBackup.Gone? ==> d.backup.None?)
                  && ChecksPass(plan) && plan.upOk)
            && (!reply.Done? && RollbackWorks(plan) ==> d.root == d0.root && d.volumes == d0.volumes)
            && (!ChecksPass(plan) ==> !reply.Done? && d.root == d0.root && d.volumes == d0.volumes)
            && (NoTemps(d0) ==> NoTemps(d))
  {
    hide Inv, Next, Course, Restored, VolumesAfter;
    InvAtStart(plan, d0);
    CourseKeeps(plan, d0, Begin, d0);
    InvAtEnd(plan, d0, Rest(Restore(plan), Begin, d0).0, DiskAfter(Restore(plan), d0));
  }

  /** At every moment before the new files are committed the old ones are in one piece, in
      the project folder or in the backup, whatever fails, the rollback included. */
  lemma NoFileIsLostOnTheWay(plan: Plan, d0: Disk, m: Moment)
    requires m in Course(Restore(plan), Begin, d0)
    ensures FilesHeld(d0.root, m.disk.root, m.disk.backup) || Committed(m.pc)
  {
    hide Inv, Next, Course, Rest;
    InvAtStart(plan, d0);
    CourseKeeps(plan, d0, Begin, d0);
    InvHoldsFiles(plan, d0, m.pc, m.disk);
  }

  /** Until the policy gate has been passed, and for ever when a check refuses, the project
      folder and the volumes are untouched and nothing is deployed. */
  lemma NothingLiveBeforeTheGate(plan: Plan, d0: Disk, m: Moment)
    requires m in Course(Restore(plan), Begin, d0)
    requires Rank(m.pc) >= Rank(Gate) || !ChecksPass(plan)
    ensures m.disk.root == d0.root && m.disk.volumes == d0.volumes
    ensures !Swapping(m.pc) && !Live(m.pc)
  {
    hide Inv, Next, Course, Rest;
    InvAtStart(plan, d0);
    CourseKeeps(plan, d0, Begin, d0);
    InvBeforeGate(plan, d0, m.pc, m.disk);
  }

  /** The answer never claims the volumes are as they were when they are not, and only
      warns of them when putting them back failed. */
  lemma TheAnswerIsHonest(plan: Plan, d0: Disk)
    ensures var d, reply := DiskAfter(Restore(plan), d0), ReplyTo(Restore(plan), d0);
            && (reply.Refused? ==> d.root == d0.root)
            && (!reply.Done? && reply != Error(PutBackFailed) ==> d.volumes == d0.volumes)
            && (reply == Error(PutBackFailed) ==> plan.seed.Some? && plan.seed.value.undoFails.Some?)
  {
    hide Inv, Next, Course, Restored, VolumesAfter;
    InvAtStart(plan, d0);
    CourseKeeps(plan, d0, Begin, d0);
    InvAtEnd(plan, d0, Rest(Restore(plan), Begin, d0).0, DiskAfter(Restore(plan), d0));
  }
}
