/** What a restore that was not done answers: whether a check refused it or a call failed,
    and what it says of the volumes. internal/api/project_revisions_handlers.go,
    handleRestoreRevision. */
module RestoreAnswers {
  import opened Options
  import opened ProjectFolder
  import opened ProjectSteps
  import opened RestoreSafety
  import opened RestoreOutcomes
  import opened RestoreRollback

  /** Some check says no, and nothing before it failed. */
  predicate IsRefused(plan: Plan) {
    || plan.revision.None?
    || (plan.mkdirOk && !plan.valid)
    || (plan.mkdirOk && plan.valid && plan.envOk && (plan.pin.NoPin? || plan.pin.Pinned?) && !plan.gateOk)
  }

  // ----- the answer, foretold from every step -----

  function NoteOf(plan: Plan, saved: Option<Volumes>): Note {
    if saved.None? || plan.seed.None? then Untouched
    else if plan.seed.value.undoFails.Some? then PutBackFailed
    else WerePutBack
  }

  function FromGate(plan: Plan, pc: Pc): Reply {
    if Rank(pc) >= Rank(Gate) && !plan.gateOk then Refused
    else if plan.seed.None? || !plan.seed.value.snapshotOk then Error(Untouched)
    else if plan.seed.value.undoFails.Some? then Error(PutBackFailed)
    else Error(WerePutBack)
  }

  function FromStaging(plan: Plan, pc: Pc): Reply {
    if Rank(pc) >= Rank(MakeStaging) && !plan.mkdirOk then Error(Untouched)
    else if Rank(pc) >= Rank(Validate) && !plan.valid then Refused
    else if Rank(pc) >= Rank(Env) && !plan.envOk then Error(Untouched)
    else if Rank(pc) >= Rank(PinFile) && !(plan.pin.NoPin? || plan.pin.Pinned?) then Error(Untouched)
    else FromGate(plan, pc)
  }

  /** The answer of a restore that will not be done, from any of its steps on. */
  function AnswerAtEnd(plan: Plan, pc: Pc): Reply {
    match pc
    case RunSeed(before) => Error(NoteOf(plan, Some(before)))
    case SwapOut(saved) => Error(NoteOf(plan, saved))
    case SwapIn(saved, _) => Error(NoteOf(plan, saved))
    case SwapBack(saved) => Error(NoteOf(plan, saved))
    case Undo(saved) => Error(NoteOf(plan, saved))
    case Up(saved, _) => Error(NoteOf(plan, saved))
    case UndoUp(saved, _) => Error(NoteOf(plan, saved))
    case DropRoot(_, reply) => reply
    case RenameBack(reply) => reply
    case Discard(reply) => reply
    case Cleanup(reply) => reply
    case DropStaging(reply) => reply
    case Finished(reply) => reply
    case _ => FromStaging(plan, pc)
  }

  lemma PrepareAnswers(plan: Plan, pc: Pc, d: Disk)
    requires Preparing(pc)
    ensures AnswerAtEnd(plan, PrepareStep(plan, pc, d).0) == AnswerAtEnd(plan, pc)
  {
    hide Removed, Extracted;
    if pc.Gate? || pc.Snapshot? {
      GateAnswers(plan, pc, d);
    }
  }

  lemma GateAnswers(plan: Plan, pc: Pc, d: Disk)
    requires pc.Gate? || pc.Snapshot?
    ensures AnswerAtEnd(plan, PrepareStep(plan, pc, d).0) == AnswerAtEnd(plan, pc)
  {
    hide Removed, Extracted;
  }

  lemma SwapAnswers(plan: Plan, pc: Pc, d: Disk)
    requires Swapping(pc)
    ensures AnswerAtEnd(plan, SwapStep(plan, pc, d).0) == AnswerAtEnd(plan, pc)
  {
    hide FromStaging, NoteOf, Free;
  }

  lemma LiveAnswers(plan: Plan, d0: Disk, pc: Pc, d: Disk)
    requires Live(pc) && VolumeInv(plan, d0.volumes, Restored(plan, d0.staging), pc, d.volumes)
    requires StagingInv(plan, d0.staging, pc, d.staging)
    ensures var pc' := LiveStep(plan, pc, d).0; pc'.Commit? || AnswerAtEnd(plan, pc') == AnswerAtEnd(plan, pc)
  {
    hide Restored, VolumesAfter, FromStaging, Seeded, Damaged, PutBack, SavedOk, Removed;
    if !pc.RunSeed? { hide StagingInv, VolumeInv; }
  }

  lemma DeferredAnswers(plan: Plan, pc: Pc, d: Disk)
    requires Deferred(pc) && !pc.Commit?
    ensures AnswerAtEnd(plan, DeferredStep(plan, pc, d).0) == AnswerAtEnd(plan, pc)
  {
    hide Removed, Free, FromStaging;
  }

  lemma StepAnswers(plan: Plan, d0: Disk, pc: Pc, d: Disk)
    requires plan.revision.Some? && Inv(plan, d0, pc, d) && !pc.Finished? && !pc.Commit?
    ensures var pc' := Next(Restore(plan), pc, d).0; pc'.Commit? || AnswerAtEnd(plan, pc') == AnswerAtEnd(plan, pc)
  {
    hide RootInv, VolumeInv, GateInv, TempInv, StagingInv, Restored;
    hide PrepareStep, SwapStep, LiveStep, DeferredStep;
    if Preparing(pc) {
      hide AnswerAtEnd;
      PrepareAnswers(plan, pc, d);
    } else if Swapping(pc) {
      hide AnswerAtEnd;
      SwapAnswers(plan, pc, d);
    } else if Live(pc) {
      hide AnswerAtEnd;
      LiveAnswers(plan, d0, pc, d);
    } else if Deferred(pc) {
      hide AnswerAtEnd;
      DeferredAnswers(plan, pc, d);
    }
  }

  lemma {:induction false} AnswersAsForetold(plan: Plan, d0: Disk, pc: Pc, d: Disk)
    requires plan.revision.Some? && Inv(plan, d0, pc, d) && !pc.Commit?
    ensures var reply := Rest(Restore(plan), pc, d).0.reply; reply.Done? || reply == AnswerAtEnd(plan, pc)
    decreases Rank(pc)
  {
    hide Inv, Next, WillBeDone, FromStaging, NoteOf;
    if !pc.Finished? {
      hide AnswerAtEnd;
      var (pc', d') := Next(Restore(plan), pc, d);
      StepAnswers(plan, d0, pc, d);
      StepKeeps(plan, d0, pc, d);
      if pc'.Commit? {
        DoneAsPromised(plan, pc', d');
        CommitIsDone(plan, d');
      } else {
        AnswersAsForetold(plan, d0, pc', d');
      }
    }
  }

  /** A restore that was not done answers that it was refused exactly when a check said no
      before anything failed; it says the volumes were put back, or that this failed,
      exactly when the seed had begun and the undo went that way; and of volumes it never
      touched it says nothing. */
  lemma FailedRestoreAnswers(plan: Plan, d0: Disk)
    requires !ReplyTo(Restore(plan), d0).Done?
    ensures var reply := ReplyTo(Restore(plan), d0);
            && (reply == Refused <==> IsRefused(plan))
            && (reply == Error(WerePutBack) <==> ReachesSeed(plan) && plan.seed.value.undoFails.None?)
            && (reply == Error(PutBackFailed) <==> ReachesSeed(plan) && plan.seed.value.undoFails.Some?)
            && (reply == Error(Untouched) <==> !IsRefused(plan) && !ReachesSeed(plan))
  {
    hide Rest, Inv;
    if plan.revision.Some? {
      InvAtStart(plan, d0);
      AnswersAsForetold(plan, d0, Begin, d0);
    } else {
      RestUnfolds(Restore(plan), Begin, d0);
      RestOfFinished(Restore(plan), Finished(Refused), d0);
    }
  }

  // ----- what a restore needs on the way -----

  function SavedIn(pc: Pc): Option<Volumes> {
    match pc
    case RunSeed(before) => Some(before)
    case SwapOut(saved) => saved
    case SwapIn(saved, _) => saved
    case SwapBack(saved) => saved
    case Undo(saved) => saved
    case Up(saved, _) => saved
    case UndoUp(saved, _) => saved
    case _ => None
  }

  /** The temporary compose files stand from their making to the cleanup, and the copy of
      the volumes as long as it may have to be put back. */
  predicate ToolsStand(plan: Plan, pc: Pc, d: Disk) {
    && (pc.PinFile? ==> d.bindFile == plan.bindFile)
    && (Rank(Commit) <= Rank(pc) <= Rank(Gate) ==> d.bindFile == plan.bindFile && d.pinFile == plan.pin.Pinned?)
    && (SavedIn(pc).Some? ==> d.savedCopy)
  }

  lemma PrepareTools(plan: Plan, pc: Pc, d: Disk)
    requires Preparing(pc) && ToolsStand(plan, pc, d)
    ensures var (pc', d') := PrepareStep(plan, pc, d); ToolsStand(plan, pc', d')
  {
    hide Removed, Extracted;
  }

  lemma SwapTools(plan: Plan, pc: Pc, d: Disk)
    requires Swapping(pc) && ToolsStand(plan, pc, d)
    ensures var (pc', d') := SwapStep(plan, pc, d); ToolsStand(plan, pc', d')
  {
    hide Free;
  }

  lemma LiveTools(plan: Plan, pc: Pc, d: Disk)
    requires Live(pc) && ToolsStand(plan, pc, d)
    ensures var (pc', d') := LiveStep(plan, pc, d); ToolsStand(plan, pc', d')
  {
    hide Seeded, Damaged, Undone;
  }

  lemma DeferredTools(plan: Plan, pc: Pc, d: Disk)
    requires Deferred(pc) && ToolsStand(plan, pc, d)
    ensures var (pc', d') := DeferredStep(plan, pc, d); ToolsStand(plan, pc', d')
  {
    hide Removed, Free;
  }

  lemma StepTools(plan: Plan, pc: Pc, d: Disk)
    requires ToolsStand(plan, pc, d)
    ensures var (pc', d') := Next(Restore(plan), pc, d); ToolsStand(plan, pc', d')
  {
    hide PrepareStep, SwapStep, LiveStep, DeferredStep;
    if Preparing(pc) {
      hide ToolsStand;
      PrepareTools(plan, pc, d);
    } else if Swapping(pc) {
      hide ToolsStand;
      SwapTools(plan, pc, d);
    } else if Live(pc) {
      hide ToolsStand;
      LiveTools(plan, pc, d);
    } else if Deferred(pc) {
      hide ToolsStand;
      DeferredTools(plan, pc, d);
    }
  }

  lemma {:induction false} CourseTools(plan: Plan, pc: Pc, d: Disk)
    requires ToolsStand(plan, pc, d)
    ensures forall m :: m in Course(Restore(plan), pc, d) ==> ToolsStand(plan, m.pc, m.disk)
    decreases Rank(pc)
  {
    hide ToolsStand, Next;
    if !pc.Finished? {
      var (pc', d') := Next(Restore(plan), pc, d);
      StepTools(plan, pc, d);
      CourseTools(plan, pc', d');
    }
  }

  /** Whenever compose is about to run, the override files the plan calls for are there, and
      whenever the volumes are about to be put back, so is the copy of them. */
  lemma ToolsAreThere(plan: Plan, d0: Disk, m: Moment)
    requires m in Course(Restore(plan), Begin, d0)
    ensures m.pc.Up? ==> m.disk.bindFile == plan.bindFile && m.disk.pinFile == plan.pin.Pinned?
    ensures (m.pc.Undo? || m.pc.UndoUp?) && m.pc.saved.Some? ==> m.disk.savedCopy
  {
    hide Course, Next;
    CourseTools(plan, Begin, d0);
    assert ToolsStand(plan, m.pc, m.disk);
  }
}
