/** The handlers as they run. The editor's of internal/api/project_handlers.go change the
    project folder; handleRestoreRevision of internal/api/project_revisions_handlers.go
    renames and removes folders, reassigns cleanup and undoSeed, and leaves through its
    deferred calls. Each is proved to do exactly what ProjectSteps says of its request. */
module ProjectHandlers {
  import opened Options
  import opened ProjectFolder
  import opened ProjectSteps
  import opened RestoreSafety

  /** Where a return goes with so many calls deferred. */
  function Exit(deferred: nat, reply: Reply): Pc {
    if deferred == 0 then Finished(reply)
    else if deferred == 1 then DropStaging(reply)
    else if deferred == 2 then Cleanup(reply)
    else Discard(reply)
  }

  /** The moments in `history` are what `req`, begun on `start`, has gone through so far,
      and it goes on from `pc` and `d`. */
  ghost predicate Along(req: Request, start: Disk, past: seq<Moment>, history: seq<Moment>, pc: Pc, d: Disk) {
    && history + Course(req, pc, d) == past + Course(req, Begin, start)
    && Rest(req, pc, d) == Rest(req, Begin, start)
  }

  lemma AlongOneStep(req: Request, start: Disk, past: seq<Moment>, history: seq<Moment>, pc: Pc, d: Disk)
    requires Along(req, start, past, history, pc, d) && !pc.Finished?
    ensures var (pc', d') := Next(req, pc, d);
            Along(req, start, past, history + [Moment(pc', d')], pc', d')
  {
    hide Next;
    var (pc', d') := Next(req, pc, d);
    assert history + Course(req, pc, d) == (history + [Moment(pc', d')]) + Course(req, pc', d');
  }

  class ProjectHost {
    var root: Option<Folder>
    var staging: Option<Folder>
    var backup: Option<Folder>
    var volumes: Volumes
    var savedCopy: bool
    var bindFile: bool
    var pinFile: bool
    ghost var pc: Pc
    ghost var history: seq<Moment>

    constructor (root: Option<Folder>, volumes: Volumes)
      ensures State() == Disk(root, None, None, volumes, false, false, false) && history == []
    {
      this.root, this.volumes := root, volumes;
      staging, backup, savedCopy, bindFile, pinFile := None, None, false, false, false;
      pc, history := Begin, [];
    }

    function State(): Disk
      reads this
    {
      Disk(root, staging, backup, volumes, savedCopy, bindFile, pinFile)
    }

    /** handleWriteProjectFile, and handleUploadProjectFileRaw. */
    method SaveFile(name: string, data: Bytes, io: WriteFault) returns (reply: Reply)
      modifies this`root
      ensures State() == DiskAfter(Save(name, data, io), old(State()))
      ensures reply == ReplyTo(Save(name, data, io), old(State()))
    {
      hide Rest, Resolve, Files, Exists, WithParents, PutFile;
      SaveRuns(name, data, io, State());
      if |data| > MAX_FILE_BYTES { return Refused; }
      var full := Resolve(root, name);
      if full.None? { return Refused; }
      // a new file must still fit under the cap
      if !Exists(root.value, full.value) && |Files(root.value)| >= MAX_FILES { return Refused; }
      var (written, ok) := WriteFile(root.value, full.value, data, io);
      root := Some(written);
      return if ok then Done else Error(Untouched);
    }

    /** handleDeleteProjectFile; a file that is not there is deleted already. */
    method DeleteProjectFile(name: string, works: bool) returns (reply: Reply)
      modifies this`root
      ensures State() == DiskAfter(Delete(name, works), old(State()))
      ensures reply == ReplyTo(Delete(name, works), old(State()))
    {
      hide Rest, Resolve;
      OneStepRequest(Delete(name, works), State());
      var full := Resolve(root, name);
      if full.None? { return Refused; }
      if full.value == [] { return Error(Untouched); }
      if full.value in root.value && (HasChildren(root.value, full.value) || !works) { return Error(Untouched); }
      root := Some(root.value - {full.value});
      return Done;
    }

    /** handleMakeProjectDir; a failing MkdirAll may leave some of the folders above. */
    method MakeProjectDir(name: string, fails: Option<nat>) returns (reply: Reply)
      modifies this`root
      ensures State() == DiskAfter(Mkdir(name, fails), old(State()))
      ensures reply == ReplyTo(Mkdir(name, fails), old(State()))
    {
      hide Rest, Resolve, WithParents, WithSomeParents;
      OneStepRequest(Mkdir(name, fails), State());
      var full := Resolve(root, name);
      if full.None? { return Refused; }
      if FileAt(root.value, full.value).Some? { return Error(Untouched); }
      if fails.Some? {
        root := Some(WithSomeParents(root.value, full.value, fails.value));
        return Error(Untouched);
      }
      var made := WithParents(root.value, full.value);
      root := Some(if full.value == [] then made else made[full.value := Dir]);
      return Done;
    }

    ghost predicate On(req: Request, start: Disk, past: seq<Moment>)
      reads this
    {
      Along(req, start, past, history, pc, State())
    }

    /** The step from `before` has been made and `next` comes now. */
    ghost method Made(req: Request, start: Disk, past: seq<Moment>, before: Disk, next: Pc)
      requires Along(req, start, past, history, pc, before)
      requires !pc.Finished? && Next(req, pc, before) == (next, State())
      modifies this`pc, this`history
      ensures pc == next && On(req, start, past)
    {
      hide Next, Along;
      AlongOneStep(req, start, past, history, pc, before);
      pc, history := next, history + [Moment(next, State())];
    }

    ghost method Prepared(plan: Plan, start: Disk, past: seq<Moment>, before: Disk, next: Pc)
      requires Along(Restore(plan), start, past, history, pc, before)
      requires Preparing(pc) && PrepareStep(plan, pc, before) == (next, State())
      modifies this`pc, this`history
      ensures pc == next && On(Restore(plan), start, past)
    {
      hide Along, PrepareStep;
      Made(Restore(plan), start, past, before, next);
    }

    ghost method Swapped(plan: Plan, start: Disk, past: seq<Moment>, before: Disk, next: Pc)
      requires Along(Restore(plan), start, past, history, pc, before)
      requires Swapping(pc) && SwapStep(plan, pc, before) == (next, State())
      modifies this`pc, this`history
      ensures pc == next && On(Restore(plan), start, past)
    {
      hide Along, SwapStep;
      Made(Restore(plan), start, past, before, next);
    }

    ghost method Lived(plan: Plan, start: Disk, past: seq<Moment>, before: Disk, next: Pc)
      requires Along(Restore(plan), start, past, history, pc, before)
      requires Live(pc) && LiveStep(plan, pc, before) == (next, State())
      modifies this`pc, this`history
      ensures pc == next && On(Restore(plan), start, past)
    {
      hide Along, LiveStep;
      Made(Restore(plan), start, past, before, next);
    }

    ghost method Unwound(plan: Plan, start: Disk, past: seq<Moment>, before: Disk, next: Pc)
      requires Along(Restore(plan), start, past, history, pc, before)
      requires Deferred(pc) && DeferredStep(plan, pc, before) == (next, State())
      modifies this`pc, this`history
      ensures pc == next && On(Restore(plan), start, past)
    {
      hide Along, DeferredStep;
      Made(Restore(plan), start, past, before, next);
    }

    ghost method Begun(plan: Plan, start: Disk, past: seq<Moment>)
      requires pc == Begin && plan.revision.Some? && On(Restore(plan), start, past)
      modifies this`pc, this`history
      ensures pc == ClearStaging && On(Restore(plan), start, past)
    {
      hide Along;
      Made(Restore(plan), start, past, State(), ClearStaging);
    }

    /** Clears what an earlier attempt left. */
    method ClearLeftovers(plan: Plan, ghost start: Disk, ghost past: seq<Moment>)
      requires pc == Begin && plan.revision.Some? && On(Restore(plan), start, past)
      modifies this
      ensures On(Restore(plan), start, past) && pc == MakeStaging
    {
      hide Along, Rank, Next, Removed;
      Begun(plan, start, past);
      ghost var before := State();
      staging := Removed(staging, plan.clearStaging);
      Prepared(plan, start, past, before, ClearBackup);
      before := State();
      backup := Removed(backup, plan.clearBackup);
      Prepared(plan, start, past, before, MakeStaging);
    }

    /** Makes the staging folder and unpacks the revision into it. */
    method Stage(plan: Plan, ghost start: Disk, ghost past: seq<Moment>) returns (reply: Option<Reply>)
      requires pc == MakeStaging && plan.revision.Some? && On(Restore(plan), start, past)
      modifies this
      ensures On(Restore(plan), start, past)
      ensures if reply.None? then pc == Validate && staging.Some? else pc == Finished(reply.value)
    {
      hide Along, Rank, Next, Extracted;
      if !plan.mkdirOk {
        Prepared(plan, start, past, State(), Finished(Error(Untouched)));
        return Some(Error(Untouched));
      }
      ghost var before := State();
      if staging.None? { staging := Some(map[]); }
      Prepared(plan, start, past, before, Extract);
      before := State();
      if plan.openOk {
        var unpacked, _ := ExtractZipToDir(plan.revision.value, staging.value);
        staging := Some(unpacked);
      }
      Prepared(plan, start, past, before, Validate);
      return None;
    }

    /** Compose's own validation, the deploy environment and the digest pin. */
    method Check(plan: Plan, ghost start: Disk, ghost past: seq<Moment>) returns (reply: Option<Reply>, deferred: nat)
      requires pc == Validate && staging.Some? && On(Restore(plan), start, past)
      modifies this
      ensures On(Restore(plan), start, past)
      ensures if reply.None? then pc == Gate && staging.Some? && deferred == 2 else pc == Exit(deferred, reply.value)
    {
      hide Along, Rank, Next;
      if !plan.valid {
        Prepared(plan, start, past, State(), DropStaging(Refused));
        return Some(Refused), 1;
      }
      Prepared(plan, start, past, State(), Env);
      if !plan.envOk {
        Prepared(plan, start, past, State(), DropStaging(Error(Untouched)));
        return Some(Error(Untouched)), 1;
      }
      ghost var before := State();
      bindFile := plan.bindFile;
      Prepared(plan, start, past, before, PinFile);
      reply := PinDigests(plan, start, past);
      return reply, 2;
    }

    /** The digest pin, which cleanup then removes with the rest. */
    method PinDigests(plan: Plan, ghost start: Disk, ghost past: seq<Moment>) returns (reply: Option<Reply>)
      requires pc == PinFile && On(Restore(plan), start, past)
      modifies this`pinFile, this`pc, this`history
      ensures On(Restore(plan), start, past)
      ensures if reply.None? then pc == Gate else pc == Cleanup(reply.value)
    {
      hide Along, Rank, Next;
      if plan.pin == PinCreateFails || plan.pin == PinWriteFails {
        Prepared(plan, start, past, State(), Cleanup(Error(Untouched)));
        return Some(Error(Untouched));
      }
      ghost var before := State();
      pinFile := plan.pin == Pinned;
      Prepared(plan, start, past, before, Gate);
      return None;
    }

    /** Puts the volumes back, when there is anything to put back. */
    method UndoSeed(plan: Plan, saved: Option<Volumes>) returns (note: Note)
      modifies this`volumes
      ensures (volumes, note) == Undone(plan, old(volumes), saved)
    {
      if saved.None? || plan.seed.None? { return Untouched; }
      var seed := plan.seed.value;
      if seed.undoFails.Some? {
        volumes := Damaged(volumes, seed.binds, seed.undoFails.value);
        return PutBackFailed;
      }
      volumes := PutBack(volumes, seed.binds, saved.value);
      return WerePutBack;
    }

    /** The policy gate. */
    method PassGate(plan: Plan, ghost start: Disk, ghost past: seq<Moment>) returns (ok: bool)
      requires pc == Gate && On(Restore(plan), start, past)
      modifies this`pc, this`history
      ensures On(Restore(plan), start, past)
      ensures pc == if !ok then Cleanup(Refused) else if plan.seed.None? then SwapOut(None) else Snapshot
    {
      hide Along, Rank, Next;
      ok := plan.gateOk;
      Prepared(plan, start, past, State(),
           if !ok then Cleanup(Refused) else if plan.seed.None? then SwapOut(None) else Snapshot);
    }

    /** SnapshotSeedVolumes: the copy that undo puts back and done drops. */
    method SaveVolumes(plan: Plan, seed: Seed, ghost start: Disk, ghost past: seq<Moment>)
      returns (saved: Option<Volumes>)
      requires pc == Snapshot && plan.seed == Some(seed) && On(Restore(plan), start, past)
      modifies this`savedCopy, this`pc, this`history
      ensures On(Restore(plan), start, past)
      ensures if saved.None? then pc == Cleanup(Error(Untouched))
              else pc == RunSeed(saved.value) && saved == Some(volumes)
    {
      hide Along, Rank, Next;
      ghost var before := State();
      if !seed.snapshotOk {
        Prepared(plan, start, past, before, Cleanup(Error(Untouched)));
        return None;
      }
      savedCopy := true;
      Prepared(plan, start, past, before, RunSeed(volumes));
      return Some(volumes);
    }

    /** projectSeed.RunUndoable: save what the volumes hold, seed them, and put them back
        when that fails half-way. */
    method RunUndoable(plan: Plan, seed: Seed, ghost start: Disk, ghost past: seq<Moment>)
      returns (reply: Option<Reply>, saved: Option<Volumes>)
      requires pc == Snapshot && plan.seed == Some(seed) && staging.Some? && On(Restore(plan), start, past)
      modifies this
      ensures On(Restore(plan), start, past)
      ensures if reply.None? then pc == SwapOut(saved) else pc == Exit(if saved.None? then 2 else 3, reply.value)
    {
      hide Along, Rank, Next, Seeded, Damaged, Undone;
      saved := SaveVolumes(plan, seed, start, past);
      if saved.None? { return Some(Error(Untouched)), saved; }
      ghost var before := State();
      if seed.fails.Some? {
        volumes := Damaged(volumes, seed.binds, seed.fails.value);
        Lived(plan, start, past, before, Undo(saved));
        var note := PutVolumesBack(plan, saved, start, past);
        return Some(Error(note)), saved;
      }
      volumes := Seeded(volumes, staging.value, seed.binds);
      Lived(plan, start, past, before, SwapOut(saved));
      return None, saved;
    }

    method PutVolumesBack(plan: Plan, saved: Option<Volumes>, ghost start: Disk, ghost past: seq<Moment>)
      returns (note: Note)
      requires pc == Undo(saved) && On(Restore(plan), start, past)
      modifies this`volumes, this`pc, this`history
      ensures On(Restore(plan), start, past) && pc == Discard(Error(note))
    {
      hide Along, Rank, Next, Undone;
      ghost var before := State();
      note := UndoSeed(plan, saved);
      Lived(plan, start, past, before, Discard(Error(note)));
    }

    /** Moves the live folder aside, if there is one. */
    method MoveAside(plan: Plan, saved: Option<Volumes>, ghost start: Disk, ghost past: seq<Moment>)
      returns (reply: Option<Reply>, rootExisted: bool)
      requires pc == SwapOut(saved) && On(Restore(plan), start, past)
      modifies this
      ensures On(Restore(plan), start, past)
      ensures if reply.None? then pc == SwapIn(saved, rootExisted) else pc == Discard(reply.value)
    {
      hide Along, Rank, Next, Free;
      ghost var before := State();
      rootExisted := root.Some? && plan.statOk;
      if rootExisted {
        if !(plan.swapOutOk && Free(backup)) {
          Swapped(plan, start, past, before, Undo(saved));
          var note := PutVolumesBack(plan, saved, start, past);
          return Some(Error(note)), rootExisted;
        }
        root, backup := None, root;
      }
      Swapped(plan, start, past, before, SwapIn(saved, rootExisted));
      return None, rootExisted;
    }

    /** Puts the staged folder in the live one's place. */
    method Activate(plan: Plan, saved: Option<Volumes>, rootExisted: bool, ghost start: Disk, ghost past: seq<Moment>)
      returns (reply: Option<Reply>)
      requires pc == SwapIn(saved, rootExisted) && On(Restore(plan), start, past)
      modifies this
      ensures On(Restore(plan), start, past)
      ensures if reply.None? then pc == Up(saved, rootExisted) else pc == Discard(reply.value)
    {
      hide Along, Rank, Next, Free;
      ghost var before := State();
      if plan.swapInOk && staging.Some? && Free(root) {
        root, staging := staging, None;
        Swapped(plan, start, past, before, Up(saved, rootExisted));
        return None;
      }
      if rootExisted {
        Swapped(plan, start, past, before, SwapBack(saved));
        before := State();
        if plan.swapBackOk && Free(root) { root, backup := backup, None; }
      }
      Swapped(plan, start, past, before, Undo(saved));
      var note := PutVolumesBack(plan, saved, start, past);
      return Some(Error(note));
    }

    /** The deploy itself. */
    method Deploy(plan: Plan, saved: Option<Volumes>, rootExisted: bool, ghost start: Disk, ghost past: seq<Moment>)
      returns (reply: Reply)
      requires pc == Up(saved, rootExisted) && On(Restore(plan), start, past)
      modifies this
      ensures On(Restore(plan), start, past) && pc == Discard(reply)
    {
      hide Along, Rank, Next, Undone, Removed;
      ghost var before := State();
      var swapCommitted := plan.upOk;
      if swapCommitted {
        Lived(plan, start, past, before, Commit);
        backup := Removed(backup, plan.dropBackup);
        reply := Done;
        Unwound(plan, start, past, before, Discard(reply));
      } else {
        Lived(plan, start, past, before, UndoUp(saved, rootExisted));
        var note := UndoSeed(plan, saved);
        reply := Error(note);
        Lived(plan, start, past, before, DropRoot(rootExisted, reply));
        RollBack(plan, rootExisted, reply, start, past);
      }
    }

    /** The deferred way back from the swap. */
    method RollBack(plan: Plan, rootExisted: bool, reply: Reply, ghost start: Disk, ghost past: seq<Moment>)
      requires pc == DropRoot(rootExisted, reply) && On(Restore(plan), start, past)
      modifies this
      ensures On(Restore(plan), start, past) && pc == Discard(reply)
    {
      hide Along, Rank, Next, Removed, Free;
      ghost var before := State();
      root := Removed(root, plan.dropRoot);
      if rootExisted {
        Unwound(plan, start, past, before, RenameBack(reply));
        before := State();
        if plan.swapBackOk && Free(root) { root, backup := backup, None; }
      }
      Unwound(plan, start, past, before, Discard(reply));
    }

    /** The other deferred calls, last registered first: the saved copy of the volumes, the
        temporary files, then the staging folder. */
    method Leave(plan: Plan, reply: Reply, deferred: nat, ghost start: Disk, ghost past: seq<Moment>)
      requires pc == Exit(deferred, reply) && On(Restore(plan), start, past)
      modifies this
      ensures On(Restore(plan), start, past) && pc == Finished(reply)
    {
      hide Along, Rank, Next, Removed;
      if deferred >= 3 { DropCopy(plan, reply, start, past); }
      ghost var before := State();
      if deferred >= 2 {
        bindFile, pinFile := false, false;
        Unwound(plan, start, past, before, DropStaging(reply));
      }
      before := State();
      if deferred >= 1 {
        staging := Removed(staging, plan.dropStaging);
        Unwound(plan, start, past, before, Finished(reply));
      }
    }

    /** done, for the saved copy of the volumes. */
    method DropCopy(plan: Plan, reply: Reply, ghost start: Disk, ghost past: seq<Moment>)
      requires pc == Discard(reply) && On(Restore(plan), start, past)
      modifies this
      ensures On(Restore(plan), start, past) && pc == Cleanup(reply)
    {
      hide Along, Rank, Next;
      ghost var before := State();
      savedCopy := false;
      Unwound(plan, start, past, before, Cleanup(reply));
    }

    /** The whole handler. It goes through the moments of the request, in order, and ends
        on its disk with its answer. */
    method RestoreRevision(plan: Plan) returns (reply: Reply)
      modifies this
      ensures State() == DiskAfter(Restore(plan), old(State()))
      ensures reply == ReplyTo(Restore(plan), old(State()))
      ensures history == old(history) + Course(Restore(plan), Begin, old(State()))
    {
      hide Next, Course, Rest;
      ghost var start, past := State(), history;
      pc := Begin;
      assert On(Restore(plan), start, past);
      reply := Handle(plan, start, past);
      RestOfFinished(Restore(plan), pc, State());
    }

    method Handle(plan: Plan, ghost start: Disk, ghost past: seq<Moment>) returns (reply: Reply)
      requires pc == Begin && On(Restore(plan), start, past)
      modifies this
      ensures On(Restore(plan), start, past) && pc == Finished(reply)
    {
      hide Along, Rank;
      if plan.revision.None? {
        Refuse(plan, start, past);
        return Refused;
      }
      ClearLeftovers(plan, start, past);
      var answer := Stage(plan, start, past);
      var deferred := 0;
      if answer.None? {
        answer, deferred := Check(plan, start, past);
        if answer.None? {
          reply, deferred := GoLive(plan, start, past);
          answer := Some(reply);
        }
      }
      reply := answer.value;
      Leave(plan, reply, deferred, start, past);
    }

    /** From the policy gate to the point where the deferred calls run. */
    method GoLive(plan: Plan, ghost start: Disk, ghost past: seq<Moment>) returns (reply: Reply, deferred: nat)
      requires pc == Gate && staging.Some? && On(Restore(plan), start, past)
      modifies this
      ensures On(Restore(plan), start, past) && pc == Exit(deferred, reply)
    {
      hide Along, Rank;
      var passed := PassGate(plan, start, past);
      if !passed { return Refused, 2; }
      var answer, saved := None, None;
      if plan.seed.Some? {
        answer, saved := RunUndoable(plan, plan.seed.value, start, past);
        if answer.Some? { return answer.value, if saved.None? then 2 else 3; }
      }
      var rootExisted;
      answer, rootExisted := MoveAside(plan, saved, start, past);
      if answer.Some? { return answer.value, 3; }
      answer := Activate(plan, saved, rootExisted, start, past);
      if answer.Some? { return answer.value, 3; }
      reply := Deploy(plan, saved, rootExisted, start, past);
      return reply, 3;
    }

    ghost method Refuse(plan: Plan, start: Disk, past: seq<Moment>)
      requires pc == Begin && plan.revision.None? && On(Restore(plan), start, past)
      modifies this`pc, this`history
      ensures On(Restore(plan), start, past) && pc == Finished(Refused)
    {
      hide Along, Rank;
      Made(Restore(plan), start, past, State(), Finished(Refused));
    }
  }
}
