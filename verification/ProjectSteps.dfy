/** What the handlers that change a project's files do on disk, one step at a time:
    handleWriteProjectFile, handleUploadProjectFileRaw, handleDeleteProjectFile and
    handleMakeProjectDir of internal/api/project_handlers.go, and handleRestoreRevision of
    internal/api/project_revisions_handlers.go with projectSeed.RunUndoable.

    A request carries everything the outside world will answer while it runs (which
    calls fail, and what a failed one leaves behind), so one request has one course; every
    statement over all requests is one over all faults. */
module ProjectSteps {
  import opened Options
  import opened PathJail
  import opened ProjectFolder

  type Volumes = map<string, Folder>

  /** The folder, its two scratch siblings, the volumes on the target host with the copy
      saved of them, and the two temporary compose files. */
  datatype Disk = Disk(root: Option<Folder>, staging: Option<Folder>, backup: Option<Folder>,
                       volumes: Volumes, savedCopy: bool, bindFile: bool, pinFile: bool)

  // ----- primitives of the file system and of the volumes -----

  /** What os.RemoveAll leaves when it fails half-way. */
  datatype Removal = Gone | Left(kept: set<Path>)

  function Removed(f: Option<Folder>, how: Removal): Option<Folder> {
    if f.None? || how.Gone? then None else Some(map p | p in f.value && p in how.kept :: f.value[p])
  }

  /** A folder can be renamed onto a free name only: os.Rename looks at the new name first
      and refuses one that is a directory, an empty one too. */
  predicate Free(f: Option<Folder>) {
    f.None?
  }

  /** A bind source inside the project, a folder or a single file. */
  datatype Bind = Bind(rel: Path, isFile: bool)

  type Binds = map<string, Bind> // by the name of the volume that stands in for it

  /** The archive of a bind source: a folder's content by its path below the folder, a single
      file under its base name, and nothing if the project does not hold the source yet. */
  function Shipped(f: Folder, b: Bind): Folder {
    if b.isFile then
      if b.rel == [] || b.rel !in f then map[] else map[[b.rel[|b.rel| - 1]] := f[b.rel]]
    else
      var below := set p | p in f && |b.rel| < |p| && p[..|b.rel|] == b.rel :: p[|b.rel|..];
      map q | q in below && b.rel + q in f :: f[b.rel + q]
  }

  function VolumeOf(volumes: Volumes, v: string): Folder {
    if v in volumes then volumes[v] else map[]
  }

  /** SeedProjectBinds: each archive is extracted over what its volume holds. */
  function Seeded(volumes: Volumes, folder: Folder, binds: Binds): Volumes {
    volumes + map v | v in binds :: VolumeOf(volumes, v) + Shipped(folder, binds[v])
  }

  /** A copy that stopped half-way: the bound volumes hold anything, the others are as
      they were. */
  function Damaged(volumes: Volumes, binds: Binds, junk: Volumes): Volumes {
    (volumes - binds.Keys) + map v | v in junk && v in binds :: junk[v]
  }

  /** Putting the saved content of the bound volumes back; one that did not exist is
      removed. */
  function PutBack(volumes: Volumes, binds: Binds, saved: Volumes): Volumes {
    Damaged(volumes, binds, saved)
  }

  // ----- requests -----

  datatype Pin = NoPin | PinCreateFails | PinWriteFails | Pinned

  /** A remote project's seed: which volumes, and how it and its undo go. */
  datatype Seed = Seed(binds: Binds, snapshotOk: bool, fails: Option<Volumes>, undoFails: Option<Volumes>)

  datatype Plan = Plan(
    revision: Option<seq<Entry>>, // missing when the revision cannot be restored from at all
    clearStaging: Removal, clearBackup: Removal, mkdirOk: bool, openOk: bool,
    valid: bool, envOk: bool, bindFile: bool, pin: Pin, gateOk: bool, seed: Option<Seed>,
    statOk: bool, swapOutOk: bool, swapInOk: bool, swapBackOk: bool, upOk: bool,
    dropRoot: Removal, dropBackup: Removal, dropStaging: Removal)

  datatype Request =
    | Save(name: string, data: Bytes, io: WriteFault)
    | Delete(name: string, works: bool)
    | Mkdir(name: string, fails: Option<nat>) // after how many of the folders above
    | Restore(plan: Plan)

  /** What the answer says of the volumes. */
  datatype Note = Untouched | WerePutBack | PutBackFailed

  datatype Reply = Done | Refused | Error(note: Note)

  // ----- one request, step by step -----

  datatype Pc =
    | Begin
    | MakeParents(path: Path)
    | WriteData(path: Path)
    | ClearStaging | ClearBackup | MakeStaging | Extract | Validate | Env | PinFile | Gate
    | Snapshot
    | RunSeed(before: Volumes)
    | SwapOut(saved: Option<Volumes>)
    | SwapIn(saved: Option<Volumes>, existed: bool)
    | SwapBack(saved: Option<Volumes>)
    | Undo(saved: Option<Volumes>)
    | Up(saved: Option<Volumes>, existed: bool)
    | UndoUp(saved: Option<Volumes>, existed: bool)
    | DropRoot(existed: bool, reply: Reply)
    | RenameBack(reply: Reply)
    | Commit
    | Discard(reply: Reply)
    | Cleanup(reply: Reply)
    | DropStaging(reply: Reply)
    | Finished(reply: Reply)

  /** How far a request still is from its answer. */
  function Rank(pc: Pc): nat {
    match pc
    case Begin => 30
    case MakeParents(_) => 2
    case WriteData(_) => 1
    case ClearStaging => 29
    case ClearBackup => 28
    case MakeStaging => 27
    case Extract => 26
    case Validate => 25
    case Env => 24
    case PinFile => 23
    case Gate => 22
    case Snapshot => 21
    case RunSeed(_) => 20
    case SwapOut(_) => 19
    case SwapIn(_, _) => 18
    case SwapBack(_) => 17
    case Undo(_) => 16
    case Up(_, _) => 15
    case UndoUp(_, _) => 14
    case DropRoot(_, _) => 13
    case RenameBack(_) => 12
    case Commit => 12
    case Discard(_) => 11
    case Cleanup(_) => 10
    case DropStaging(_) => 9
    case Finished(_) => 0
  }

  predicate Preparing(pc: Pc) {
    || pc.ClearStaging? || pc.ClearBackup? || pc.MakeStaging? || pc.Extract? || pc.Validate? || pc.Env? || pc.PinFile?
    || pc.Gate? || pc.Snapshot?
  }

  predicate Swapping(pc: Pc) {
    pc.SwapOut? || pc.SwapIn? || pc.SwapBack?
  }

  predicate Live(pc: Pc) {
    pc.RunSeed? || pc.Undo? || pc.Up? || pc.UndoUp?
  }

  predicate Deferred(pc: Pc) {
    pc.DropRoot? || pc.RenameBack? || pc.Commit? || pc.Discard? || pc.Cleanup? || pc.DropStaging?
  }

  /** A save, or an upload, up to the point where it may write. The two only look at the
      size of the body at different moments, which no disk and no answer shows. */
  function BeginWrite(name: string, data: Bytes, d: Disk): Pc {
    var p := Resolve(d.root, name);
    if |data| > MAX_FILE_BYTES || p.None? then Finished(Refused)
    else if !Exists(d.root.value, p.value) && |Files(d.root.value)| >= MAX_FILES then Finished(Refused)
    else MakeParents(p.value)
  }

  function WriteParents(d: Disk, p: Path, io: WriteFault): (Pc, Disk) {
    var f := if d.root.None? then map[] else d.root.value;
    if |p| > 1 && io.ParentsFail? then (Finished(Error(Untouched)), d.(root := Some(WithSomeParents(f, p, io.made))))
    else (WriteData(p), d.(root := Some(WithParents(f, p))))
  }

  function WriteBytes(d: Disk, p: Path, data: Bytes, io: WriteFault): (Pc, Disk) {
    if d.root.None? then (Finished(Error(Untouched)), d)
    else
      var (f, ok) := PutFile(d.root.value, p, data, io);
      (Finished(if ok then Done else Error(Untouched)), d.(root := Some(f)))
  }

  function DeleteFile(d: Disk, name: string, works: bool): (Pc, Disk) {
    var p := Resolve(d.root, name);
    if p.None? then (Finished(Refused), d)
    else if p.value == [] || (p.value in d.root.value && (HasChildren(d.root.value, p.value) || !works))
    then (Finished(Error(Untouched)), d)
    else (Finished(Done), d.(root := Some(d.root.value - {p.value})))
  }

  function MakeDir(d: Disk, name: string, fails: Option<nat>): (Pc, Disk) {
    var p := Resolve(d.root, name);
    if p.None? then (Finished(Refused), d)
    else if FileAt(d.root.value, p.value).Some? then (Finished(Error(Untouched)), d)
    else if fails.Some? then
      (Finished(Error(Untouched)), d.(root := Some(WithSomeParents(d.root.value, p.value, fails.value))))
    else
      var f := WithParents(d.root.value, p.value);
      (Finished(Done), d.(root := Some(if p.value == [] then f else f[p.value := Dir])))
  }

  /** Undoing the seed, when there was one: the new volumes and what the answer says. */
  function Undone(plan: Plan, volumes: Volumes, saved: Option<Volumes>): (Volumes, Note) {
    if saved.None? || plan.seed.None? then (volumes, Untouched)
    else
      var seed := plan.seed.value;
      if seed.undoFails.Some? then (Damaged(volumes, seed.binds, seed.undoFails.value), PutBackFailed)
      else (PutBack(volumes, seed.binds, saved.value), WerePutBack)
  }

  /** The steps of a restore before anything live is touched. */
  function PrepareStep(plan: Plan, pc: Pc, d: Disk): (r: (Pc, Disk))
    ensures Preparing(pc) ==> Rank(r.0) < Rank(pc)
  {
    match pc
    case ClearStaging => (ClearBackup, d.(staging := Removed(d.staging, plan.clearStaging)))
    case ClearBackup => (MakeStaging, d.(backup := Removed(d.backup, plan.clearBackup)))
    case MakeStaging =>
      if !plan.mkdirOk then (Finished(Error(Untouched)), d)
      else (Extract, d.(staging := Some(if d.staging.None? then map[] else d.staging.value)))
    case Extract =>
      if plan.revision.None? || d.staging.None? || !plan.openOk then (Validate, d)
      else (Validate, d.(staging := Some(Extracted(d.staging.value, plan.revision.value).0)))
    case Validate => (if plan.valid then Env else DropStaging(Refused), d)
    case Env =>
      if !plan.envOk then (DropStaging(Error(Untouched)), d) else (PinFile, d.(bindFile := plan.bindFile))
    case PinFile =>
      if plan.pin.PinCreateFails? || plan.pin.PinWriteFails? then (Cleanup(Error(Untouched)), d)
      else (Gate, d.(pinFile := plan.pin.Pinned?))
    case Gate =>
      (if !plan.gateOk then Cleanup(Refused) else if plan.seed.None? then SwapOut(None) else Snapshot, d)
    case Snapshot =>
      if plan.seed.None? || !plan.seed.value.snapshotOk then (Cleanup(Error(Untouched)), d)
      else (RunSeed(d.volumes), d.(savedCopy := true))
    case _ => (pc, d)
  }

  /** The seed, the deploy and their undoing. */
  function LiveStep(plan: Plan, pc: Pc, d: Disk): (r: (Pc, Disk))
    ensures Live(pc) ==> Rank(r.0) < Rank(pc)
  {
    hide Damaged, Seeded, Undone;
    match pc
    case RunSeed(before) =>
      if plan.seed.None? || d.staging.None? then (Discard(Error(Untouched)), d)
      else if plan.seed.value.fails.Some? then
        (Undo(Some(before)), d.(volumes := Damaged(d.volumes, plan.seed.value.binds, plan.seed.value.fails.value)))
      else (SwapOut(Some(before)), d.(volumes := Seeded(d.volumes, d.staging.value, plan.seed.value.binds)))
    case Undo(saved) =>
      var (volumes, note) := Undone(plan, d.volumes, saved);
      (Discard(Error(note)), d.(volumes := volumes))
    case Up(saved, existed) => (if plan.upOk then Commit else UndoUp(saved, existed), d)
    case UndoUp(saved, existed) =>
      var (volumes, note) := Undone(plan, d.volumes, saved);
      (DropRoot(existed, Error(note)), d.(volumes := volumes))
    case _ => (pc, d)
  }

  /** The swap of the folders, and its own way back. */
  function SwapStep(plan: Plan, pc: Pc, d: Disk): (r: (Pc, Disk))
    ensures Swapping(pc) ==> Rank(r.0) < Rank(pc)
  {
    hide Free;
    match pc
    case SwapOut(saved) =>
      if d.root.None? || !plan.statOk then (SwapIn(saved, false), d)
      else if plan.swapOutOk && Free(d.backup) then (SwapIn(saved, true), d.(root := None, backup := d.root))
      else (Undo(saved), d)
    case SwapIn(saved, existed) =>
      if plan.swapInOk && d.staging.Some? && Free(d.root) then
        (Up(saved, existed), d.(root := d.staging, staging := None))
      else (if existed then SwapBack(saved) else Undo(saved), d)
    case SwapBack(saved) =>
      (Undo(saved), if plan.swapBackOk && Free(d.root) then d.(root := d.backup, backup := None) else d)
    case _ => (pc, d)
  }

  /** The deferred steps, in the order Go runs them. */
  function DeferredStep(plan: Plan, pc: Pc, d: Disk): (r: (Pc, Disk))
    ensures Deferred(pc) ==> Rank(r.0) < Rank(pc)
  {
    hide Removed, Free;
    match pc
    case DropRoot(existed, reply) =>
      (if existed then RenameBack(reply) else Discard(reply), d.(root := Removed(d.root, plan.dropRoot)))
    case RenameBack(reply) =>
      (Discard(reply), if plan.swapBackOk && Free(d.root) then d.(root := d.backup, backup := None) else d)
    case Commit => (Discard(Done), d.(backup := Removed(d.backup, plan.dropBackup)))
    case Discard(reply) => (Cleanup(reply), d.(savedCopy := false))
    case Cleanup(reply) => (DropStaging(reply), d.(bindFile := false, pinFile := false))
    case DropStaging(reply) => (Finished(reply), d.(staging := Removed(d.staging, plan.dropStaging)))
    case _ => (pc, d)
  }

  /** One step of a request. */
  function Next(req: Request, pc: Pc, d: Disk): (r: (Pc, Disk))
    ensures !pc.Finished? ==> Rank(r.0) < Rank(pc)
  {
    if pc.Finished? then (pc, d)
    else match req
      case Save(name, data, io) =>
        if pc.Begin? then (BeginWrite(name, data, d), d)
        else if pc.MakeParents? then WriteParents(d, pc.path, io)
        else if pc.WriteData? then WriteBytes(d, pc.path, data, io)
        else (Finished(Refused), d)
      case Delete(name, works) => if pc.Begin? then DeleteFile(d, name, works) else (Finished(Refused), d)
      case Mkdir(name, fails) => if pc.Begin? then MakeDir(d, name, fails) else (Finished(Refused), d)
      case Restore(plan) =>
        if pc.Begin? then (if plan.revision.None? then Finished(Refused) else ClearStaging, d)
        else if Preparing(pc) then PrepareStep(plan, pc, d)
        else if Swapping(pc) then SwapStep(plan, pc, d)
        else if Live(pc) then LiveStep(plan, pc, d)
        else if Deferred(pc) then DeferredStep(plan, pc, d)
        else (Finished(Refused), d)
  }

  /** A moment of a request: the step that comes next, and the disk it finds. */
  datatype Moment = Moment(pc: Pc, disk: Disk)

  /** Every moment a request passes through after the one it starts from. */
  function Course(req: Request, pc: Pc, d: Disk): seq<Moment>
    decreases Rank(pc)
  {
    if pc.Finished? then []
    else
      var (pc', d') := Next(req, pc, d);
      [Moment(pc', d')] + Course(req, pc', d')
  }

  /** Where a request ends, left alone. */
  function Rest(req: Request, pc: Pc, d: Disk): (r: (Pc, Disk))
    ensures r.0.Finished?
    decreases Rank(pc)
  {
    if pc.Finished? then (pc, d)
    else
      var (pc', d') := Next(req, pc, d);
      Rest(req, pc', d')
  }

  function DiskAfter(req: Request, d: Disk): Disk {
    Rest(req, Begin, d).1
  }

  function ReplyTo(req: Request, d: Disk): Reply {
    Rest(req, Begin, d).0.reply
  }

  // ----- the short requests, from start to end -----

  lemma RestOfFinished(req: Request, pc: Pc, d: Disk)
    requires pc.Finished?
    ensures Rest(req, pc, d) == (pc, d) && Course(req, pc, d) == []
  {
  }

  lemma SaveRuns(name: string, data: Bytes, io: WriteFault, d: Disk)
    ensures var req := Save(name, data, io);
            var r := Rest(req, Begin, d);
            var p := Resolve(d.root, name);
            && (BeginWrite(name, data, d).Finished? ==> r == (Finished(Refused), d))
            && (!BeginWrite(name, data, d).Finished? ==>
                  && d.root.Some? && p.Some? && (!Exists(d.root.value, p.value) ==> |Files(d.root.value)| < MAX_FILES)
                  && (var (f, ok) := WriteFile(d.root.value, p.value, data, io);
                      r == (Finished(if ok then Done else Error(Untouched)), d.(root := Some(f)))))
  {
    hide Lexical, Stack, TrimSpace, ThroughFile, WithParents, PutFile, Files, Exists, Rest;
    var req := Save(name, data, io);
    var pc := BeginWrite(name, data, d);
    RestUnfolds(req, Begin, d);
    if pc.Finished? {
      RestOfFinished(req, pc, d);
    } else {
      var (pc1, d1) := Next(req, pc, d);
      RestUnfolds(req, pc, d);
      if pc1.Finished? {
        RestOfFinished(req, pc1, d1);
      } else {
        var (pc2, d2) := Next(req, pc1, d1);
        RestUnfolds(req, pc1, d1);
        RestOfFinished(req, pc2, d2);
      }
    }
  }

  lemma RestUnfolds(req: Request, pc: Pc, d: Disk)
    requires !pc.Finished?
    ensures var (pc', d') := Next(req, pc, d); Rest(req, pc, d) == Rest(req, pc', d')
  {
  }

  lemma OneStepRequest(req: Request, d: Disk)
    requires req.Delete? || req.Mkdir?
    ensures Rest(req, Begin, d)
            == (if req.Delete? then DeleteFile(d, req.name, req.works) else MakeDir(d, req.name, req.fails))
  {
    hide Rest;
    RestUnfolds(req, Begin, d);
    OneStepFinishes(req, d);
    RestOfFinished(req, Next(req, Begin, d).0, Next(req, Begin, d).1);
  }

  lemma OneStepFinishes(req: Request, d: Disk)
    requires req.Delete? || req.Mkdir?
    ensures Next(req, Begin, d).0.Finished?
  {
  }
}
