/** What a user of a project can rely on, however requests interleave: a save that was
    acknowledged stands until a later request replaces it, and the folder stays a tree of
    at most 100 files. */
module ProjectGuarantees {
  import opened Options
  import opened PathJail
  import opened ProjectFolder
  import opened ProjectSteps
  import opened RestoreSafety
  import opened RestoreRollback
  import opened ProjectProtocol

  ghost predicate WellKept(root: Option<Folder>) {
    root.Some? ==> Tree(root.value) && |Files(root.value)| <= MAX_FILES
  }

  /** A restore that removes what it means to remove, and none of whose files was cut
      short. */
  ghost predicate Orderly(req: Request) {
    req.Restore? ==>
      && req.plan.dropRoot.Gone? && req.plan.clearStaging.Gone?
      && (req.plan.revision.Some? ==>
            forall i :: 0 <= i < |req.plan.revision.value| ==> !req.plan.revision.value[i].io.FileFails?)
  }

  /** The request has nothing to say about the file at `p`: it names another, or it is a
      restore that was not carried out and found its way back. */
  predicate Spares(req: Request, d: Disk, p: Path) {
    match req
    case Restore(plan) => !ReplyTo(req, d).Done? && FolderComesBack(plan, d)
    case _ => Lexical(req.name).None? || Stack(TrimSpace(req.name)) != p
  }

  // ----- one request -----

  lemma RemoveKeepsOthers(f: Folder, p: Path)
    ensures |Files(f - {p})| <= |Files(f)|
    ensures forall q :: q != p ==> FileAt(f - {p}, q) == FileAt(f, q)
  {
    assert Files(f) == Files(f - {p}) + (Files(f) - Files(f - {p}));
  }

  lemma RemoveLeaf(f: Folder, p: Path)
    requires Tree(f) && !HasChildren(f, p)
    ensures Tree(f - {p})
  {
    var g := f - {p};
    forall q, i | q in g && 0 < i < |q| ensures q[..i] in g && g[q[..i]].Dir? {
      assert q[..i] in f;
      assert !(|p| < |q| && q[..|p|] == p);
    }
  }

  /** A delete that is done leaves nothing under its name; one that is not changes
      nothing; no other file is touched. */
  lemma DeleteKeeps(name: string, works: bool, d: Disk)
    ensures var (pc, d') := DeleteFile(d, name, works);
            && (WellKept(d.root) ==> WellKept(d'.root)) && d'.root.Some? == d.root.Some?
            && (d.root.Some? ==>
                  forall q :: Spares(Delete(name, works), d, q) ==> FileAt(d'.root.value, q) == FileAt(d.root.value, q))
            && (if pc == Finished(Done) then d.root.Some? && Stack(TrimSpace(name)) !in d'.root.value else d' == d)
  {
    hide Tree, Files, Lexical, Stack, TrimSpace, FileAt, ThroughFile;
    var p := Resolve(d.root, name);
    if DeleteFile(d, name, works).0 == Finished(Done) {
      RemoveKeepsOthers(d.root.value, p.value);
      if p.value !in d.root.value {
        assert d.root.value - {p.value} == d.root.value;
      } else if Tree(d.root.value) {
        RemoveLeaf(d.root.value, p.value);
      }
    }
  }

  lemma SetDirKeeps(f: Folder, p: Path)
    requires p != [] && FileAt(f, p).None? && !ThroughFile(f, p)
    ensures Files(WithParents(f, p)[p := Dir]) == Files(f)
    ensures forall q :: FileAt(WithParents(f, p)[p := Dir], q) == FileAt(f, q)
    ensures Tree(f) ==> Tree(WithParents(f, p)[p := Dir])
  {
    hide Tree, Files, ThroughFile, WithParents;
    WithParentsKeepsFiles(f, p);
    var g := WithParents(f, p);
    assert FileAt(g, p).None?;
    DirIsNoFile(g, p);
    if Tree(f) {
      WithParentsIsTree(f, p);
      AddDir(g, p);
    }
  }

  lemma DirIsNoFile(g: Folder, p: Path)
    requires FileAt(g, p).None?
    ensures Files(g[p := Dir]) == Files(g)
    ensures forall q :: FileAt(g[p := Dir], q) == FileAt(g, q)
  {
  }

  lemma AddDir(g: Folder, p: Path)
    requires Tree(g) && p != [] && FileAt(g, p).None? && forall i :: 0 < i < |p| ==> IsDir(g, p[..i])
    ensures Tree(g[p := Dir])
  {
    var h := g[p := Dir];
    forall q, i | q in h && 0 < i < |q| ensures q[..i] in h && h[q[..i]].Dir? {
    }
  }

  /** A new folder is there when the request is done; a refused one changes nothing, and
      no file is touched either way. */
  lemma MkdirKeeps(name: string, fails: Option<nat>, d: Disk)
    ensures var (pc, d') := MakeDir(d, name, fails);
            && (WellKept(d.root) ==> WellKept(d'.root)) && d'.root.Some? == d.root.Some?
            && (d.root.Some? ==> forall q :: FileAt(d'.root.value, q) == FileAt(d.root.value, q))
            && (pc == Finished(Done) ==> d.root.Some? && IsDir(d'.root.value, Stack(TrimSpace(name))))
            && (pc == Finished(Refused) ==> d' == d)
  {
    hide Tree, Files, Lexical, TrimSpace, Stack, WithParents, WithSomeParents, FileAt, ThroughFile;
    var p := Resolve(d.root, name);
    if p.Some? {
      WithParentsKeepsFiles(d.root.value, p.value);
      if Tree(d.root.value) { WithParentsIsTree(d.root.value, p.value); }
      if fails.Some? { SomeParentsKeepFiles(d.root.value, p.value, fails.value); }
      if p.value != [] && FileAt(d.root.value, p.value).None? {
        SetDirKeeps(d.root.value, p.value);
      }
    }
  }

  /** A save that is done left exactly its content under its name, and no save touches
      another file or takes the project past the cap. */
  lemma SaveKeeps(name: string, data: Bytes, io: WriteFault, d: Disk)
    ensures var req := Save(name, data, io);
            var (d', reply) := (DiskAfter(req, d), ReplyTo(req, d));
            && (WellKept(d.root) ==> WellKept(d'.root)) && d'.root.Some? == d.root.Some?
            && (d.root.Some? ==> forall q :: Spares(req, d, q) ==> FileAt(d'.root.value, q) == FileAt(d.root.value, q))
            && (reply.Done? ==> d.root.Some? && FileAt(d'.root.value, Stack(TrimSpace(name))) == Some(data))
            && (reply.Refused? ==> d' == d)
  {
    hide Tree, Files, Rest, WriteFile, ThroughFile, Lexical, Stack, TrimSpace, FileAt;
    SaveRuns(name, data, io, d);
    var p := Resolve(d.root, name);
    if !BeginWrite(name, data, d).Finished? {
      var f := d.root.value;
      WriteKeeps(f, p.value, data, io);
      AddOne(Files(f), Files(WriteFile(f, p.value, data, io).0), p.value);
      if Exists(f, p.value) { OverwriteAddsNothing(f, p.value, data, io); }
    }
  }

  lemma OverwriteAddsNothing(f: Folder, p: Path, data: Bytes, io: WriteFault)
    requires !ThroughFile(f, p) && Exists(f, p)
    ensures Files(WriteFile(f, p, data, io).0) == Files(f)
  {
    hide ThroughFile, Parents, WithSomeParents;
    WithParentsKeepsFiles(f, p);
    if io.ParentsFail? { SomeParentsKeepFiles(f, p, io.made); }
    ParentsAreShorter(p);
  }

  /** A restore that is orderly keeps the cap, and one that finds its way back the folder. */
  lemma RestoreKeeps(plan: Plan, d: Disk)
    ensures var (d', reply) := (DiskAfter(Restore(plan), d), ReplyTo(Restore(plan), d));
            && (WellKept(d.root) && Orderly(Restore(plan)) ==> WellKept(d'.root))
            && (!reply.Done? && FolderComesBack(plan, d) ==> d'.root == d.root)
  {
    hide Extracted, Tree, Files, DiskAfter, ReplyTo, FolderComesBack;
    EndsWithOneOf(plan, d);
    EmptyFolder();
    if plan.revision.Some? { ExtractionIsBounded(plan.revision.value); }
    if !ReplyTo(Restore(plan), d).Done? { FailedRestoreKeepsTheFolderIff(plan, d); }
  }

  /** Every request leaves alone every file it spares; and it keeps the folder a tree of at
      most 100 files, if it is orderly. */
  lemma RequestKeeps(req: Request, d: Disk, p: Path)
    ensures var d' := DiskAfter(req, d);
            && (WellKept(d.root) && Orderly(req) ==> WellKept(d'.root))
            && (d.root.Some? && Spares(req, d, p) ==>
                  d'.root.Some? && FileAt(d'.root.value, p) == FileAt(d.root.value, p))
  {
    hide Rest, DeleteFile, MakeDir, WellKept, Orderly, FileAt, FolderComesBack, ReplyTo, Lexical, Stack, TrimSpace;
    match req
    case Save(name, data, io) => SaveKeeps(name, data, io, d);
    case Delete(name, works) => DeleteKeeps(name, works, d); OneStepRequest(req, d);
    case Mkdir(name, fails) => MkdirKeeps(name, fails, d); OneStepRequest(req, d);
    case Restore(plan) => RestoreKeeps(plan, d);
  }

  // ----- whole runs -----

  ghost predicate AllOrderly(claims: seq<Claim>, p: int) {
    forall i :: 0 <= i < |claims| && claims[i].project == p ==> Orderly(claims[i].req)
  }

  lemma {:induction false} SerialKeeps(d: Disk, claims: seq<Claim>, p: int)
    requires WellKept(d.root) && AllOrderly(claims, p)
    ensures WellKept(Serial(d, claims, p).root)
  {
    hide WellKept, Orderly, DiskAfter;
    if claims != [] {
      var n := |claims| - 1;
      SerialKeeps(d, claims[..n], p);
      RequestKeeps(claims[n].req, Serial(d, claims[..n], p), []);
    }
  }

  /** However requests interleave, a project nobody holds is a tree of at most 100 files, if
      the restores on it were orderly. */
  lemma TheCapHolds(s: State, events: seq<Event>, p: int)
    requires Init(s) && p in s.disks && WellKept(s.disks[p].root)
    requires AllOrderly(Run(s, events).claims, p) && !Held(Run(s, events).ops, p)
    ensures p in Run(s, events).disks && WellKept(Run(s, events).disks[p].root)
  {
    hide WellKept, Orderly, Serial, SerialReply, Run;
    OperationsSerialise(s, events);
    SerialKeeps(s.disks[p], Run(s, events).claims, p);
  }

  /** From claim `i` on, every claim on the project spares the file at `path`. */
  ghost predicate SparedFrom(d: Disk, claims: seq<Claim>, i: nat, project: int, path: Path) {
    forall j :: i <= j < |claims| && claims[j].project == project ==>
      Spares(claims[j].req, Serial(d, claims[..j], project), path)
  }

  lemma {:induction false} SparedFileStays(d: Disk, claims: seq<Claim>, i: nat, project: int, path: Path, data: Bytes)
    requires i <= |claims| && SparedFrom(d, claims, i, project, path)
    requires var root := Serial(d, claims[..i], project).root; root.Some? && FileAt(root.value, path) == Some(data)
    ensures var root := Serial(d, claims, project).root; root.Some? && FileAt(root.value, path) == Some(data)
  {
    hide DiskAfter, Spares, FileAt;
    if i == |claims| {
      assert claims[..i] == claims;
    } else {
      var n := |claims| - 1;
      assert claims[..n][..i] == claims[..i];
      forall j | i <= j < n && claims[..n][j].project == project
        ensures Spares(claims[..n][j].req, Serial(d, claims[..n][..j], project), path)
      {
        assert claims[..n][..j] == claims[..j];
      }
      SparedFileStays(d, claims[..n], i, project, path, data);
      RequestKeeps(claims[n].req, Serial(d, claims[..n], project), path);
    }
  }

  /** A save that was answered done is there for everyone to see, whatever ran and failed
      beside it and before it, until a later claim on the project names the same file,
      restores another revision, or is a restore that fails and does not find its way back.
      In particular no restore that began before it can discard it. */
  lemma AcknowledgedSaveStands(s: State, events: seq<Event>, i: nat)
    requires Init(s)
    requires var s' := Run(s, events);
             && i in s'.replies && i < |s'.claims| && s'.claims[i].req.Save? && s'.replies[i].Done?
             && s'.claims[i].project in s.disks && !Held(s'.ops, s'.claims[i].project)
             && SparedFrom(s.disks[s'.claims[i].project], s'.claims, i + 1, s'.claims[i].project,
                           Stack(TrimSpace(s'.claims[i].req.name)))
    ensures var s' := Run(s, events);
            var c := s'.claims[i];
            && c.project in s'.disks && s'.disks[c.project].root.Some?
            && FileAt(s'.disks[c.project].root.value, Stack(TrimSpace(c.req.name))) == Some(c.req.data)
  {
    hide WellKept, Run, SparedFrom, FileAt, Init, Stack, TrimSpace, DiskAfter, ReplyTo;
    var s' := Run(s, events);
    var c := s'.claims[i];
    OperationsSerialise(s, events);
    var d := s.disks[c.project];
    SaveKeeps(c.req.name, c.req.data, c.req.io, Serial(d, s'.claims[..i], c.project));
    SerialStep(d, s'.claims, i);
    SparedFileStays(d, s'.claims, i + 1, c.project, Stack(TrimSpace(c.req.name)), c.req.data);
  }

  lemma SerialStep(d: Disk, claims: seq<Claim>, i: nat)
    requires i < |claims|
    ensures var p := claims[i].project;
            Serial(d, claims[..i + 1], p) == DiskAfter(claims[i].req, Serial(d, claims[..i], p))
  {
    assert claims[..i + 1][..i] == claims[..i];
  }
}
