/** Exactly when the editor's requests are refused and when they are done:
    handleWriteProjectFile, handleUploadProjectFileRaw, handleDeleteProjectFile and
    handleMakeProjectDir of internal/api/project_handlers.go. */
module EditorAnswers {
  import opened Options
  import opened PathJail
  import opened ProjectFolder
  import opened ProjectSteps

  /** The name is accepted, and neither the project nor the way to the path is missing or
      blocked by a file. */
  predicate Reachable(d: Disk, name: string) {
    && d.root.Some? && Lexical(name).Some?
    && forall i :: 0 < i < |PathOf(name)| && PathOf(name)[..i] in d.root.value ==> d.root.value[PathOf(name)[..i]].Dir?
  }

  function PathOf(name: string): Path {
    Stack(TrimSpace(name))
  }

  lemma ResolvesIffReachable(d: Disk, name: string)
    ensures Resolve(d.root, name) == if Reachable(d, name) then Some(PathOf(name)) else None
  {
    hide Lexical, Stack, TrimSpace;
  }

  /** A save is refused exactly when its content is over a mebibyte, its name leads nowhere,
      or it would be a new file in a project that has a hundred. It is done exactly when it
      is not refused, no folder stands there, and the write works; making the folders above
      cannot fail for a path that has none. */
  lemma SaveAnswers(name: string, data: Bytes, io: WriteFault, d: Disk)
    ensures var (p, reply) := (PathOf(name), ReplyTo(Save(name, data, io), d));
            && (reply.Refused? <==>
                  || |data| > 0x10_0000 || !Reachable(d, name)
                  || (p != [] && p !in d.root.value
                      && |set q | q in d.root.value && d.root.value[q].File?| >= 100))
            && (reply.Done? <==>
                  && !reply.Refused? && p != [] && !(p in d.root.value && d.root.value[p].Dir?)
                  && (io.Works? || (io.ParentsFail? && |p| == 1)))
  {
    hide Rest, Lexical, Stack, TrimSpace, Reachable, Resolve, ThroughFile;
    SaveRuns(name, data, io, d);
    ResolvesIffReachable(d, name);
    if Reachable(d, name) { assert d.root.Some? by { ReachableHasRoot(d, name); } }
    if !BeginWrite(name, data, d).Finished? {
      WriteWorksIff(d.root.value, PathOf(name), data, io);
    }
  }

  lemma ReachableHasRoot(d: Disk, name: string)
    requires Reachable(d, name)
    ensures d.root.Some?
  {
  }

  lemma WriteWorksIff(f: Folder, p: Path, data: Bytes, io: WriteFault)
    ensures WriteFile(f, p, data, io).1 <==>
              p != [] && !(p in f && f[p].Dir?) && (io.Works? || (io.ParentsFail? && |p| == 1))
  {
    ParentsAreShorter(p);
  }

  /** A delete is refused exactly when its name leads nowhere, and done exactly when it is
      not refused, does not name the project itself, and what stands there, if anything, has
      nothing below it and can be removed. */
  lemma DeleteAnswers(name: string, works: bool, d: Disk)
    ensures var (p, reply) := (PathOf(name), ReplyTo(Delete(name, works), d));
            && (reply.Refused? <==> !Reachable(d, name))
            && (reply.Done? <==>
                  && Reachable(d, name) && p != []
                  && (p in d.root.value ==>
                        works && forall q :: q in d.root.value && |p| < |q| ==> q[..|p|] != p))
  {
    hide Rest, Lexical, Stack, TrimSpace, Reachable, Resolve;
    OneStepRequest(Delete(name, works), d);
    ResolvesIffReachable(d, name);
    if Reachable(d, name) { ReachableHasRoot(d, name); }
  }

  /** A new folder is refused exactly when its name leads nowhere, and done exactly when it is
      not refused, no file stands there and it can be made; one that is there already counts
      as made. */
  lemma MkdirAnswers(name: string, fails: Option<nat>, d: Disk)
    ensures var (p, reply) := (PathOf(name), ReplyTo(Mkdir(name, fails), d));
            && (reply.Refused? <==> !Reachable(d, name))
            && (reply.Done? <==>
                  Reachable(d, name) && !(p in d.root.value && d.root.value[p].File?) && fails.None?)
  {
    hide Rest, Lexical, Stack, TrimSpace, Reachable, Resolve, WithParents, WithSomeParents;
    OneStepRequest(Mkdir(name, fails), d);
    ResolvesIffReachable(d, name);
    if Reachable(d, name) { ReachableHasRoot(d, name); }
  }
}
