/** What a restore leaves in the volumes of a remote project, and what its answer says:
    RunUndoable of internal/api/project_handlers.go, SeedProjectBinds and writeTar of
    internal/docker/compose_binds.go, and handleRestoreRevision of
    internal/api/project_revisions_handlers.go. */
module RestoreSeeds {
  import opened Options
  import opened PathJail
  import opened ProjectFolder
  import opened Snapshots
  import opened ProjectSteps
  import opened RestoreSafety
  import opened RestoreOutcomes

  // ----- what the volumes hold -----

  /** What stands at `p` in the project is found at `q` in the volume. */
  predicate StandsFor(b: Bind, p: Path, q: Path) {
    q != [] && if b.isFile then b.rel != [] && p == b.rel && q == [b.rel[|b.rel| - 1]] else p == b.rel + q
  }

  /** Something of the project stands at that place of the volume. */
  ghost predicate Covered(b: Bind, folder: Folder, q: Path) {
    exists p :: StandsFor(b, p, q) && p in folder
  }

  lemma ShippedIs(f: Folder, b: Bind, q: Path)
    ensures q in Shipped(f, b) <==> Covered(b, f, q)
    ensures forall p :: StandsFor(b, p, q) && p in f ==> q in Shipped(f, b) && Shipped(f, b)[q] == f[p]
  {
    if b.isFile {
      if b.rel != [] && b.rel in f && q == [b.rel[|b.rel| - 1]] { assert StandsFor(b, b.rel, q); }
    } else {
      if q in Shipped(f, b) {
        var p :| p in f && |b.rel| < |p| && p[..|b.rel|] == b.rel && q == p[|b.rel|..];
        assert p == b.rel + q;
        assert StandsFor(b, p, q);
      }
      forall p | StandsFor(b, p, q) && p in f ensures q in Shipped(f, b) && Shipped(f, b)[q] == f[p] {
        assert p[..|b.rel|] == b.rel && p[|b.rel|..] == q;
      }
    }
  }

  /** After a restore that answers done every bound volume holds, in its place, all that the
      restored folder has to ship to it; whatever else it held is still there; and no other
      volume has changed. */
  lemma DoneRestoreSeedsTheVolumes(plan: Plan, d0: Disk, v: string, q: Path)
    requires ReplyTo(Restore(plan), d0).Done?
    ensures var d := DiskAfter(Restore(plan), d0);
            && d.root.Some?
            && (plan.seed.None? || v !in plan.seed.value.binds ==>
                  (v in d.volumes <==> v in d0.volumes) && (v in d.volumes ==> d.volumes[v] == d0.volumes[v]))
            && (plan.seed.Some? && v in plan.seed.value.binds ==>
                  var b := plan.seed.value.binds[v];
                  && v in d.volumes
                  && (forall p :: StandsFor(b, p, q) && p in d.root.value ==>
                        q in d.volumes[v] && d.volumes[v][q] == d.root.value[p])
                  && (!Covered(b, d.root.value, q) ==>
                        && (q in d.volumes[v] <==> v in d0.volumes && q in d0.volumes[v])
                        && (q in d.volumes[v] ==> d.volumes[v][q] == d0.volumes[v][q])))
  {
    hide Rest, Restored, Shipped, StandsFor, Covered, ReplyTo;
    RestoreIsAllOrNothing(plan, d0);
    if plan.seed.Some? && v in plan.seed.value.binds {
      ShippedIs(Restored(plan, d0.staging), plan.seed.value.binds[v], q);
    }
  }

  /** A bound volume then holds the restored files and nothing else exactly when it did not
      hold anything else before. */
  lemma VolumeIsTheRevisionIff(plan: Plan, d0: Disk, v: string)
    requires ReplyTo(Restore(plan), d0).Done? && plan.seed.Some? && v in plan.seed.value.binds
    ensures var d, b := DiskAfter(Restore(plan), d0), plan.seed.value.binds[v];
            && v in d.volumes && d.root.Some?
            && ((forall q :: q in d.volumes[v] ==> Covered(b, d.root.value, q))
                <==> (v in d0.volumes ==> forall q :: q in d0.volumes[v] ==> Covered(b, d.root.value, q)))
  {
    hide StandsFor, Covered, ReplyTo, DiskAfter;
    DoneRestoreSeedsTheVolumes(plan, d0, v, []);
    forall q ensures var d, b := DiskAfter(Restore(plan), d0), plan.seed.value.binds[v];
                     !Covered(b, d.root.value, q) ==> (q in d.volumes[v] <==> v in d0.volumes && q in d0.volumes[v])
    {
      DoneRestoreSeedsTheVolumes(plan, d0, v, q);
    }
  }

  /** A file the volume got from a later version of the project stays in it, whatever the
      restored compose file says. */
  lemma LaterFilesStayInVolumes(compose: Bytes) returns (plan: Plan, d0: Disk)
    requires |compose| <= MAX_FILE_BYTES
    ensures plan.revision == Some([ComposeEntry(compose)]) && ReplyTo(Restore(plan), d0).Done?
    ensures DiskAfter(Restore(plan), d0).root == Some(WithCompose(map[], compose))
    ensures "v" in DiskAfter(Restore(plan), d0).volumes && ["later"] in DiskAfter(Restore(plan), d0).volumes["v"]
  {
    var whole := Bind([], false);
    var held: Folder := map[["later"] := File([])];
    plan := Plan(Some([ComposeEntry(compose)]), Gone, Gone, true, true, true, true, false, NoPin, true,
                 Some(Seed(map["v" := whole], true, None, None)), true, true, true, true, true, Gone, Gone, Gone);
    d0 := Disk(None, None, None, map["v" := held], false, false, false);
    assert Succeeds(plan, d0);
    hide Rest, Restored, Succeeds, Extracted, ReplyTo, DiskAfter, VolumesAfter;
    ComposeUnpacks(map[], compose);
    RestoredFromNothing(plan, plan.revision.value);
    hide ComposeEntry;
    RestoreIsDoneIff(plan, d0);
    RestoreIsAllOrNothing(plan, d0);
    NotCovered(compose);
    DoneRestoreSeedsTheVolumes(plan, d0, "v", ["later"]);
  }

  lemma NotCovered(compose: Bytes)
    ensures !Covered(Bind([], false), WithCompose(map[], compose), ["later"])
  {
    assert "later"[0] != "compose.yml"[0];
    assert [] + ["later"] == ["later"];
  }
}
