/** The deploy policy gate: evaluateDeployPolicy and policyCheckOrRefuse of
    internal/api/policy_handlers.go, its second use in internal/api/mcp_projects.go, and
    the order of effects on the three deploy paths. */
module PolicyGate {
  import opened Options
  import opened ProjectFolder
  import opened ProjectSteps
  import opened RestoreSafety
  import opened ProjectHandlers
  import opened Picks

  datatype Mode = Off | Warn | Block | Unknown

  datatype Violation = Violation(rule: string, service: string, mode: Mode)

  /** What the gate finds out: the rules' modes, whether the compose model resolves, and
      what evaluating it against the rules says. A missing value is a failure. */
  datatype Facts = Facts(modes: Option<map<string, Mode>>, configOk: bool, violations: Option<seq<Violation>>)

  predicate SomeRule(modes: map<string, Mode>, mode: Mode) {
    exists id :: id in modes && modes[id] == mode
  }

  predicate SomeEnabled(modes: map<string, Mode>) {
    exists id :: id in modes && modes[id] != Off
  }

  predicate Evaluated(f: Facts) {
    f.configOk && f.violations.Some?
  }

  predicate Has(violations: seq<Violation>, mode: Mode) {
    exists i :: 0 <= i < |violations| && violations[i].mode == mode
  }

  /** When a deploy must not go ahead. */
  predicate Refuses(f: Facts, confirmed: bool) {
    || f.modes.None?
    || (SomeEnabled(f.modes.value) &&
        if Evaluated(f) then Has(f.violations.value, Block) || (Has(f.violations.value, Warn) && !confirmed)
        else SomeRule(f.modes.value, Block))
  }

  /** The violations of a mode, in order. */
  function Of(violations: seq<Violation>, mode: Mode): (r: seq<Violation>)
    ensures r != [] <==> Has(violations, mode)
    ensures forall v :: v in r <==> v in violations && v.mode == mode
  {
    if violations == [] then []
    else
      var n := |violations| - 1;
      var before := Of(violations[..n], mode);
      assert violations == violations[..n] + [violations[n]];
      assert Has(violations[..n], mode) ==> Has(violations, mode) by {
        if i :| 0 <= i < n && violations[..n][i].mode == mode { assert violations[i].mode == mode; }
      }
      assert Has(violations, mode) && violations[n].mode != mode ==> Has(violations[..n], mode) by {
        if i :| 0 <= i < n && violations[i].mode == mode { assert violations[..n][i].mode == mode; }
      }
      if violations[n].mode == mode then before + [violations[n]] else before
  }

  /** They are the violations of that mode, each at its place, in order and once. */
  lemma {:induction false} OfPicks(violations: seq<Violation>, mode: Mode) returns (at: seq<nat>)
    ensures PickedAt(violations, Of(violations, mode), at)
    ensures forall i :: i in at <==> 0 <= i < |violations| && violations[i].mode == mode
  {
    if violations == [] {
      at := [];
    } else {
      var n := |violations| - 1;
      at := OfPicks(violations[..n], mode);
      PickNext(violations, Of(violations[..n], mode), at, n);
      if violations[n].mode == mode { at := at + [n]; }
    }
  }

  /** The gate's own answer: failed closed, or what blocks and what only warns. */
  method EvaluateDeployPolicy(f: Facts) returns (blocked: seq<Violation>, warned: seq<Violation>, failed: bool)
    ensures failed <==> f.modes.None? || (!Evaluated(f) && SomeRule(f.modes.value, Block))
    ensures if !failed && SomeEnabled(f.modes.value) && Evaluated(f)
            then blocked == Of(f.violations.value, Block) && warned == Of(f.violations.value, Warn)
            else blocked == [] && warned == []
    ensures (blocked, warned, failed) == Evaluation(f)
  {
    blocked, warned, failed := [], [], false;
    if f.modes.None? { return [], [], true; }
    var modes := f.modes.value;
    var anyEnabled, anyBlock := false, false;
    var todo := modes.Keys;
    while todo != {}
      invariant todo <= modes.Keys
      invariant anyEnabled <==> exists id :: id in modes && id !in todo && modes[id] != Off
      invariant anyBlock <==> exists id :: id in modes && id !in todo && modes[id] == Block
      decreases |todo|
    {
      var id :| id in todo;
      todo := todo - {id};
      if modes[id] != Off { anyEnabled := true; }
      if modes[id] == Block { anyBlock := true; }
    }
    assert anyEnabled == SomeEnabled(modes) && anyBlock == SomeRule(modes, Block);
    assert SomeRule(modes, Block) ==> SomeEnabled(modes);
    if !anyEnabled { return [], [], false; }
    if !f.configOk { return [], [], anyBlock; }
    if f.violations.None? { return [], [], anyBlock; }
    var violations := f.violations.value;
    for i := 0 to |violations|
      invariant blocked == Of(violations[..i], Block) && warned == Of(violations[..i], Warn)
    {
      assert violations[..i + 1][..i] == violations[..i];
      match violations[i].mode
      case Block => blocked := blocked + [violations[i]];
      case Warn => warned := warned + [violations[i]];
      case _ =>
    }
    assert violations[..|violations|] == violations;
  }

  /** policyCheckOrRefuse, for the REST deploy and the restore. */
  method PolicyCheckOrRefuse(f: Facts, confirmed: bool) returns (refused: bool)
    ensures refused <==> Refuses(f, confirmed)
    ensures refused <==>
              || f.modes.None?
              || ((exists id :: id in f.modes.value && f.modes.value[id] != Off)
                  && if f.configOk && f.violations.Some? then
                       || (exists i :: 0 <= i < |f.violations.value| && f.violations.value[i].mode == Block)
                       || (!confirmed
                           && exists i :: 0 <= i < |f.violations.value| && f.violations.value[i].mode == Warn)
                     else exists id :: id in f.modes.value && f.modes.value[id] == Block)
  {
    var blocked, warned, failed := EvaluateDeployPolicy(f);
    assert !failed && !SomeEnabled(f.modes.value) ==> !SomeRule(f.modes.value, Block);
    if failed { return true; }
    if |blocked| > 0 { return true; }
    if |warned| > 0 && !confirmed { return true; }
    return false;
  }

  // ----- the paths -----

  datatype Effect = Passed | RemoteSeed | ComposeUp

  /** One deploy request and everything it will be told on the way: `access` is the host
      check only the REST handler makes, `seed` how the seed goes where there is one. */
  datatype Call = Call(found: bool, free: bool, composeOk: bool, access: bool, envOk: bool,
                       facts: Facts, confirmed: bool, seed: Option<bool>, upOk: bool)

  predicate Reaches(c: Call) {
    c.found && c.free && c.composeOk && c.envOk
  }

  /** No seed and no compose-up before a passed gate. */
  predicate GateFirst(effects: seq<Effect>) {
    forall i :: 0 <= i < |effects| && effects[i] != Passed ==> Passed in effects[..i]
  }

  /** Nothing happens twice, and a seed comes before the compose-up. */
  predicate SeedFirst(effects: seq<Effect>) {
    && (forall i, j :: 0 <= i < j < |effects| ==> effects[i] != effects[j])
    && forall i, j :: 0 <= i < |effects| && 0 <= j < |effects| ==>
         effects[i] == RemoteSeed && effects[j] == ComposeUp ==> i < j
  }

  /** A deploy seeds when it has something to seed and deploys when that worked, and neither
      if it never got to the gate or the gate refused. */
  predicate Honours(effects: seq<Effect>, c: Call, reaches: bool) {
    && GateFirst(effects) && SeedFirst(effects)
    && (Passed in effects <==> reaches && !Refuses(c.facts, c.confirmed))
    && (RemoteSeed in effects <==> reaches && !Refuses(c.facts, c.confirmed) && c.seed.Some?)
    && (ComposeUp in effects <==> reaches && !Refuses(c.facts, c.confirmed) && c.seed != Some(false))
  }

  /** What a deploy does once past the gate. */
  function AfterGate(c: Call): (bool, seq<Effect>) {
    match c.seed
    case None => (c.upOk, [Passed, ComposeUp])
    case Some(ok) => if ok then (c.upOk, [Passed, RemoteSeed, ComposeUp]) else (false, [Passed, RemoteSeed])
  }

  /** handleDeployProject: its result and its effects. */
  function RestOutcome(c: Call): (bool, seq<Effect>) {
    if !c.found || !c.free || !c.composeOk || !c.access || !c.envOk || Refuses(c.facts, c.confirmed) then (false, [])
    else AfterGate(c)
  }

  /** The gate's own answer, as EvaluateDeployPolicy gives it. */
  function Evaluation(f: Facts): (seq<Violation>, seq<Violation>, bool) {
    if f.modes.None? then ([], [], true)
    else if !SomeEnabled(f.modes.value) then ([], [], false)
    else if !Evaluated(f) then ([], [], SomeRule(f.modes.value, Block))
    else (Of(f.violations.value, Block), Of(f.violations.value, Warn), false)
  }

  /** mcpDeployProject, in its own order and with its own reading of the gate's answer. */
  function McpOutcome(c: Call): (bool, seq<Effect>) {
    var (blocked, warned, failed) := Evaluation(c.facts);
    if !c.composeOk || !c.found || !c.free || !c.envOk then (false, [])
    else if failed || |blocked| > 0 || (|warned| > 0 && !c.confirmed) then (false, [])
    else AfterGate(c)
  }

  lemma PassedFirst(effects: seq<Effect>)
    requires effects != [] && effects[0] == Passed
    ensures GateFirst(effects)
  {
    forall i | 0 <= i < |effects| && effects[i] != Passed ensures Passed in effects[..i] {
      assert effects[..i][0] == Passed;
    }
  }

  /** handleDeployProject. */
  method RestDeploy(c: Call) returns (ok: bool, effects: seq<Effect>)
    ensures (ok, effects) == RestOutcome(c)
    ensures ok <==>
              && c.found && c.free && c.composeOk && c.access && c.envOk
              && !Refuses(c.facts, c.confirmed) && c.seed != Some(false) && c.upOk
    ensures Honours(effects, c, Reaches(c) && c.access)
  {
    ok, effects := false, [];
    if !c.found || !c.free || !c.composeOk || !c.access || !c.envOk { return; }
    var refused := PolicyCheckOrRefuse(c.facts, c.confirmed);
    if refused { return; }
    effects := [Passed];
    if c.seed.Some? {
      effects := effects + [RemoteSeed];
      PassedFirst(effects);
      assert effects == [Passed, RemoteSeed];
      if !c.seed.value { return; }
    }
    effects := effects + [ComposeUp];
    assert effects == if c.seed.Some? then [Passed, RemoteSeed, ComposeUp] else [Passed, ComposeUp];
    PassedFirst(effects);
    ok := c.upOk;
  }

  /** mcpDeployProject, which reads the gate's answer itself. */
  method McpDeploy(c: Call) returns (ok: bool, effects: seq<Effect>)
    ensures (ok, effects) == McpOutcome(c)
    ensures ok <==>
              && c.found && c.free && c.composeOk && c.envOk
              && !Refuses(c.facts, c.confirmed) && c.seed != Some(false) && c.upOk
    ensures Honours(effects, c, Reaches(c))
  {
    ok, effects := false, [];
    if !c.composeOk { return; }
    if !c.found { return; }
    if !c.free { return; }
    if !c.envOk { return; }
    var blocked, warned, failed := EvaluateDeployPolicy(c.facts);
    EvaluationRefuses(c.facts, c.confirmed);
    if failed { return; }
    if |blocked| > 0 { return; }
    if |warned| > 0 && !c.confirmed { return; }
    effects := [Passed];
    if c.seed.Some? {
      effects := effects + [RemoteSeed];
      PassedFirst(effects);
      assert effects == [Passed, RemoteSeed];
      if !c.seed.value { return; }
    }
    effects := effects + [ComposeUp];
    assert effects == if c.seed.Some? then [Passed, RemoteSeed, ComposeUp] else [Passed, ComposeUp];
    PassedFirst(effects);
    ok := c.upOk;
  }

  /** Read the way the MCP deploy reads it, the gate's answer refuses exactly when a deploy
      must not go ahead. */
  lemma EvaluationRefuses(f: Facts, confirmed: bool)
    ensures var (blocked, warned, failed) := Evaluation(f);
            Refuses(f, confirmed) <==> failed || |blocked| > 0 || (|warned| > 0 && !confirmed)
  {
    if f.modes.Some? && SomeRule(f.modes.value, Block) {
      var id :| id in f.modes.value && f.modes.value[id] == Block;
      assert SomeEnabled(f.modes.value);
    }
  }

  /** A REST and an MCP deploy of the same project on the same facts come to the same
      result by the same effects, wherever the REST caller may act on the host at all. */
  lemma DeploysAgree(c: Call)
    requires c.access
    ensures RestOutcome(c) == McpOutcome(c)
  {
    hide Of, Refuses, Evaluation;
    EvaluationRefuses(c.facts, c.confirmed);
  }

  /** The check fails open exactly when the modes are known and none of them blocks. */
  lemma FailsOpenIffNothingCouldBlock(f: Facts, confirmed: bool)
    requires f.modes.None? || !Evaluated(f)
    ensures !Refuses(f, confirmed) <==> f.modes.Some? && !SomeRule(f.modes.value, Block)
  {
    if f.modes.Some? && SomeRule(f.modes.value, Block) {
      var id :| id in f.modes.value && f.modes.value[id] == Block;
      assert SomeEnabled(f.modes.value);
    }
  }

  /** Confirming lifts a refusal exactly when nothing but warnings stood against it. */
  lemma ConfirmingLiftsOnlyWarnings(f: Facts)
    ensures (Refuses(f, false) && !Refuses(f, true)) <==>
              && f.modes.Some? && SomeEnabled(f.modes.value) && Evaluated(f)
              && Has(f.violations.value, Warn) && !Has(f.violations.value, Block)
  {
  }

  // ----- the restore behind the same gate -----

  /** The course of a restore whose gate finds these facts. */
  function Facing(plan: Plan, f: Facts, confirmed: bool): Plan {
    plan.(gateOk := !Refuses(f, confirmed))
  }

  /** handleRestoreRevision with the gate it asks. */
  method RestoreUnderPolicy(host: ProjectHost, plan: Plan, f: Facts, confirmed: bool) returns (reply: Reply)
    modifies host
    ensures host.State() == DiskAfter(Restore(Facing(plan, f, confirmed)), old(host.State()))
    ensures reply == ReplyTo(Restore(Facing(plan, f, confirmed)), old(host.State()))
    ensures Refuses(f, confirmed) ==>
              host.root == old(host.root) && host.volumes == old(host.volumes) && !reply.Done?
  {
    hide Rest, Refuses;
    var refused := PolicyCheckOrRefuse(f, confirmed);
    ghost var before := host.State();
    reply := host.RestoreRevision(plan.(gateOk := !refused));
    RefusedRestoreEnds(plan, before, f, confirmed);
  }

  /** A restore whose facts refuse leaves the project folder and the volumes alone at every
      moment, and never gets as far as swapping, seeding or deploying. */
  lemma RefusedRestoreTouchesNothing(plan: Plan, d0: Disk, f: Facts, confirmed: bool, m: Moment)
    requires Refuses(f, confirmed) && m in Course(Restore(Facing(plan, f, confirmed)), Begin, d0)
    ensures m.disk.root == d0.root && m.disk.volumes == d0.volumes && !Swapping(m.pc) && !Live(m.pc)
  {
    hide Course, Refuses;
    NothingLiveBeforeTheGate(Facing(plan, f, confirmed), d0, m);
  }

  /** And it ends that way, without ever answering done. */
  lemma RefusedRestoreEnds(plan: Plan, d0: Disk, f: Facts, confirmed: bool)
    ensures Refuses(f, confirmed) ==>
              var req := Restore(Facing(plan, f, confirmed));
              DiskAfter(req, d0).root == d0.root && DiskAfter(req, d0).volumes == d0.volumes && !ReplyTo(req, d0).Done?
  {
    hide Refuses;
    hide Rest, Restored, VolumesAfter;
    RestoreIsAllOrNothing(Facing(plan, f, confirmed), d0);
  }
}
