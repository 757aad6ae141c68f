/** The log of the sign-in machine tells the truth: each event says what the accounts,
    factors, tables and rows really held at the step that logged it, so what a session rests
    on was so. internal/auth/service.go, webauthn.go, passwordless.go and middleware.go. */
module SignInFacts {
  import opened BoundedSweep
  import opened Options
  import opened SignIn
  import opened SignInSafety
  import opened SignInTheorems
  import ChallengeStore
  import Ceremonies

  /** The account's record as it stands: protected means it has a factor of any kind. */
  ghost predicate IsRecord(s: State, u: int, rec: Record) {
    && u in s.accounts
    && rec.epoch == s.accounts[u].epoch
    && rec.local == s.accounts[u].local && rec.passwordless == s.accounts[u].passwordless
    && (rec.protected <==> exists f :: f in s.factors && s.factors[f].owner == u)
  }

  predicate IsFactor(s: State, u: int, f: int, totp: bool) {
    f in s.factors && s.factors[f].owner == u && s.factors[f].totp == totp
  }

  predicate Waits(open: Ceremonies.Open, key: string, serial: int, now: int) {
    key in open && open[key].serial == serial && now <= open[key].expires
  }

  predicate Unexpired(t: Token, now: int) {
    t.expiry.Some? ==> now < t.expiry.value
  }

  /** What must hold at the step that logs an event. */
  ghost predicate Holds(s: State, op: Op, e: Event) {
    match e
    case PasswordOk(r, u, rec, exempt) => op == PasswordCheck(r, u, exempt) && IsRecord(s, u, rec)
    case Challenged(r, u, id) => op.AnswerLogin? && op.req == r && id != "" && id !in s.ids
    case Spent(r, u, id, expiry, at) =>
      op.Spend? && op.req == r && id != "" && at == s.now && (id in s.seen ==> s.seen[id] <= s.now)
    case Took(r, key, serial) => Waits(s.open, key, serial, s.now) || Waits(s.publicOpen, key, serial, s.now)
    case UserRead(r, u, rec) => IsRecord(s, u, rec)
    case Burnt(r, u, f, c) => op == Burn(r, f, c) && IsFactor(s, u, f, true) && s.factors[f].counter < c
    case Verified(r, u, _, f) => op == Verify(r, f) && IsFactor(s, u, f, false)
    case VerifiedAlone(r, u, rec, _, f, uv) =>
      op == VerifyAlone(r, f, uv) && IsFactor(s, u, f, false) && IsRecord(s, u, rec)
    case Session(r, _, _, _, _) => op == CreateRow(r)
    case Bumped(u) => u in s.accounts
    case EpochCheck(r, t, ok) =>
      && op == CheckEpoch(r, t) && t.session && Unexpired(t, s.now)
      && t.user in s.accounts && (ok <==> s.accounts[t.user].epoch == t.epoch)
    case Admitted(r, t) => op == CheckRow(r) && t.id in s.rows && s.rows[t.id] == t.user
    case OwnPasswordOk(r, u, rec) => op == ProveOwn(r) && IsRecord(s, u, rec)
  }

  /** The step logs nothing, or one event that holds. */
  ghost predicate LogsTruth(s: State, op: Op, s': State) {
    s'.log == s.log || (|s'.log| == |s.log| + 1 && s'.log[..|s.log|] == s.log && Holds(s, op, s'.log[|s.log|]))
  }

  lemma RecordIsTrue(s: State, u: int)
    requires u in s.accounts
    ensures IsRecord(s, u, RecordOf(s, u))
  {
  }

  lemma LogGrows(log: seq<Event>, e: Event)
    ensures |log + [e]| == |log| + 1 && (log + [e])[..|log|] == log && (log + [e])[|log|] == e
  {
  }

  lemma AccountTruth(s: State, op: Op)
    ensures LogsTruth(s, op, AccountStep(s, op))
  {
    hide WithoutRowsOf;
    if op.Bump? { LogGrows(s.log, Bumped(op.user)); }
  }

  lemma LoginTruth(s: State, op: Op)
    ensures LogsTruth(s, op, LoginStep(s, op))
  {
    hide RecordOf, IsRecord;
    if op.PasswordCheck? && op.user in s.accounts { RecordIsTrue(s, op.user); }
  }

  lemma SpendTruth(s: State, op: Op)
    requires op.Parse? || op.Spend?
    ensures LogsTruth(s, op, FactorStep(s, op))
  {
  }

  lemma TakeTruth(s: State, op: Op)
    requires op.TakeForLogin?
    ensures LogsTruth(s, op, FactorStep(s, op))
  {
  }

  lemma ReadTruth(s: State, op: Op)
    requires op.ReadUser?
    ensures LogsTruth(s, op, FactorStep(s, op))
  {
    hide RecordOf, IsRecord;
    if op.req in s.reqs && (s.reqs[op.req].HasSpent? || s.reqs[op.req].HasTaken?)
       && s.reqs[op.req].token.user in s.accounts {
      RecordIsTrue(s, s.reqs[op.req].token.user);
    }
  }

  lemma ProofTruth(s: State, op: Op)
    requires op.Burn? || op.Verify?
    ensures LogsTruth(s, op, FactorStep(s, op))
  {
  }

  lemma FactorTruth(s: State, op: Op)
    ensures LogsTruth(s, op, FactorStep(s, op))
  {
    hide LogsTruth;
    if op.Parse? || op.Spend? {
      SpendTruth(s, op);
    } else if op.TakeForLogin? {
      TakeTruth(s, op);
    } else if op.ReadUser? {
      ReadTruth(s, op);
    } else if op.Burn? || op.Verify? {
      ProofTruth(s, op);
    } else {
      NothingLogged(s, op);
    }
  }

  lemma NothingLogged(s: State, op: Op)
    ensures LogsTruth(s, op, s)
  {
    hide Holds;
  }

  lemma BeginTruth(s: State, op: Op)
    requires op.BeginPasskeyLogin? || op.BeginAlone?
    ensures LogsTruth(s, op, CeremonyStep(s, op))
  {
    hide Holds;
  }

  lemma AloneTruth(s: State, op: Op)
    requires op.TakeAlone? || op.VerifyAlone?
    ensures LogsTruth(s, op, CeremonyStep(s, op))
  {
    hide RecordOf, IsRecord;
    if op.VerifyAlone? && op.factor in s.factors && s.factors[op.factor].owner in s.accounts {
      RecordIsTrue(s, s.factors[op.factor].owner);
    }
  }

  lemma CeremonyTruth(s: State, op: Op)
    ensures LogsTruth(s, op, CeremonyStep(s, op))
  {
    if op.BeginPasskeyLogin? || op.BeginAlone? {
      hide LogsTruth;
      BeginTruth(s, op);
    } else if op.TakeAlone? || op.VerifyAlone? {
      hide LogsTruth;
      AloneTruth(s, op);
    } else {
      hide LogsTruth;
      NothingLogged(s, op);
    }
  }

  lemma IssueTruth(s: State, op: Op)
    requires op.Mint? || op.CreateRow?
    ensures LogsTruth(s, op, SessionStep(s, op))
  {
  }

  lemma EpochTruth(s: State, op: Op)
    requires op.CheckEpoch?
    ensures LogsTruth(s, op, SessionStep(s, op))
  {
    var (r, t) := (op.req, op.token);
    LogGrows(s.log, EpochCheck(r, t, true));
    LogGrows(s.log, EpochCheck(r, t, false));
  }

  lemma RowTruth(s: State, op: Op)
    requires op.CheckRow?
    ensures LogsTruth(s, op, SessionStep(s, op))
  {
  }

  lemma SessionTruth(s: State, op: Op)
    ensures LogsTruth(s, op, SessionStep(s, op))
  {
    hide LogsTruth;
    if op.Mint? || op.CreateRow? {
      IssueTruth(s, op);
    } else if op.CheckEpoch? {
      EpochTruth(s, op);
    } else if op.CheckRow? {
      RowTruth(s, op);
    } else {
      NothingLogged(s, op);
    }
  }

  lemma ChangeTruth(s: State, op: Op)
    ensures op.ProveOwn? || op.DropOwn? || op.BumpOwn? || op.Reread? ==> LogsTruth(s, op, ChangeStep(s, op))
  {
    hide RecordOf, IsRecord, WithoutRowsOf;
    if (op.ProveOwn? || op.Reread?) && op.req in s.reqs && (s.reqs[op.req].InSession? || s.reqs[op.req].EpochMoved?)
       && s.reqs[op.req].token.user in s.accounts {
      RecordIsTrue(s, s.reqs[op.req].token.user);
    }
  }

  lemma StepLogsTruth(s: State, op: Op)
    ensures LogsTruth(s, op, Step(s, op))
  {
    hide AccountStep, LoginStep, FactorStep, CeremonyStep, SessionStep, ChangeStep, LogsTruth;
    AccountTruth(s, op);
    LoginTruth(s, op);
    FactorTruth(s, op);
    CeremonyTruth(s, op);
    SessionTruth(s, op);
    ChangeTruth(s, op);
  }

  // ----- settings -----

  /** A change of an account's settings takes hold at once, and in no other account. */
  lemma SettingsTakeHold(s: State, u: int, on: bool)
    requires u in s.accounts
    ensures Step(s, SetPasswordless(u, on)).accounts == s.accounts[u := s.accounts[u].(passwordless := on)]
    ensures Step(s, SetSource(u, on)).accounts == s.accounts[u := s.accounts[u].(local := on)]
  {
    hide LoginStep, FactorStep, CeremonyStep, SessionStep, ChangeStep;
  }

  /** A factor that is paired protects its account and no other. */
  lemma PairingProtects(s: State, u: int, other: int, totp: bool)
    requires u in s.accounts && other in s.accounts && other != u && s.nextFactor !in s.factors
    ensures var s' := Step(s, Pair(u, totp));
            && IsFactor(s', u, s.nextFactor, totp) && RecordOf(s', u).protected
            && RecordOf(s', other) == RecordOf(s, other)
  {
    hide LoginStep, FactorStep, CeremonyStep, SessionStep, ChangeStep;
    var s' := Step(s, Pair(u, totp));
    assert s'.factors == s.factors[s.nextFactor := Factor(u, totp, 0)] && s'.accounts == s.accounts;
    assert s.nextFactor in s'.factors && s'.factors[s.nextFactor].owner == u;
    forall f
      ensures (f in s'.factors && s'.factors[f].owner == other) <==> (f in s.factors && s.factors[f].owner == other)
    {
    }
  }

  lemma UnpairingRemoves(s: State, f: int)
    ensures Step(s, Unpair(f)).factors == s.factors - {f}
  {
    hide LoginStep, FactorStep, CeremonyStep, SessionStep, ChangeStep;
  }

  // ----- whole runs -----

  /** Every event of a run was true of the machine at the step that logged it. */
  lemma {:induction false} EveryEventWasTrue(s: State, ops: seq<Op>, i: nat) returns (n: nat)
    requires Init(s) && i < |Run(s, ops).log|
    ensures n < |ops| && Run(s, ops[..n]).log == Run(s, ops).log[..i]
    ensures Holds(Run(s, ops[..n]), ops[n], Run(s, ops).log[i])
  {
    hide Step, Holds, Init;
    assert ops != [] by { if ops == [] { StartsEmpty(s); } }
    var m := |ops| - 1;
    var before := Run(s, ops[..m]);
    StepLogsTruth(before, ops[m]);
    if i < |before.log| {
      n := EveryEventWasTrue(s, ops[..m], i);
      assert ops[..m][..n] == ops[..n];
    } else {
      n := m;
    }
  }

  lemma StartsEmpty(s: State)
    requires Init(s)
    ensures s.log == []
  {
  }

  /** What the request of a session did, and found, at the step that decided it. */
  ghost predicate Decided(s: State, op: Op, e: Event)
    requires e.Session?
  {
    match e.via
    case Password(exempt) =>
      op == PasswordCheck(e.req, e.user, exempt) && e.user in s.accounts
      && (exempt || forall f :: f in s.factors ==> s.factors[f].owner != e.user)
    case Totp(_, _, _, f, c) => op == Burn(e.req, f, c) && IsFactor(s, e.user, f, true) && s.factors[f].counter < c
    case Passkey(_, _, _, _, f) => op == Verify(e.req, f) && IsFactor(s, e.user, f, false)
    case KeyAlone(_, _, f) =>
      && op == VerifyAlone(e.req, f, true) && IsFactor(s, e.user, f, false)
      && e.user in s.accounts && s.accounts[e.user].local && s.accounts[e.user].passwordless
    case Change(_, _) => op == ProveOwn(e.req) && e.user in s.accounts && s.accounts[e.user].local
  }

  /** The event that decided a session, among those behind it. */
  function DecidingEvent(e: Event): Event
    requires e.Session?
  {
    match e.via
    case Password(exempt) => PasswordOk(e.req, e.user, e.rec, exempt)
    case Totp(_, _, _, f, c) => Burnt(e.req, e.user, f, c)
    case Passkey(_, _, _, serial, f) => Verified(e.req, e.user, serial, f)
    case KeyAlone(_, serial, f) => VerifiedAlone(e.req, e.user, e.rec, serial, f, true)
    case Change(_, known) => OwnPasswordOk(e.req, e.user, known)
  }

  lemma DecidingIsBehind(base: map<int, Account>, log: seq<Event>, i: nat) returns (k: nat)
    requires AllSound(base, log) && i < |log| && log[i].Session?
    ensures k < i && log[k] == DecidingEvent(log[i])
    ensures Enough(log[i].user, log[i].rec, log[i].via)
  {
    hide Trail;
    var e := log[i];
    assert Sound(base, log[..i], e);
    var es, d := TrailOf(e.req, e.user, e.rec, e.via), DecidingEvent(e);
    assert d in es by {
      match e.via
      case Password(_) => assert es[0] == d;
      case Totp(_, _, _, _, _) => assert es[2] == d;
      case Passkey(_, _, _, _, _) => assert es[3] == d;
      case KeyAlone(_, _, _) => assert es[1] == d;
      case Change(_, _) => assert es[2] == d;
    }
    TrailHas(log[..i], es, d);
    k :| k < i && log[..i][k] == d;
  }

  /** Every session was decided by a step of its own request at which it was in order: a
      password entry for an account without any factor, or exempt; a fresh code of an app, or
      an assertion of a passkey, that the account then had; for a passwordless sign-in also
      an account that was local and had opted in; for a change an account that was local. */
  lemma SessionsRestOnFacts(s: State, ops: seq<Op>, i: nat) returns (n: nat)
    requires Init(s) && i < |Run(s, ops).log| && Run(s, ops).log[i].Session?
    ensures n < |ops| && |Run(s, ops[..n]).log| < i
    ensures Decided(Run(s, ops[..n]), ops[n], Run(s, ops).log[i])
  {
    hide Run, Init, Trail, AllSound;
    RunInv(s, ops);
    var log := Run(s, ops).log;
    var k := DecidingIsBehind(s.accounts, log, i);
    n := EveryEventWasTrue(s, ops, k);
    ChangeIsLocal(s.accounts, log, i, k);
  }

  lemma ChangeIsLocal(base: map<int, Account>, log: seq<Event>, i: nat, k: nat)
    requires AllSound(base, log) && i < |log| && log[i].Session? && k < i && log[k] == DecidingEvent(log[i])
    ensures log[i].via.Change? ==> log[i].via.known.local
  {
    hide Trail;
    assert Sound(base, log[..k], log[k]);
  }
}
