/** The flows of the sign-in machine, each left alone, from any state in which it is in
    order: they lead to a session, and its token is let in. internal/auth/service.go,
    webauthn.go, passwordless.go and middleware.go. */
module SignInFlows {
  import opened BoundedSweep
  import opened Options
  import opened SignIn
  import opened SignInFacts
  import opened SignInLimits
  import opened SessionRows
  import ChallengeStore
  import Ceremonies

  /** The session is the last event, its row is there and its token is about. */
  ghost predicate SignedInBy(s: State, e: Event) {
    e.Session? && s.log != [] && s.log[|s.log| - 1] == e && HasRow(s.rows, e.token) && e.token in s.tokens
  }

  function TokenOf(s: State, id: string, user: int): Token
    requires user in s.accounts
  {
    Token(true, id, user, s.accounts[user].epoch, Some(s.now + 3600))
  }

  lemma IssueRuns(s: State, r: int, user: int, rec: Record, via: Via, id: string)
    requires r in s.reqs && s.reqs[r] == Issuing(user, rec, via) && id != "" && id !in s.ids
    ensures var e := Session(r, user, Token(true, id, user, rec.epoch, Some(s.now + 3600)), rec, via);
            SignedInBy(Step(Step(s, Mint(r, id, 3600)), CreateRow(r)), e)
  {
    hide Run, Step;
    SessionSteps(s, r, user, rec, via, id);
  }

  // ----- by password -----

  lemma EpochOfRecord(s: State, u: int)
    requires u in s.accounts
    ensures RecordOf(s, u).epoch == s.accounts[u].epoch
    ensures RecordOf(s, u).protected <==> exists f :: f in s.factors && s.factors[f].owner == u
  {
  }

  lemma PasswordStep(s: State, r: int, u: int, exempt: bool, rec: Record)
    requires r !in s.used && u in s.accounts && rec == RecordOf(s, u)
    ensures Step(s, PasswordCheck(r, u, exempt))
            == s.(used := s.used + {r}, reqs := s.reqs[r := LoggedIn(u, rec, exempt)],
                  log := s.log + [PasswordOk(r, u, rec, exempt)])
  {
    hide AccountStep, FactorStep, CeremonyStep, SessionStep, ChangeStep, RecordOf;
  }

  lemma GoOnStep(s: State, r: int, u: int, exempt: bool, rec: Record)
    requires r in s.reqs && s.reqs[r] == LoggedIn(u, rec, exempt) && (exempt || !rec.protected)
    ensures Step(s, AnswerLogin(r, "", 0)) == s.(reqs := s.reqs[r := Issuing(u, rec, Password(exempt))])
  {
    hide AccountStep, FactorStep, CeremonyStep, SessionStep, ChangeStep;
  }

  lemma ChallengeStep(s: State, r: int, u: int, rec: Record, id: string, ttl: nat)
    requires r in s.reqs && s.reqs[r] == LoggedIn(u, rec, false) && rec.protected && id != "" && id !in s.ids
    ensures Step(s, AnswerLogin(r, id, ttl))
            == s.(tokens := s.tokens + {Token(false, id, u, rec.epoch, Some(s.now + ttl))}, ids := s.ids + {id},
                  reqs := s.reqs - {r}, log := s.log + [Challenged(r, u, id)])
  {
    hide AccountStep, FactorStep, CeremonyStep, SessionStep, ChangeStep;
  }

  lemma PasswordIssues(s: State, r: int, u: int, exempt: bool, rec: Record) returns (s': State)
    requires r !in s.used && u in s.accounts && rec == RecordOf(s, u) && (exempt || !rec.protected)
    ensures s' == Step(Step(s, PasswordCheck(r, u, exempt)), AnswerLogin(r, "", 0))
    ensures r in s'.reqs && s'.reqs[r] == Issuing(u, rec, Password(exempt)) && s'.ids == s.ids && s'.now == s.now
  {
    hide Step, RecordOf;
    PasswordStep(s, r, u, exempt, rec);
    var s1 := Step(s, PasswordCheck(r, u, exempt));
    GoOnStep(s1, r, u, exempt, rec);
    s' := Step(s1, AnswerLogin(r, "", 0));
  }

  function PasswordLogin(r: int, u: int, exempt: bool, id: string): seq<Op> {
    [PasswordCheck(r, u, exempt), AnswerLogin(r, "", 0), Mint(r, id, 3600), CreateRow(r)]
  }

  lemma RunPasswordLogin(s: State, r: int, u: int, exempt: bool, id: string)
    ensures Run(s, PasswordLogin(r, u, exempt, id))
            == Step(Step(Step(Step(s, PasswordCheck(r, u, exempt)), AnswerLogin(r, "", 0)), Mint(r, id, 3600)),
                    CreateRow(r))
  {
    hide Step;
    Run4(s, PasswordCheck(r, u, exempt), AnswerLogin(r, "", 0), Mint(r, id, 3600), CreateRow(r));
  }

  /** A correct password signs an account in that has no factor or is exempt. */
  lemma PasswordSignsIn(s: State, r: int, u: int, exempt: bool, id: string)
    requires r !in s.used && u in s.accounts && id != "" && id !in s.ids
    requires exempt || forall f :: f in s.factors ==> s.factors[f].owner != u
    ensures SignedInBy(Run(s, PasswordLogin(r, u, exempt, id)),
                       Session(r, u, TokenOf(s, id, u), RecordOf(s, u), Password(exempt)))
  {
    hide Run, Step, RecordOf, SignedInBy, PasswordLogin;
    EpochOfRecord(s, u);
    var s2 := PasswordIssues(s, r, u, exempt, RecordOf(s, u));
    IssueRuns(s2, r, u, RecordOf(s, u), Password(exempt), id);
    RunPasswordLogin(s, r, u, exempt, id);
  }

  /** For any other account it only buys a challenge. */
  lemma PasswordBuysChallenge(s: State, r: int, u: int, id: string, ttl: nat, f: int)
    requires r !in s.used && u in s.accounts && id != "" && id !in s.ids
    requires f in s.factors && s.factors[f].owner == u
    ensures var s' := Run(s, [PasswordCheck(r, u, false), AnswerLogin(r, id, ttl)]);
            && s'.log == s.log + [PasswordOk(r, u, RecordOf(s, u), false), Challenged(r, u, id)]
            && s'.tokens == s.tokens + {Token(false, id, u, s.accounts[u].epoch, Some(s.now + ttl))}
            && r !in s'.reqs && s'.rows == s.rows
  {
    hide Run, Step, RecordOf;
    EpochOfRecord(s, u);
    Run2(s, PasswordCheck(r, u, false), AnswerLogin(r, id, ttl));
    PasswordStep(s, r, u, false, RecordOf(s, u));
    ChallengeStep(Step(s, PasswordCheck(r, u, false)), r, u, RecordOf(s, u), id, ttl);
  }

  // ----- by challenge and passkey -----

  lemma ParseStep(s: State, r: int, t: Token, passkey: bool)
    requires r !in s.used && t in s.tokens && !t.session && t.id != "" && t.expiry.Some? && s.now < t.expiry.value
    ensures Step(s, Parse(r, t, passkey)) == s.(used := s.used + {r}, reqs := s.reqs[r := Parsed(passkey, t)])
  {
    hide AccountStep, LoginStep, CeremonyStep, SessionStep, ChangeStep;
  }

  lemma SpendKeyStep(s: State, r: int, t: Token)
    requires r in s.reqs && s.reqs[r] == Parsed(true, t) && t.id != "" && t.expiry.Some?
    requires t.id in s.seen ==> s.seen[t.id] <= s.now
    ensures var s' := Step(s, Spend(r, {}));
            s' == s.(seen := s'.seen, reqs := s.reqs[r := HasSpent(true, t, s.now)],
                     log := s.log + [Spent(r, t.user, t.id, t.expiry.value, s.now)])
  {
    hide AccountStep, LoginStep, CeremonyStep, SessionStep, ChangeStep;
  }

  lemma TakeStep(s: State, r: int, t: Token, at: int, serial: int)
    requires r in s.reqs && s.reqs[r] == HasSpent(true, t, at) && Waits(s.open, LoginKey(t.id), serial, s.now)
    ensures Step(s, TakeForLogin(r))
            == s.(open := s.open - {LoginKey(t.id)}, reqs := s.reqs[r := HasTaken(t, at, serial)],
                  log := s.log + [Took(r, LoginKey(t.id), serial)])
  {
    hide AccountStep, LoginStep, CeremonyStep, SessionStep, ChangeStep;
  }

  lemma ReadKeyStep(s: State, r: int, t: Token, at: int, serial: int, rec: Record)
    requires r in s.reqs && s.reqs[r] == HasTaken(t, at, serial) && t.user in s.accounts && rec == RecordOf(s, t.user)
    ensures Step(s, ReadUser(r)) == s.(reqs := s.reqs[r := KnownForKey(t, at, serial, rec)],
                                       log := s.log + [UserRead(r, t.user, rec)])
  {
    hide AccountStep, LoginStep, CeremonyStep, SessionStep, ChangeStep, RecordOf;
  }

  lemma VerifyStep(s: State, r: int, t: Token, at: int, serial: int, rec: Record, f: int)
    requires r in s.reqs && s.reqs[r] == KnownForKey(t, at, serial, rec) && t.expiry.Some?
    requires IsFactor(s, t.user, f, false)
    ensures Step(s, Verify(r, f))
            == s.(reqs := s.reqs[r := Issuing(t.user, rec, Passkey(t.id, t.expiry.value, at, serial, f))],
                  log := s.log + [Verified(r, t.user, serial, f)])
  {
    hide AccountStep, LoginStep, CeremonyStep, SessionStep, ChangeStep;
  }

  /** What the state has when the passkey of a challenge has been verified. */
  lemma PasskeyIsVerified(s: State, r: int, t: Token, serial: int, f: int)
    requires r !in s.used && t in s.tokens && !t.session && t.id != "" && t.expiry.Some? && s.now < t.expiry.value
    requires (t.id in s.seen ==> s.seen[t.id] <= s.now) && t.user in s.accounts
    requires Waits(s.open, LoginKey(t.id), serial, s.now) && IsFactor(s, t.user, f, false)
    ensures var s' := Run(s, [Parse(r, t, true), Spend(r, {}), TakeForLogin(r), ReadUser(r), Verify(r, f)]);
            && r in s'.reqs && s'.ids == s.ids && s'.now == s.now && s'.open == s.open - {LoginKey(t.id)}
            && s'.reqs[r] == Issuing(t.user, RecordOf(s, t.user), Passkey(t.id, t.expiry.value, s.now, serial, f))
  {
    hide Run, Step, RecordOf;
    Run5(s, Parse(r, t, true), Spend(r, {}), TakeForLogin(r), ReadUser(r), Verify(r, f));
    ParseStep(s, r, t, true);
    var s1 := Step(s, Parse(r, t, true));
    SpendKeyStep(s1, r, t);
    var s2 := Step(s1, Spend(r, {}));
    TakeStep(s2, r, t, s.now, serial);
    var s3 := Step(s2, TakeForLogin(r));
    SameRecord(s, s3, t.user);
    ReadKeyStep(s3, r, t, s.now, serial, RecordOf(s, t.user));
    VerifyStep(Step(s3, ReadUser(r)), r, t, s.now, serial, RecordOf(s, t.user), f);
  }

  function PasskeyLogin(r: int, t: Token, f: int, id: string): seq<Op> {
    [Parse(r, t, true), Spend(r, {}), TakeForLogin(r), ReadUser(r), Verify(r, f)] + [Mint(r, id, 3600), CreateRow(r)]
  }

  lemma RunPasskeyLogin(s: State, r: int, t: Token, f: int, id: string)
    ensures Run(s, PasskeyLogin(r, t, f, id))
            == Step(Step(Run(s, [Parse(r, t, true), Spend(r, {}), TakeForLogin(r), ReadUser(r), Verify(r, f)]),
                         Mint(r, id, 3600)), CreateRow(r))
  {
    hide Run, Step;
    var proof := [Parse(r, t, true), Spend(r, {}), TakeForLogin(r), ReadUser(r), Verify(r, f)];
    RunConcat(s, proof, [Mint(r, id, 3600), CreateRow(r)]);
    Run2(Run(s, proof), Mint(r, id, 3600), CreateRow(r));
  }

  /** A challenge in hand, a ceremony waiting for it and a passkey of the account sign it in. */
  lemma PasskeySignsIn(s: State, r: int, t: Token, serial: int, f: int, id: string)
    requires r !in s.used && t in s.tokens && !t.session && t.id != "" && t.expiry.Some? && s.now < t.expiry.value
    requires (t.id in s.seen ==> s.seen[t.id] <= s.now) && t.user in s.accounts
    requires Waits(s.open, LoginKey(t.id), serial, s.now) && IsFactor(s, t.user, f, false)
    requires id != "" && id !in s.ids
    ensures SignedInBy(Run(s, PasskeyLogin(r, t, f, id)),
                       Session(r, t.user, TokenOf(s, id, t.user), RecordOf(s, t.user),
                               Passkey(t.id, t.expiry.value, s.now, serial, f)))
  {
    hide Run, Step, RecordOf, SignedInBy, Waits, IsFactor, LoginKey, PasskeyLogin;
    EpochOfRecord(s, t.user);
    PasskeyIsVerified(s, r, t, serial, f);
    var s' := Run(s, [Parse(r, t, true), Spend(r, {}), TakeForLogin(r), ReadUser(r), Verify(r, f)]);
    IssueRuns(s', r, t.user, RecordOf(s, t.user), Passkey(t.id, t.expiry.value, s.now, serial, f), id);
    RunPasskeyLogin(s, r, t, f, id);
  }

  lemma Run2(s: State, a: Op, b: Op)
    ensures Run(s, [a, b]) == Step(Step(s, a), b)
  {
    hide Step;
    RunMore(s, [], a);
    RunMore(s, [a], b);
    assert [] + [a] == [a] && [a] + [b] == [a, b];
  }

  /** Opening a ceremony for a challenge leaves it waiting, unless the store is full. */
  lemma PasskeyLoginBegins(s: State, t: Token)
    requires t in s.tokens && !t.session && t.id != ""
    requires LoginKey(t.id) in s.open || |s.open| < 4096
    ensures var s' := Step(s, BeginPasskeyLogin(t, {}));
            && Waits(s'.open, LoginKey(t.id), s.nextSerial, s.now) && s'.nextSerial == s.nextSerial + 1
            && s'.open[LoginKey(t.id)].expires == s.now + 120
  {
    hide AccountStep, LoginStep, FactorStep, SessionStep, ChangeStep;
    assert Swept(s.open, Ceremonies.ExpiresOf, s.now, {}) == s.open;
  }

  // ----- by passkey alone -----

  lemma AloneBegins(s: State, id: string)
    requires AloneKey(id) in s.publicOpen || |s.publicOpen| < 512
    ensures var s' := Step(s, BeginAlone(id, {}));
            && Waits(s'.publicOpen, AloneKey(id), s.nextSerial, s.now) && s'.nextSerial == s.nextSerial + 1
            && s'.publicOpen[AloneKey(id)].expires == s.now + 120
  {
    hide AccountStep, LoginStep, FactorStep, SessionStep, ChangeStep;
    assert Swept(s.publicOpen, Ceremonies.ExpiresOf, s.now, {}) == s.publicOpen;
  }

  lemma TakeAloneStep(s: State, r: int, id: string, serial: int)
    requires r !in s.used && id != "" && Waits(s.publicOpen, AloneKey(id), serial, s.now)
    ensures Step(s, TakeAlone(r, id))
            == s.(publicOpen := s.publicOpen - {AloneKey(id)}, used := s.used + {r},
                  reqs := s.reqs[r := HasTakenAlone(AloneKey(id), serial)],
                  log := s.log + [Took(r, AloneKey(id), serial)])
  {
    hide AccountStep, LoginStep, FactorStep, SessionStep, ChangeStep;
  }

  lemma VerifyAloneStep(s: State, r: int, key: string, serial: int, u: int, f: int, rec: Record)
    requires r in s.reqs && s.reqs[r] == HasTakenAlone(key, serial) && IsFactor(s, u, f, false) && u in s.accounts
    requires rec == RecordOf(s, u) && rec.local && rec.passwordless
    ensures Step(s, VerifyAlone(r, f, true))
            == s.(reqs := s.reqs[r := Issuing(u, rec, KeyAlone(key, serial, f))],
                  log := s.log + [VerifiedAlone(r, u, rec, serial, f, true)])
  {
    hide AccountStep, LoginStep, FactorStep, SessionStep, ChangeStep, RecordOf;
  }

  lemma LocalOfRecord(s: State, u: int)
    requires u in s.accounts
    ensures RecordOf(s, u).local == s.accounts[u].local && RecordOf(s, u).passwordless == s.accounts[u].passwordless
  {
  }

  lemma AloneIssues(s: State, r: int, key: string, serial: int, u: int, f: int, rec: Record) returns (s': State)
    requires r !in s.used && key != "" && Waits(s.publicOpen, AloneKey(key), serial, s.now)
    requires IsFactor(s, u, f, false) && u in s.accounts && rec == RecordOf(s, u) && rec.local && rec.passwordless
    ensures s' == Step(Step(s, TakeAlone(r, key)), VerifyAlone(r, f, true))
    ensures r in s'.reqs && s'.reqs[r] == Issuing(u, rec, KeyAlone(AloneKey(key), serial, f))
    ensures s'.ids == s.ids && s'.now == s.now
  {
    hide Step, RecordOf, AloneKey;
    TakeAloneStep(s, r, key, serial);
    var s1 := Step(s, TakeAlone(r, key));
    SameRecord(s, s1, u);
    VerifyAloneStep(s1, r, AloneKey(key), serial, u, f, rec);
    s' := Step(s1, VerifyAlone(r, f, true));
  }

  function PasskeyAlone(r: int, key: string, f: int, id: string): seq<Op> {
    [TakeAlone(r, key), VerifyAlone(r, f, true), Mint(r, id, 3600), CreateRow(r)]
  }

  lemma RunPasskeyAlone(s: State, r: int, key: string, f: int, id: string)
    ensures Run(s, PasskeyAlone(r, key, f, id))
            == Step(Step(Step(Step(s, TakeAlone(r, key)), VerifyAlone(r, f, true)), Mint(r, id, 3600)), CreateRow(r))
  {
    hide Step;
    Run4(s, TakeAlone(r, key), VerifyAlone(r, f, true), Mint(r, id, 3600), CreateRow(r));
  }

  /** A waiting ceremony and a verified passkey sign in a local account that opted in. */
  lemma PasskeyAloneSignsIn(s: State, r: int, key: string, serial: int, u: int, f: int, id: string)
    requires r !in s.used && key != "" && Waits(s.publicOpen, AloneKey(key), serial, s.now)
    requires IsFactor(s, u, f, false) && u in s.accounts && s.accounts[u].local && s.accounts[u].passwordless
    requires id != "" && id !in s.ids
    ensures SignedInBy(Run(s, PasskeyAlone(r, key, f, id)),
                       Session(r, u, TokenOf(s, id, u), RecordOf(s, u), KeyAlone(AloneKey(key), serial, f)))
  {
    hide Run, Step, RecordOf, SignedInBy, AloneKey, Waits, IsFactor, PasskeyAlone;
    EpochOfRecord(s, u);
    LocalOfRecord(s, u);
    var s2 := AloneIssues(s, r, key, serial, u, f, RecordOf(s, u));
    IssueRuns(s2, r, u, RecordOf(s, u), KeyAlone(AloneKey(key), serial, f), id);
    RunPasskeyAlone(s, r, key, f, id);
  }

  // ----- and in -----

  /** A token whose session stands and whose account was not reset is let in. */
  lemma TokenIsLetIn(s: State, r: int, t: Token)
    requires r !in s.used && t in s.tokens && t.session && t.id != "" && Unexpired(t, s.now)
    requires t.user in s.accounts && s.accounts[t.user].epoch == t.epoch && HasRow(s.rows, t)
    ensures Run(s, [CheckEpoch(r, t), CheckRow(r)]).log == s.log + [EpochCheck(r, t, true), Admitted(r, t)]
  {
    hide Run, Step;
    Run2(s, CheckEpoch(r, t), CheckRow(r));
    EnterStep(s, r, t);
    RowStep(Step(s, CheckEpoch(r, t)), r, t);
  }
}
