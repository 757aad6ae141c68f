/** Where the promises of the sign-in machine end: three runs, step by step. */
module SignInLimits {
  import opened BoundedSweep
  import opened Options
  import opened SignIn
  import opened SignInSafety
  import opened SignInTheorems
  import ChallengeStore
  import Ceremonies

  lemma RunMore(s: State, ops: seq<Op>, op: Op)
    ensures Run(s, ops + [op]) == Step(Run(s, ops), op)
  {
    assert (ops + [op])[..|ops|] == ops;
  }

  lemma {:induction false} RunConcat(s: State, ops: seq<Op>, more: seq<Op>)
    ensures Run(s, ops + more) == Run(Run(s, ops), more)
  {
    if more == [] {
      assert ops + more == ops;
    } else {
      var n := |more| - 1;
      RunConcat(s, ops, more[..n]);
      assert (ops + more)[..|ops + more| - 1] == ops + more[..n];
    }
  }

  /** A second-factor login by code, undisturbed from its spend to its session row. */
  function CodeLogin(r: int, factor: int, counter: int, id: string): seq<Op> {
    [Spend(r, {}), ReadUser(r), Burn(r, factor, counter), Mint(r, id, 3600), CreateRow(r)]
  }

  lemma Run4(s: State, a: Op, b: Op, c: Op, d: Op)
    ensures Run(s, [a, b, c, d]) == Step(Step(Step(Step(s, a), b), c), d)
  {
    hide Step;
    RunMore(s, [], a);
    RunMore(s, [a], b);
    RunMore(s, [a, b], c);
    RunMore(s, [a, b, c], d);
    assert [] + [a] == [a] && [a] + [b] == [a, b] && [a, b] + [c] == [a, b, c] && [a, b, c] + [d] == [a, b, c, d];
  }

  lemma Run5(s: State, a: Op, b: Op, c: Op, d: Op, e: Op)
    ensures Run(s, [a, b, c, d, e]) == Step(Step(Step(Step(Step(s, a), b), c), d), e)
  {
    hide Step;
    Run4(s, a, b, c, d);
    RunMore(s, [a, b, c, d], e);
    assert [a, b, c, d] + [e] == [a, b, c, d, e];
  }

  function AfterSpend(s: State, r: int, t: Token): State
    requires t.expiry.Some?
  {
    s.(seen := Swept(s.seen, ChallengeStore.ExpiryOf, s.now, {})[t.id := t.expiry.value],
       reqs := s.reqs[r := HasSpent(false, t, s.now)],
       log := s.log + [Spent(r, t.user, t.id, t.expiry.value, s.now)])
  }

  lemma CodeLoginRuns(s: State, r: int, t: Token, f: int, c: int, id: string) returns (e: Event)
    requires r in s.reqs && s.reqs[r] == Parsed(false, t) && t.id != "" && t.expiry.Some?
    requires t.id in s.seen ==> s.seen[t.id] <= s.now
    requires t.user in s.accounts && f in s.factors && s.factors[f].totp && s.factors[f].owner == t.user
             && s.factors[f].counter < c
    requires id != "" && id !in s.ids
    ensures e == Session(r, t.user, Token(true, id, t.user, s.accounts[t.user].epoch, Some(s.now + 3600)),
              RecordOf(s, t.user),
                         Totp(t.id, t.expiry.value, s.now, f, c))
    ensures Run(s, CodeLogin(r, f, c, id)) ==
            var spent := AfterSpend(s, r, t);
            spent.(factors := s.factors[f := s.factors[f].(counter := c)], tokens := s.tokens + {e.token},
              ids := s.ids + {id},
                   rows := s.rows[id := t.user], reqs := s.reqs - {r},
                   log := spent.log + [UserRead(r, t.user, e.rec), Burnt(r, t.user, f, c), e])
  {
    hide Step;
    var rec := RecordOf(s, t.user);
    SpendStep(s, r, t);
    var s1 := AfterSpend(s, r, t);
    var s2 := s1.(reqs := s1.reqs[r := KnownForCode(t, s.now, rec)], log := s1.log + [UserRead(r, t.user, rec)]);
    ReadStep(s1, s2, r, t, rec);
    e := CodeSession(s2, r, t, rec, f, c, id);
    assert s2.reqs - {r} == s.reqs - {r};
    assert s2.log + [Burnt(r, t.user, f, c), e] == s1.log + [UserRead(r, t.user, rec), Burnt(r, t.user, f, c), e];
    Run5(s, Spend(r, {}), ReadUser(r), Burn(r, f, c), Mint(r, id, 3600), CreateRow(r));
  }

  lemma CodeSession(s: State, r: int, t: Token, rec: Record, f: int, c: int, id: string) returns (e: Event)
    requires r in s.reqs && s.reqs[r].KnownForCode? && s.reqs[r].token == t && s.reqs[r].rec == rec && t.expiry.Some?
    requires f in s.factors && s.factors[f].totp && s.factors[f].owner == t.user && s.factors[f].counter < c
    requires id != "" && id !in s.ids
    ensures e == Session(r, t.user, Token(true, id, t.user, rec.epoch, Some(s.now + 3600)), rec,
                         Totp(t.id, t.expiry.value, s.reqs[r].at, f, c))
    ensures Step(Step(Step(s, Burn(r, f, c)), Mint(r, id, 3600)), CreateRow(r)) ==
            s.(factors := s.factors[f := s.factors[f].(counter := c)], tokens := s.tokens + {e.token},
              ids := s.ids + {id},
               rows := s.rows[id := t.user], reqs := s.reqs - {r}, log := s.log + [Burnt(r, t.user, f, c), e])
  {
    hide Step;
    var via := Totp(t.id, t.expiry.value, s.reqs[r].at, f, c);
    e := Session(r, t.user, Token(true, id, t.user, rec.epoch, Some(s.now + 3600)), rec, via);
    BurnStep(s, r, t, rec, f, c);
    var s3 := Step(s, Burn(r, f, c));
    SessionSteps(s3, r, t.user, rec, via, id);
    assert s3.reqs - {r} == s.reqs - {r};
    assert s3.log + [e] == s.log + [Burnt(r, t.user, f, c), e];
  }

  lemma SpendStep(s: State, r: int, t: Token)
    requires r in s.reqs && s.reqs[r] == Parsed(false, t) && t.id != "" && t.expiry.Some?
    requires t.id in s.seen ==> s.seen[t.id] <= s.now
    ensures Step(s, Spend(r, {})) == AfterSpend(s, r, t)
  {
    hide AccountStep, LoginStep, CeremonyStep, SessionStep;
  }

  lemma BurnStep(s: State, r: int, t: Token, rec: Record, f: int, c: int)
    requires r in s.reqs && s.reqs[r].KnownForCode? && s.reqs[r].token == t && s.reqs[r].rec == rec && t.expiry.Some?
    requires f in s.factors && s.factors[f].totp && s.factors[f].owner == t.user && s.factors[f].counter < c
    ensures Step(s, Burn(r, f, c)) ==
            s.(factors := s.factors[f := s.factors[f].(counter := c)],
               reqs := s.reqs[r := Issuing(t.user, rec, Totp(t.id, t.expiry.value, s.reqs[r].at, f, c))],
               log := s.log + [Burnt(r, t.user, f, c)])
  {
    hide AccountStep, LoginStep, CeremonyStep, SessionStep;
  }

  lemma ReadStep(s1: State, s2: State, r: int, t: Token, rec: Record)
    requires r in s1.reqs && s1.reqs[r].HasSpent? && !s1.reqs[r].passkey && s1.reqs[r].token == t
    requires t.user in s1.accounts && rec == RecordOf(s1, t.user)
    requires s2 == s1.(reqs := s1.reqs[r := KnownForCode(t, s1.reqs[r].at, rec)],
               log := s1.log + [UserRead(r, t.user, rec)])
    ensures Step(s1, ReadUser(r)) == s2
  {
    hide AccountStep, LoginStep, CeremonyStep, SessionStep;
  }

  lemma SessionSteps(s: State, r: int, user: int, rec: Record, via: Via, id: string)
    requires r in s.reqs && s.reqs[r] == Issuing(user, rec, via) && id != "" && id !in s.ids
    ensures var token := Token(true, id, user, rec.epoch, Some(s.now + 3600));
            Step(Step(s, Mint(r, id, 3600)), CreateRow(r)) ==
            s.(tokens := s.tokens + {token}, ids := s.ids + {id}, rows := s.rows[id := user], reqs := s.reqs - {r},
               log := s.log + [Session(r, user, token, rec, via)])
  {
    hide AccountStep, LoginStep, FactorStep, CeremonyStep;
    var token := Token(true, id, user, rec.epoch, Some(s.now + 3600));
    var s' := Step(s, Mint(r, id, 3600));
    assert s' == s.(tokens := s.tokens + {token}, ids := s.ids + {id},
             reqs := s.reqs[r := Holding(user, rec, via, token)]);
    assert s'.reqs - {r} == s.reqs - {r};
  }

  /** One account, protected by one authenticator app. */
  function OneAccount(): State {
    State(0, map[1 := Account(0, true, false)], map[7 := Factor(1, true, 0)], 8, {}, {}, map[], map[], map[], 0,
          map[], {}, map[], [])
  }

  function OneChallenge(): Token {
    Token(false, "c", 1, 0, Some(10))
  }

  /** After a correct password, with `resets` password resets since, and the challenge
      parsed by requests 2 and 3. */
  function Challenge(resets: nat): State {
    var rec := Record(0, true, true, false);
    var s := OneAccount();
    s.(accounts := map[1 := Account(resets, true, false)], tokens := {OneChallenge()}, ids := {"c"}, used := {1, 2, 3},
       reqs := map[2 := Parsed(false, OneChallenge()), 3 := Parsed(false, OneChallenge())],
       log := [PasswordOk(1, 1, rec, false), Challenged(1, 1, "c")] + (if resets == 1 then [Bumped(1)] else []))
  }

  /** The challenge just handed out. */
  function Handed(): State {
    OneAccount().(tokens := {OneChallenge()}, ids := {"c"}, used := {1},
                  log := [PasswordOk(1, 1, Record(0, true, true, false), false), Challenged(1, 1, "c")])
  }

  lemma HandOut()
    ensures Step(Step(OneAccount(), PasswordCheck(1, 1, false)), AnswerLogin(1, "c", 10)) == Handed()
  {
    var s0 := OneAccount();
    var rec := Record(0, true, true, false);
    assert RecordOf(s0, 1) == rec by {
      assert 7 in s0.factors && s0.factors[7].owner == 1;
    }
    var s1 := Step(s0, PasswordCheck(1, 1, false));
    assert s1.reqs == map[1 := LoggedIn(1, rec, false)] && s1.used == {1};
    var s2 := Step(s1, AnswerLogin(1, "c", 10));
    assert s2.tokens == {OneChallenge()} && s2.ids == {"c"} && s2.reqs == map[];
  }

  lemma ParseTwice(s: State)
    requires s.tokens == {OneChallenge()} && s.used == {1} && s.reqs == map[] && s.now == 0
    ensures Step(Step(s, Parse(2, OneChallenge(), false)), Parse(3, OneChallenge(), false)) ==
            s.(used := {1, 2, 3}, reqs := map[2 := Parsed(false, OneChallenge()), 3 := Parsed(false, OneChallenge())])
  {
  }

  lemma TickStep(s: State, ticks: nat)
    ensures Step(s, Tick(ticks)) == s.(now := s.now + ticks)
  {
    hide LoginStep, FactorStep, CeremonyStep, SessionStep;
  }

  lemma BumpStep(s: State, u: int)
    requires u in s.accounts
    ensures Step(s, Bump(u)) ==
            s.(accounts := s.accounts[u := s.accounts[u].(epoch := s.accounts[u].epoch + 1)],
              log := s.log + [Bumped(u)])
  {
    hide LoginStep, FactorStep, CeremonyStep, SessionStep;
  }

  lemma MaybeReset(resets: nat)
    requires resets <= 1
    ensures Step(Handed(), if resets == 1 then Bump(1) else Tick(0))
            == Handed().(accounts := map[1 := Account(resets, true, false)], log := Challenge(resets).log)
  {
    hide Step;
    var s := Handed();
    if resets == 1 {
      BumpStep(s, 1);
      assert s.accounts[1 := Account(1, true, false)] == map[1 := Account(1, true, false)];
    } else {
      TickStep(s, 0);
      assert Challenge(0).log == s.log;
    }
  }

  lemma ReachChallenge(resets: nat) returns (ops: seq<Op>)
    requires resets <= 1
    ensures Init(OneAccount()) && Run(OneAccount(), ops) == Challenge(resets)
  {
    hide Step;
    var t, first := OneChallenge(), if resets == 1 then Bump(1) else Tick(0);
    HandOut();
    MaybeReset(resets);
    ParseTwice(Step(Handed(), first));
    ops := [PasswordCheck(1, 1, false), AnswerLogin(1, "c", 10), first, Parse(2, t, false), Parse(3, t, false)];
    Run5(OneAccount(), ops[0], ops[1], ops[2], ops[3], ops[4]);
  }

  /** Where one session per challenge ends: two requests that parsed the same challenge
      in time both finish, when the second one reaches its spend at the expiry. */
  lemma ChallengeFinishedTwice() returns (s: State, ops: seq<Op>, i: nat, j: nat)
    ensures Init(s) && i < j < |Run(s, ops).log|
    ensures var log := Run(s, ops).log;
            && log[i].Session? && log[j].Session? && log[i].token != log[j].token
            && ChallengeOf(log[i].via) == Some(("c", 10, 0)) && ChallengeOf(log[j].via) == Some(("c", 10, 10))
  {
    hide Step, Init;
    var t := OneChallenge();
    var first := ReachChallenge(0);
    s := OneAccount();
    var s1 := Challenge(0);
    var e1 := CodeLoginRuns(s1, 2, t, 7, 1, "a");
    var s2 := Run(s1, CodeLogin(2, 7, 1, "a"));
    var s3 := s2.(now := 10);
    TickStep(s2, 10);
    var e2 := CodeLoginRuns(s3, 3, t, 7, 2, "b");
    var s4 := Run(s3, CodeLogin(3, 7, 2, "b"));
    ops := first + CodeLogin(2, 7, 1, "a") + [Tick(10)] + CodeLogin(3, 7, 2, "b");
    RunConcat(s, first, CodeLogin(2, 7, 1, "a"));
    RunMore(s, first + CodeLogin(2, 7, 1, "a"), Tick(10));
    RunConcat(s, first + CodeLogin(2, 7, 1, "a") + [Tick(10)], CodeLogin(3, 7, 2, "b"));
    i, j := |s2.log| - 1, |s4.log| - 1;
    assert s2.log[i] == e1 && s4.log[j] == e2;
    assert s4.log[i] == s2.log[i];
  }

  /** Where a reset ends: the second-factor step reads the account again, so a challenge
      bought with the old password before the reset still finishes after it, with a
      token the session check accepts. */
  lemma ChallengeOutlivesReset() returns (s: State, ops: seq<Op>, c: nat, b: nat, j: nat)
    ensures Init(s) && c < b < j < |Run(s, ops).log|
    ensures var log := Run(s, ops).log;
            && log[c] == Challenged(1, 1, "c") && log[b] == Bumped(1)
            && log[j].EpochCheck? && log[j].ok && log[j].token.user == 1
  {
    hide Step, Init;
    var t := OneChallenge();
    var first := ReachChallenge(1);
    s := OneAccount();
    var s1 := Challenge(1);
    var e := CodeLoginRuns(s1, 2, t, 7, 1, "a");
    var s2 := Run(s1, CodeLogin(2, 7, 1, "a"));
    ops := first + CodeLogin(2, 7, 1, "a") + [CheckEpoch(9, e.token)];
    RunConcat(s, first, CodeLogin(2, 7, 1, "a"));
    RunMore(s, first + CodeLogin(2, 7, 1, "a"), CheckEpoch(9, e.token));
    CheckStep(s2, 9, e.token);
    c, b, j := 1, 2, |s2.log|;
    assert s2.log[1] == s1.log[1] && s2.log[2] == s1.log[2];
  }

  lemma CheckStep(s: State, r: int, t: Token)
    requires r !in s.used && t in s.tokens && t.session && t.id != "" && t.user in s.accounts
             && s.accounts[t.user].epoch == t.epoch && (t.expiry.Some? ==> s.now < t.expiry.value)
    ensures Step(s, CheckEpoch(r, t)).log == s.log + [EpochCheck(r, t, true)]
  {
    hide AccountStep, LoginStep, FactorStep, CeremonyStep;
  }

  // ----- a change that outlives a reset -----

  function ExemptRecord(): Record {
    Record(0, true, true, false)
  }

  function FirstToken(): Token {
    Token(true, "a", 1, 0, Some(3600))
  }

  function FirstSession(): Event {
    Session(1, 1, FirstToken(), ExemptRecord(), Password(true))
  }

  /** An exempt sign-in on the one account. */
  function SignedIn(): State {
    OneAccount().(tokens := {FirstToken()}, ids := {"a"}, rows := map["a" := 1], used := {1},
                  log := [PasswordOk(1, 1, ExemptRecord(), true), FirstSession()])
  }

  lemma ExemptSignInRuns()
    ensures Run(OneAccount(), [PasswordCheck(1, 1, true), AnswerLogin(1, "", 0), Mint(1, "a", 3600), CreateRow(1)])
            == SignedIn()
  {
    var s, rec := OneAccount(), ExemptRecord();
    Run4(s, PasswordCheck(1, 1, true), AnswerLogin(1, "", 0), Mint(1, "a", 3600), CreateRow(1));
    assert RecordOf(s, 1) == rec by { assert 7 in s.factors && s.factors[7].owner == 1; }
    ExemptSteps(s, rec);
    hide Step;
    var s2 := Step(Step(s, PasswordCheck(1, 1, true)), AnswerLogin(1, "", 0));
    SessionSteps(s2, 1, 1, rec, Password(true), "a");
    assert s2.reqs - {1} == map[];
    assert s2.log + [FirstSession()] == SignedIn().log;
    assert s2.rows["a" := 1] == SignedIn().rows && s2.tokens + {FirstToken()} == {FirstToken()}
           && s2.ids + {"a"} == {"a"};
  }

  lemma ExemptSteps(s: State, rec: Record)
    requires 1 in s.accounts && 1 !in s.used && rec == RecordOf(s, 1)
    ensures Step(Step(s, PasswordCheck(1, 1, true)), AnswerLogin(1, "", 0))
            == s.(used := s.used + {1}, reqs := s.reqs[1 := Issuing(1, rec, Password(true))],
              log := s.log + [PasswordOk(1, 1, rec, true)])
  {
    hide AccountStep, FactorStep, CeremonyStep, SessionStep, ChangeStep, RecordOf;
    var s1 := Step(s, PasswordCheck(1, 1, true));
    assert s1.reqs == s.reqs[1 := LoggedIn(1, rec, true)];
  }

  lemma EnterStep(s: State, r: int, t: Token)
    requires r !in s.used && t in s.tokens && t.session && t.id != "" && t.user in s.accounts
             && s.accounts[t.user].epoch == t.epoch && (t.expiry.Some? ==> s.now < t.expiry.value)
    ensures Step(s, CheckEpoch(r, t))
            == s.(used := s.used + {r}, reqs := s.reqs[r := EpochPassed(t)], log := s.log + [EpochCheck(r, t, true)])
  {
    hide AccountStep, LoginStep, FactorStep, CeremonyStep, ChangeStep;
  }

  lemma RowStep(s: State, r: int, t: Token)
    requires r in s.reqs && s.reqs[r] == EpochPassed(t) && t.id in s.rows && s.rows[t.id] == t.user
    ensures Step(s, CheckRow(r)) == s.(reqs := s.reqs[r := InSession(t)], log := s.log + [Admitted(r, t)])
  {
    hide AccountStep, LoginStep, FactorStep, CeremonyStep, ChangeStep;
  }

  lemma ProveStep(s: State, r: int, t: Token, rec: Record)
    requires r in s.reqs && s.reqs[r] == InSession(t) && t.user in s.accounts && rec == RecordOf(s, t.user) && rec.local
    ensures Step(s, ProveOwn(r))
            == s.(reqs := s.reqs[r := OwnProved(t, rec)], log := s.log + [OwnPasswordOk(r, t.user, rec)])
  {
    hide AccountStep, LoginStep, FactorStep, CeremonyStep, SessionStep, RecordOf;
  }

  lemma SameRecord(s: State, s': State, user: int)
    requires user in s.accounts && s'.accounts == s.accounts && s'.factors == s.factors
    ensures RecordOf(s', user) == RecordOf(s, user)
  {
  }

  lemma DropStep(s: State, r: int, t: Token, known: Record)
    requires r in s.reqs && s.reqs[r] == OwnProved(t, known)
    ensures Step(s, DropOwn(r)) == s.(rows := WithoutRowsOf(s.rows, t.user), reqs := s.reqs[r := RowsDropped(t, known)])
  {
    hide AccountStep, LoginStep, FactorStep, CeremonyStep, SessionStep, WithoutRowsOf;
  }

  lemma BumpOwnStep(s: State, r: int, t: Token, known: Record)
    requires r in s.reqs && s.reqs[r] == RowsDropped(t, known) && t.user in s.accounts
    ensures Step(s, BumpOwn(r)) ==
            s.(accounts := s.accounts[t.user := s.accounts[t.user].(epoch := s.accounts[t.user].epoch + 1)],
               reqs := s.reqs[r := EpochMoved(t, known)], log := s.log + [Bumped(t.user)])
  {
    hide LoginStep, FactorStep, CeremonyStep, SessionStep, WithoutRowsOf;
  }

  lemma RereadStep(s: State, r: int, t: Token, known: Record, rec: Record)
    requires r in s.reqs && s.reqs[r] == EpochMoved(t, known) && t.user in s.accounts && rec == RecordOf(s, t.user)
    ensures Step(s, Reread(r)) ==
            s.(reqs := s.reqs[r := Issuing(t.user, rec, Change(t, known))], log := s.log + [UserRead(r, t.user, rec)])
  {
    hide AccountStep, LoginStep, FactorStep, CeremonyStep, SessionStep, WithoutRowsOf, RecordOf;
  }

  function SecondToken(): Token {
    Token(true, "b", 1, 2, Some(3600))
  }

  function EntryAndProof(): seq<Op> {
    [CheckEpoch(2, FirstToken()), CheckRow(2), ProveOwn(2), Bump(1)]
  }

  function Finish(): seq<Op> {
    [DropOwn(2), BumpOwn(2), Reread(2), Mint(2, "b", 3600)] + [CreateRow(2)]
  }

  /** The request is inside and has proved the password; then someone else resets it. */
  function ResetMeanwhile(): State {
    SignedIn().(accounts := map[1 := Account(1, true, false)], used := {1, 2},
                reqs := map[2 := OwnProved(FirstToken(), ExemptRecord())],
                log := SignedIn().log + [EpochCheck(2, FirstToken(), true), Admitted(2, FirstToken()),
                                         OwnPasswordOk(2, 1, ExemptRecord()), Bumped(1)])
  }

  /** Let in, and the current password proved. */
  lemma EntryRuns()
    ensures Run(SignedIn(), EntryAndProof()) == ResetMeanwhile()
  {
    hide Step, RecordOf;
    var s, t, rec := SignedIn(), FirstToken(), ExemptRecord();
    Run4(s, CheckEpoch(2, t), CheckRow(2), ProveOwn(2), Bump(1));
    OneAccountRecord(s);
    EnterStep(s, 2, t);
    var s1 := Step(s, CheckEpoch(2, t));
    RowStep(s1, 2, t);
    var s2 := Step(s1, CheckRow(2));
    SameRecord(s, s2, 1);
    ProveStep(s2, 2, t, rec);
    var s3 := Step(s2, ProveOwn(2));
    BumpStep(s3, 1);
    assert s3.reqs == map[2 := OwnProved(t, rec)];
    assert s3.accounts[1 := Account(1, true, false)] == map[1 := Account(1, true, false)];
    assert s3.log + [Bumped(1)] == ResetMeanwhile().log;
  }

  lemma OneAccountRecord(s: State)
    requires s.accounts == OneAccount().accounts && s.factors == OneAccount().factors
    ensures RecordOf(s, 1) == ExemptRecord()
  {
    assert 7 in s.factors && s.factors[7].owner == 1;
  }

  /** The change has issued its own session. */
  function Changed(): State {
    var rec := ExemptRecord().(epoch := 2);
    ResetMeanwhile().(accounts := map[1 := Account(2, true, false)], tokens := {FirstToken(), SecondToken()},
      ids := {"a", "b"},
                      rows := map["b" := 1], reqs := map[],
                      log := ResetMeanwhile().log + [Bumped(1), UserRead(2, 1, rec),
                                                     Session(2, 1, SecondToken(), rec,
                                                       Change(FirstToken(), ExemptRecord()))])
  }

  /** The one account after its second reset, about to be issued its session. */
  function Renewed(): State {
    var rec := ExemptRecord().(epoch := 2);
    ResetMeanwhile().(accounts := map[1 := Account(2, true, false)], rows := map[],
                      reqs := map[2 := Issuing(1, rec, Change(FirstToken(), ExemptRecord()))],
                      log := ResetMeanwhile().log + [Bumped(1), UserRead(2, 1, rec)])
  }

  /** The rows go, the epoch moves and the record is read again. */
  lemma RenewalRuns()
    ensures Step(Step(Step(ResetMeanwhile(), DropOwn(2)), BumpOwn(2)), Reread(2)) == Renewed()
  {
    hide Step;
    var s, t, known, rec := ResetMeanwhile(), FirstToken(), ExemptRecord(), ExemptRecord().(epoch := 2);
    DropStep(s, 2, t, known);
    var s1 := Step(s, DropOwn(2));
    assert s1.rows == map[];
    BumpOwnStep(s1, 2, t, known);
    var s2 := Step(s1, BumpOwn(2));
    assert RecordOf(s2, 1) == rec by { assert 7 in s2.factors && s2.factors[7].owner == 1; }
    RereadStep(s2, 2, t, known, rec);
    assert s2.accounts == map[1 := Account(2, true, false)];
    assert Step(s2, Reread(2)).reqs == Renewed().reqs;
  }

  lemma FinishRuns()
    ensures Run(ResetMeanwhile(), Finish()) == Changed()
  {
    hide Step;
    var rec := ExemptRecord().(epoch := 2);
    var four := [DropOwn(2), BumpOwn(2), Reread(2), Mint(2, "b", 3600)];
    RunMore(ResetMeanwhile(), four, CreateRow(2));
    Run4(ResetMeanwhile(), four[0], four[1], four[2], four[3]);
    RenewalRuns();
    var s := Renewed();
    SessionSteps(s, 2, 1, rec, Change(FirstToken(), ExemptRecord()), "b");
    var c := Changed();
    assert s.rows["b" := 1] == c.rows && s.reqs - {2} == map[];
    assert s.tokens + {SecondToken()} == c.tokens && s.ids + {"b"} == c.ids;
    assert s.log + [c.log[|c.log| - 1]] == c.log;
  }

  /** A change whose password was proved before a reset still finishes after it, with a
      session that is let through. The token it came in with is not. */
  lemma ChangeOutlivesReset() returns (s: State, ops: seq<Op>, p: nat, b: nat, i: nat, j: nat)
    ensures Init(s) && p < b < i < j < |Run(s, ops).log|
    ensures var log := Run(s, ops).log;
            && log[p] == OwnPasswordOk(2, 1, ExemptRecord()) && log[b] == Bumped(1)
            && log[i].Session? && log[i].via.Change? && log[j] == EpochCheck(3, log[i].token, true)
  {
    hide Step, Init;
    s := OneAccount();
    var first := [PasswordCheck(1, 1, true), AnswerLogin(1, "", 0), Mint(1, "a", 3600), CreateRow(1)];
    ExemptSignInRuns();
    EntryRuns();
    FinishRuns();
    RunConcat(s, first, EntryAndProof());
    RunConcat(s, first + EntryAndProof(), Finish());
    var all := first + EntryAndProof() + Finish();
    RunMore(s, all, CheckEpoch(3, SecondToken()));
    CheckStep(Changed(), 3, SecondToken());
    ops := all + [CheckEpoch(3, SecondToken())];
    p, b, i, j := 4, 5, 8, 9;
    assert s == OneAccount() && Init(OneAccount()) by { StartIsInit(); }
  }

  lemma StartIsInit()
    ensures Init(OneAccount())
  {
  }
}
