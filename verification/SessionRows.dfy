/** What ends a session: its row. The row check of internal/auth/middleware.go, CreateSession,
    DeleteSession and DeleteUserSessions of internal/store/sessions.go. */
module SessionRows {
  import opened Options
  import opened SignIn
  import BoundedSweep
  import opened SignInSafety
  import ChallengeStore
  import Ceremonies

  predicate HasRow(rows: map<string, int>, t: Token) {
    t.id in rows && rows[t.id] == t.user
  }

  /** The step records the session of this token. */
  predicate Records(s: State, op: Op, t: Token) {
    op.CreateRow? && op.req in s.reqs && s.reqs[op.req].Holding? && s.reqs[op.req].token == t
  }

  /** The step revokes the session of this token: that session, all of the account's, or all
      of them as part of a password change. */
  predicate Revokes(s: State, op: Op, t: Token) {
    || op == DeleteSession(t.id, t.user)
    || op == DeleteSessions(t.user)
    || (op.DropOwn? && op.req in s.reqs && s.reqs[op.req].OwnProved? && s.reqs[op.req].token.user == t.user)
  }

  /** No request is about to record another token under the id of this one. */
  predicate Unmistaken(s: State, t: Token) {
    forall r :: r in s.reqs && s.reqs[r].Holding? && s.reqs[r].token.id == t.id ==>
      s.reqs[r].token == t && s.reqs[r].user == t.user
  }

  lemma AccountStepRows(s: State, op: Op, t: Token)
    requires op.DeleteSessions? || op.DeleteSession? || op.Bump?
    ensures HasRow(AccountStep(s, op).rows, t) <==> HasRow(s.rows, t) && !Revokes(s, op, t)
  {
  }

  lemma OtherAccountStepRows(s: State, op: Op)
    ensures AccountStep(s, op).tokens == s.tokens
    ensures !op.DeleteSessions? && !op.DeleteSession? ==> AccountStep(s, op).rows == s.rows
  {
    hide WithoutRowsOf;
  }

  /** Moving a request about and logging touch neither rows nor tokens. */
  lemma MovesKeepRows()
    ensures forall s: State, e: Event :: Logged(s, e).rows == s.rows && Logged(s, e).tokens == s.tokens
    ensures forall s: State, r: int, pc: Pc :: Goto(s, r, pc).rows == s.rows && Goto(s, r, pc).tokens == s.tokens
    ensures forall s: State, r: int, pc: Pc :: Start(s, r, pc).rows == s.rows && Start(s, r, pc).tokens == s.tokens
    ensures forall s: State, r: int :: Done(s, r).rows == s.rows && Done(s, r).tokens == s.tokens
  {
  }

  lemma LoginRows(s: State, op: Op)
    ensures LoginStep(s, op).rows == s.rows && s.tokens <= LoginStep(s, op).tokens
  {
    hide Logged, Goto, Start, Done;
    hide RecordOf;
    MovesKeepRows();
  }

  lemma EarlyFactorRows(s: State, op: Op)
    requires op.Parse? || op.Spend? || op.TakeForLogin?
    ensures FactorStep(s, op).rows == s.rows && s.tokens == FactorStep(s, op).tokens
  {
    hide Logged, Goto, Start, Done;
    hide BoundedSweep.Swept, BoundedSweep.At;
    MovesKeepRows();
  }

  lemma ReadRows(s: State, op: Op)
    requires op.ReadUser?
    ensures FactorStep(s, op).rows == s.rows && s.tokens == FactorStep(s, op).tokens
  {
    hide Logged, Goto, Start, Done;
    hide RecordOf;
    MovesKeepRows();
  }

  lemma ProofRows(s: State, op: Op)
    requires op.Burn? || op.Verify?
    ensures FactorStep(s, op).rows == s.rows && s.tokens == FactorStep(s, op).tokens
  {
    hide Logged, Goto, Start, Done;
    MovesKeepRows();
  }

  lemma FactorRows(s: State, op: Op)
    ensures FactorStep(s, op).rows == s.rows && s.tokens == FactorStep(s, op).tokens
  {
    if op.Parse? || op.Spend? || op.TakeForLogin? {
      hide FactorStep;
      EarlyFactorRows(s, op);
    } else if op.ReadUser? {
      hide FactorStep;
      ReadRows(s, op);
    } else if op.Burn? || op.Verify? {
      hide FactorStep;
      ProofRows(s, op);
    }
  }

  lemma BeginRows(s: State, op: Op)
    requires op.BeginPasskeyLogin? || op.BeginAlone?
    ensures CeremonyStep(s, op).rows == s.rows && s.tokens == CeremonyStep(s, op).tokens
  {
    hide Ceremonies.AfterPut;
  }

  lemma AloneRows(s: State, op: Op)
    requires op.TakeAlone? || op.VerifyAlone?
    ensures CeremonyStep(s, op).rows == s.rows && s.tokens == CeremonyStep(s, op).tokens
  {
    hide Logged, Goto, Start, Done;
    hide RecordOf, BoundedSweep.At;
    MovesKeepRows();
  }

  lemma CeremonyRows(s: State, op: Op)
    ensures CeremonyStep(s, op).rows == s.rows && s.tokens == CeremonyStep(s, op).tokens
  {
    if op.BeginPasskeyLogin? || op.BeginAlone? {
      hide CeremonyStep;
      BeginRows(s, op);
    } else if op.TakeAlone? || op.VerifyAlone? {
      hide CeremonyStep;
      AloneRows(s, op);
    }
  }

  lemma ChangeTokens(s: State, op: Op)
    ensures s.tokens == ChangeStep(s, op).tokens
  {
    hide Logged, Goto, Start, Done;
    hide RecordOf, WithoutRowsOf;
    MovesKeepRows();
  }

  lemma MintRows(s: State, op: Op)
    requires !op.CreateRow?
    ensures SessionStep(s, op).rows == s.rows && s.tokens <= SessionStep(s, op).tokens
  {
    if op.Mint? {
      hide SessionStep;
      MintAddsToken(s, op);
    }
  }

  lemma MintAddsToken(s: State, op: Op)
    requires op.Mint?
    ensures SessionStep(s, op).rows == s.rows && s.tokens <= SessionStep(s, op).tokens
  {
    hide Logged, Goto, Start, Done;
    MovesKeepRows();
  }

  lemma RecordRows(s: State, op: Op, t: Token)
    requires op.CreateRow?
    ensures s.tokens == SessionStep(s, op).tokens
    ensures Unmistaken(s, t) ==> (HasRow(SessionStep(s, op).rows, t) <==> HasRow(s.rows, t) || Records(s, op, t))
  {
    hide Logged, Goto, Start, Done;
    MovesKeepRows();
  }

  lemma ChangeStepRows(s: State, op: Op, t: Token)
    ensures op.ProveOwn? || op.DropOwn? || op.BumpOwn? || op.Reread? ==>
              (HasRow(ChangeStep(s, op).rows, t) <==> HasRow(s.rows, t) && !Revokes(s, op, t))
  {
    hide Logged, Goto, Start, Done;
    hide RecordOf;
    MovesKeepRows();
  }

  /** What one step does to a token's row. */
  lemma RowChanges(s: State, op: Op, t: Token)
    requires Unmistaken(s, t)
    ensures HasRow(Step(s, op).rows, t) <==> Records(s, op, t) || (HasRow(s.rows, t) && !Revokes(s, op, t))
  {
    hide AccountStep, LoginStep, FactorStep, CeremonyStep, SessionStep, ChangeStep, HasRow, Unmistaken;
    if op.DeleteSessions? || op.DeleteSession? || op.Bump? {
      AccountStepRows(s, op, t);
    } else {
      OtherAccountStepRows(s, op);
    }
    LoginRows(s, op);
    FactorRows(s, op);
    CeremonyRows(s, op);
    if op.CreateRow? { RecordRows(s, op, t); } else { MintRows(s, op); }
    ChangeStepRows(s, op, t);
  }

  // ----- tokens are not mistaken for one another -----

  lemma TokensStay(s: State, op: Op)
    ensures s.tokens <= Step(s, op).tokens
  {
    hide AccountStep, LoginStep, FactorStep, CeremonyStep, SessionStep, ChangeStep, HasRow, Unmistaken;
    OtherAccountStepRows(s, op);
    LoginRows(s, op);
    FactorRows(s, op);
    CeremonyRows(s, op);
    if op.CreateRow? { RecordRows(s, op, Token(true, "", 0, 0, None)); } else { MintRows(s, op); }
    ChangeTokens(s, op);
  }

  lemma {:induction false} TokensGrow(s: State, ops: seq<Op>, m: nat, n: nat)
    requires m <= n <= |ops|
    ensures Run(s, ops[..m]).tokens <= Run(s, ops[..n]).tokens
  {
    hide Step;
    if m < n {
      TokensGrow(s, ops, m, n - 1);
      assert ops[..n][..n - 1] == ops[..n - 1];
      TokensStay(Run(s, ops[..n - 1]), ops[n - 1]);
    }
  }

  lemma NeverMistaken(s: State, ops: seq<Op>, m: nat, n: nat, t: Token)
    requires Init(s) && m <= n <= |ops| && t in Run(s, ops[..n]).tokens && t.id != ""
    ensures Unmistaken(Run(s, ops[..m]), t)
  {
    hide Run, Init, AllSound, SpentTable, CeremonyTables, Counters, Rows, Epochs, Trail;
    RunInv(s, ops[..m]);
    RunInv(s, ops[..n]);
    TokensGrow(s, ops, m, n);
    var before := Run(s, ops[..m]);
    forall r | r in before.reqs && before.reqs[r].Holding? && before.reqs[r].token.id == t.id
      ensures before.reqs[r].token == t && before.reqs[r].user == t.user
    {
      assert PcOk(before.log, before.tokens, r, before.reqs[r]);
    }
  }

  // ----- the result -----

  /** After n steps the session of the token stands: it was recorded, and not revoked since. */
  ghost predicate Stands(s: State, ops: seq<Op>, n: nat, t: Token)
    requires n <= |ops|
  {
    exists m :: 0 <= m < n && Records(Run(s, ops[..m]), ops[m], t) && SpareFrom(s, ops, m + 1, n, t)
  }

  ghost predicate SpareFrom(s: State, ops: seq<Op>, m: nat, n: nat, t: Token)
    requires n <= |ops|
  {
    forall k :: m <= k < n ==> !Revokes(Run(s, ops[..k]), ops[k], t)
  }

  lemma StandsStep(s: State, ops: seq<Op>, n: nat, t: Token)
    requires 0 < n <= |ops|
    ensures var before := Run(s, ops[..n - 1]);
            Stands(s, ops, n, t) <==>
              Records(before, ops[n - 1], t) || (Stands(s, ops, n - 1, t) && !Revokes(before, ops[n - 1], t))
  {
    hide Run, Records, Revokes;
    var before := Run(s, ops[..n - 1]);
    if Stands(s, ops, n, t) {
      var m :| 0 <= m < n && Records(Run(s, ops[..m]), ops[m], t) && SpareFrom(s, ops, m + 1, n, t);
      if m < n - 1 { assert SpareFrom(s, ops, m + 1, n - 1, t); }
    }
    if Records(before, ops[n - 1], t) { assert SpareFrom(s, ops, n, n, t); }
    if Stands(s, ops, n - 1, t) && !Revokes(before, ops[n - 1], t) {
      var m :| 0 <= m < n - 1 && Records(Run(s, ops[..m]), ops[m], t) && SpareFrom(s, ops, m + 1, n - 1, t);
      assert SpareFrom(s, ops, m + 1, n, t);
    }
  }

  lemma {:induction false} RowIffStands(s: State, ops: seq<Op>, m: nat, n: nat, t: Token)
    requires Init(s) && m <= n <= |ops| && t in Run(s, ops[..n]).tokens && t.id != ""
    ensures HasRow(Run(s, ops[..m]).rows, t) <==> Stands(s, ops, m, t)
  {
    hide Step, Records, Revokes, Unmistaken, Stands;
    if m == 0 {
      assert ops[..0] == [];
      NothingStands(s, ops, t);
    } else {
      hide Init;
      RowIffStands(s, ops, m - 1, n, t);
      NeverMistaken(s, ops, m - 1, n, t);
      assert ops[..m][..m - 1] == ops[..m - 1];
      RowChanges(Run(s, ops[..m - 1]), ops[m - 1], t);
      StandsStep(s, ops, m, t);
    }
  }

  lemma NothingStands(s: State, ops: seq<Op>, t: Token)
    ensures !Stands(s, ops, 0, t)
  {
  }

  /** A request whose token passed the epoch check is let in exactly when the token's session
      was recorded and has not been revoked since, one by one, with all of the account's, or
      by a password change; else it ends there. */
  lemma AdmittedIffNotRevoked(s: State, ops: seq<Op>, n: nat, t: Token)
    requires Init(s) && n < |ops| && ops[n].CheckRow?
    requires var before := Run(s, ops[..n]); ops[n].req in before.reqs && before.reqs[ops[n].req] == EpochPassed(t)
    ensures Run(s, ops[..n + 1]).log
            == Run(s, ops[..n]).log + if Stands(s, ops, n, t) then [Admitted(ops[n].req, t)] else []
  {
    hide Stands, Init;
    hide Run;
    var before := Run(s, ops[..n]);
    PassedTokenIsMinted(s, ops[..n], ops[n].req, t);
    RowIffStands(s, ops, n, n, t);
    RunOneMore(s, ops, n);
    RowCheckStep(before, ops[n].req, t);
  }

  lemma RunOneMore(s: State, ops: seq<Op>, n: nat)
    requires n < |ops|
    ensures Run(s, ops[..n + 1]) == Step(Run(s, ops[..n]), ops[n])
  {
    assert ops[..n + 1][..n] == ops[..n];
  }

  lemma RowCheckStep(s: State, r: int, t: Token)
    requires r in s.reqs && s.reqs[r] == EpochPassed(t)
    ensures Step(s, CheckRow(r)).log == s.log + if HasRow(s.rows, t) then [Admitted(r, t)] else []
  {
    hide AccountStep, LoginStep, FactorStep, CeremonyStep, ChangeStep;
  }

  lemma PassedTokenIsMinted(s: State, ops: seq<Op>, r: int, t: Token)
    requires Init(s) && r in Run(s, ops).reqs && Run(s, ops).reqs[r] == EpochPassed(t)
    ensures t in Run(s, ops).tokens && t.id != ""
  {
    hide Run, Init, AllSound, Tokens, SpentTable, CeremonyTables, Counters, Rows, Epochs, Trail;
    RunInv(s, ops);
    assert PcOk(Run(s, ops).log, Run(s, ops).tokens, r, EpochPassed(t));
  }
}
