/** Signing in, as a machine of interleaved requests: Login and VerifyMFA
    (internal/auth/service.go), the passkey second factor (internal/auth/webauthn.go),
    passwordless sign-in (internal/auth/passwordless.go), SetPassword and
    ChangeOwnPassword (internal/auth/service.go), and the session check of
    internal/auth/middleware.go. These are all the callers of issueSession.

    Every operation below is one atomic step of one request: one store statement, one
    locked call on an in-memory table, or one clock reading. A run is any sequence of
    operations; one whose request is not at that point is ignored. The log records
    what happened, in order. Rate limiting is left out: it only refuses more. */
module SignIn {
  import opened BoundedSweep
  import opened Options
  import ChallengeStore
  import Ceremonies

  // ----- data -----

  /** The parts of a user record the flows act on, as read at one moment. */
  datatype Record = Record(epoch: int, protected: bool, local: bool, passwordless: bool)

  /** A signed token. Only tokens the server minted parse. */
  datatype Token = Token(session: bool, id: string, user: int, epoch: int, expiry: Option<int>)

  datatype Account = Account(epoch: int, local: bool, passwordless: bool)

  datatype Factor = Factor(owner: int, totp: bool, counter: int)

  /** What a session rests on. */
  datatype Via =
    | Password(exempt: bool)
    | Totp(id: string, expiry: int, at: int, factor: int, counter: int)
    | Passkey(id: string, expiry: int, at: int, serial: int, factor: int)
    | KeyAlone(key: string, serial: int, factor: int)
    | Change(from: Token, known: Record) // the holder of session `from` changed the password

  datatype Event =
    | PasswordOk(req: int, user: int, rec: Record, exempt: bool)
    | Challenged(req: int, user: int, id: string)
    | Spent(req: int, user: int, id: string, expiry: int, at: int)
    | Took(req: int, key: string, serial: int)
    | UserRead(req: int, user: int, rec: Record)
    | Burnt(req: int, user: int, factor: int, counter: int)
    | Verified(req: int, user: int, serial: int, factor: int)
    | VerifiedAlone(req: int, user: int, rec: Record, serial: int, factor: int, userVerified: bool)
    | Session(req: int, user: int, token: Token, rec: Record, via: Via)
    | Bumped(user: int)
    | EpochCheck(req: int, token: Token, ok: bool)
    | Admitted(req: int, token: Token)
    | OwnPasswordOk(req: int, user: int, rec: Record)

  /** Where a request is. */
  datatype Pc =
    | LoggedIn(user: int, rec: Record, exempt: bool)
    | Parsed(passkey: bool, token: Token)
    | HasSpent(passkey: bool, token: Token, at: int)
    | HasTaken(token: Token, at: int, serial: int)
    | KnownForCode(token: Token, at: int, rec: Record)
    | KnownForKey(token: Token, at: int, serial: int, rec: Record)
    | HasTakenAlone(key: string, serial: int)
    | Issuing(user: int, rec: Record, via: Via)
    | Holding(user: int, rec: Record, via: Via, token: Token)
    | EpochPassed(token: Token)
    | InSession(token: Token)
    | OwnProved(token: Token, known: Record)
    | RowsDropped(token: Token, known: Record)
    | EpochMoved(token: Token, known: Record)

  datatype State = State(
    now: int,
    accounts: map<int, Account>,
    factors: map<int, Factor>,
    nextFactor: int,
    tokens: set<Token>,
    ids: set<string>,
    seen: ChallengeStore.Seen,
    open: Ceremonies.Open,
    publicOpen: Ceremonies.Open,
    nextSerial: int,
    rows: map<string, int>,
    used: set<int>,
    reqs: map<int, Pc>,
    log: seq<Event>)

  datatype Op =
    | Tick(ticks: nat)
    | Pair(user: int, totp: bool)
    | Unpair(factor: int)
    | SetPasswordless(user: int, on: bool)
    | SetSource(user: int, local: bool)
    | DeleteSessions(user: int)
    | DeleteSession(id: string, user: int)
    | Bump(user: int)
    | PasswordCheck(req: int, user: int, exempt: bool)
    | AnswerLogin(req: int, id: string, ttl: nat)
    | Parse(req: int, token: Token, passkey: bool)
    | Spend(req: int, scanned: set<string>)
    | TakeForLogin(req: int)
    | ReadUser(req: int)
    | Burn(req: int, factor: int, counter: int)
    | Verify(req: int, factor: int)
    | BeginPasskeyLogin(token: Token, scanned: set<string>)
    | BeginAlone(id: string, scanned: set<string>)
    | TakeAlone(req: int, id: string)
    | VerifyAlone(req: int, factor: int, userVerified: bool)
    | Mint(req: int, id: string, ttl: nat)
    | CreateRow(req: int)
    | CheckEpoch(req: int, token: Token)
    | CheckRow(req: int)
    | ProveOwn(req: int)
    | DropOwn(req: int)
    | BumpOwn(req: int)
    | Reread(req: int)

  const OPEN_LIMIT: nat := 4096
  const PUBLIC_LIMIT: nat := 512

  function LoginKey(id: string): string {
    "login:" + id
  }

  function AloneKey(id: string): string {
    "passwordless:" + id
  }

  // ----- steps -----

  function RecordOf(s: State, user: int): Record
    requires user in s.accounts
  {
    var a := s.accounts[user];
    Record(a.epoch, exists f :: f in s.factors && s.factors[f].owner == user, a.local, a.passwordless)
  }

  function Goto(s: State, req: int, pc: Pc): State {
    s.(reqs := s.reqs[req := pc])
  }

  function Done(s: State, req: int): State {
    s.(reqs := s.reqs - {req})
  }

  function Logged(s: State, e: Event): State {
    s.(log := s.log + [e])
  }

  /** The account operations, and the parts of a password reset: any of them may run
      between any two steps of a request. */
  function AccountStep(s: State, op: Op): State {
    match op
    case Tick(ticks) => s.(now := s.now + ticks)
    case Pair(u, totp) =>
      s.(factors := s.factors[s.nextFactor := Factor(u, totp, 0)], nextFactor := s.nextFactor + 1)
    case Unpair(f) => s.(factors := s.factors - {f})
    case SetPasswordless(u, on) =>
      if u in s.accounts then s.(accounts := s.accounts[u := s.accounts[u].(passwordless := on)]) else s
    case SetSource(u, local) =>
      if u in s.accounts then s.(accounts := s.accounts[u := s.accounts[u].(local := local)]) else s
    case DeleteSessions(u) => s.(rows := WithoutRowsOf(s.rows, u))
    case DeleteSession(id, u) => if id in s.rows && s.rows[id] == u then s.(rows := s.rows - {id}) else s
    case Bump(u) =>
      if u in s.accounts
      then Logged(s.(accounts := s.accounts[u := s.accounts[u].(epoch := s.accounts[u].epoch + 1)]), Bumped(u))
      else s
    case _ => s
  }

  function Start(s: State, req: int, pc: Pc): State {
    s.(used := s.used + {req}, reqs := s.reqs[req := pc])
  }

  /** Login up to its answer: a challenge for a protected account that is not exempt,
      else straight on to the session. */
  function LoginStep(s: State, op: Op): State {
    match op
    case PasswordCheck(r, u, exempt) =>
      if r in s.used || u !in s.accounts then s
      else
        var rec := RecordOf(s, u);
        Logged(Start(s, r, LoggedIn(u, rec, exempt)), PasswordOk(r, u, rec, exempt))
    case AnswerLogin(r, id, ttl) =>
      if r !in s.reqs || !s.reqs[r].LoggedIn? then s
      else
        var pc := s.reqs[r];
        if pc.rec.protected && !pc.exempt then
          if id == "" || id in s.ids then s
          else
            var t := Token(false, id, pc.user, pc.rec.epoch, Some(s.now + ttl));
            Logged(Done(s.(tokens := s.tokens + {t}, ids := s.ids + {id}), r), Challenged(r, pc.user, id))
        else Goto(s, r, Issuing(pc.user, pc.rec, Password(pc.exempt)))
    case _ => s
  }

  /** The second factor, by code or by passkey. */
  function FactorStep(s: State, op: Op): State {
    match op
    case Parse(r, t, passkey) =>
      if r in s.used || t !in s.tokens || t.session || t.expiry.None? || t.expiry.value <= s.now
         || (passkey && t.id == "") then s
      else Start(s, r, Parsed(passkey, t))
    case Spend(r, scanned) =>
      if r !in s.reqs || !s.reqs[r].Parsed? || s.reqs[r].token.expiry.None? then s
      else
        var t, passkey := s.reqs[r].token, s.reqs[r].passkey;
        var (ok, seen) := ChallengeStore.Spent(s.seen, ChallengeStore.Op(t.id, t.expiry.value, s.now), scanned);
        if !ok then Done(s.(seen := seen), r)
        else Logged(Goto(s.(seen := seen), r, HasSpent(passkey, t, s.now)),
          Spent(r, t.user, t.id, t.expiry.value, s.now))
    case TakeForLogin(r) =>
      if r !in s.reqs || !s.reqs[r].HasSpent? || !s.reqs[r].passkey then s
      else
        var t, at := s.reqs[r].token, s.reqs[r].at;
        var found := BoundedSweep.At(s.open, Ceremonies.ExpiresOf, LoginKey(t.id), s.now);
        var s' := s.(open := s.open - {LoginKey(t.id)});
        if found.None? then Done(s', r)
        else Logged(Goto(s', r, HasTaken(t, at, found.value.serial)), Took(r, LoginKey(t.id), found.value.serial))
    case ReadUser(r) =>
      if r !in s.reqs then s
      else if s.reqs[r].HasSpent? && !s.reqs[r].passkey && s.reqs[r].token.user in s.accounts then
        var t := s.reqs[r].token;
        var rec := RecordOf(s, t.user);
        Logged(Goto(s, r, KnownForCode(t, s.reqs[r].at, rec)), UserRead(r, t.user, rec))
      else if s.reqs[r].HasTaken? && s.reqs[r].token.user in s.accounts then
        var t := s.reqs[r].token;
        var rec := RecordOf(s, t.user);
        Logged(Goto(s, r, KnownForKey(t, s.reqs[r].at, s.reqs[r].serial, rec)), UserRead(r, t.user, rec))
      else s
    case Burn(r, f, c) =>
      if r !in s.reqs || !s.reqs[r].KnownForCode? || s.reqs[r].token.expiry.None?
         || f !in s.factors || !s.factors[f].totp || s.factors[f].owner != s.reqs[r].token.user
         || c <= s.factors[f].counter then s
      else
        var pc := s.reqs[r];
        var via := Totp(pc.token.id, pc.token.expiry.value, pc.at, f, c);
        Logged(Goto(s.(factors := s.factors[f := s.factors[f].(counter := c)]), r, Issuing(pc.token.user, pc.rec, via)),
               Burnt(r, pc.token.user, f, c))
    case Verify(r, f) =>
      if r !in s.reqs || !s.reqs[r].KnownForKey? || s.reqs[r].token.expiry.None?
         || f !in s.factors || s.factors[f].totp || s.factors[f].owner != s.reqs[r].token.user then s
      else
        var pc := s.reqs[r];
        var via := Passkey(pc.token.id, pc.token.expiry.value, pc.at, pc.serial, f);
        Logged(Goto(s, r, Issuing(pc.token.user, pc.rec, via)), Verified(r, pc.token.user, pc.serial, f))
    case _ => s
  }

  /** Opening ceremonies, and the sign-in that rests on a passkey alone. */
  function CeremonyStep(s: State, op: Op): State {
    match op
    case BeginPasskeyLogin(t, scanned) =>
      if t !in s.tokens || t.session || t.id == "" then s
      else
        var c := Ceremonies.Ceremony(s.nextSerial, s.now + Ceremonies.TTL, true);
        var (_, open) := Ceremonies.AfterPut(s.open, OPEN_LIMIT, LoginKey(t.id), c, s.now, scanned);
        s.(open := open, nextSerial := s.nextSerial + 1)
    case BeginAlone(id, scanned) =>
      var c := Ceremonies.Ceremony(s.nextSerial, s.now + Ceremonies.TTL, true);
      var (_, open) := Ceremonies.AfterPut(s.publicOpen, PUBLIC_LIMIT, AloneKey(id), c, s.now, scanned);
      s.(publicOpen := open, nextSerial := s.nextSerial + 1)
    case TakeAlone(r, id) =>
      if r in s.used || id == "" then s
      else
        var found := BoundedSweep.At(s.publicOpen, Ceremonies.ExpiresOf, AloneKey(id), s.now);
        var s' := s.(publicOpen := s.publicOpen - {AloneKey(id)}, used := s.used + {r});
        if found.None? then s'
        else Logged(Goto(s', r, HasTakenAlone(AloneKey(id), found.value.serial)),
          Took(r, AloneKey(id), found.value.serial))
    case VerifyAlone(r, f, uv) =>
      if r !in s.reqs || !s.reqs[r].HasTakenAlone? || f !in s.factors || s.factors[f].totp
         || s.factors[f].owner !in s.accounts then s
      else
        var u, pc := s.factors[f].owner, s.reqs[r];
        var rec := RecordOf(s, u);
        if !uv || !rec.local || !rec.passwordless then Done(s, r)
        else Logged(Goto(s, r, Issuing(u, rec, KeyAlone(pc.key, pc.serial, f))),
          VerifiedAlone(r, u, rec, pc.serial, f, uv))
    case _ => s
  }

  /** issueSession (token, then row), and the two reads of the session check. */
  function SessionStep(s: State, op: Op): State {
    match op
    case Mint(r, id, ttl) =>
      if r !in s.reqs || !s.reqs[r].Issuing? || id == "" || id in s.ids then s
      else
        var pc := s.reqs[r];
        var t := Token(true, id, pc.user, pc.rec.epoch, Some(s.now + ttl));
        Goto(s.(tokens := s.tokens + {t}, ids := s.ids + {id}), r, Holding(pc.user, pc.rec, pc.via, t))
    case CreateRow(r) =>
      if r !in s.reqs || !s.reqs[r].Holding? then s
      else
        var pc := s.reqs[r];
        Logged(Done(s.(rows := s.rows[pc.token.id := pc.user]), r), Session(r, pc.user, pc.token, pc.rec, pc.via))
    case CheckEpoch(r, t) =>
      if r in s.used || t !in s.tokens || !t.session || t.id == "" || t.user !in s.accounts
         || (t.expiry.Some? && t.expiry.value <= s.now) then s
      else if s.accounts[t.user].epoch == t.epoch
      then Logged(Start(s, r, EpochPassed(t)), EpochCheck(r, t, true))
      else Logged(s.(used := s.used + {r}), EpochCheck(r, t, false))
    case CheckRow(r) =>
      if r !in s.reqs || !s.reqs[r].EpochPassed? then s
      else
        var t := s.reqs[r].token;
        if t.id in s.rows && s.rows[t.id] == t.user then Logged(Goto(s, r, InSession(t)), Admitted(r, t))
        else Done(s, r)
    case _ => s
  }

  function WithoutRowsOf(rows: map<string, int>, user: int): map<string, int> {
    map id | id in rows && rows[id] != user :: rows[id]
  }

  /** ChangeOwnPassword, for a request let in: the current password of a local account is
      proved against the record read, then the rows go, the epoch moves, and the record
      read again is what the new session is issued from. */
  function ChangeStep(s: State, op: Op): State {
    match op
    case ProveOwn(r) =>
      if r !in s.reqs || !s.reqs[r].InSession? || s.reqs[r].token.user !in s.accounts then s
      else
        var t := s.reqs[r].token;
        var rec := RecordOf(s, t.user);
        if !rec.local then Done(s, r)
        else Logged(Goto(s, r, OwnProved(t, rec)), OwnPasswordOk(r, t.user, rec))
    case DropOwn(r) =>
      if r !in s.reqs || !s.reqs[r].OwnProved? then s
      else
        var pc := s.reqs[r];
        Goto(s.(rows := WithoutRowsOf(s.rows, pc.token.user)), r, RowsDropped(pc.token, pc.known))
    case BumpOwn(r) =>
      if r !in s.reqs || !s.reqs[r].RowsDropped? || s.reqs[r].token.user !in s.accounts then s
      else
        var pc := s.reqs[r];
        Goto(AccountStep(s, Bump(pc.token.user)), r, EpochMoved(pc.token, pc.known))
    case Reread(r) =>
      if r !in s.reqs || !s.reqs[r].EpochMoved? || s.reqs[r].token.user !in s.accounts then s
      else
        var t := s.reqs[r].token;
        var rec := RecordOf(s, t.user);
        Logged(Goto(s, r, Issuing(t.user, rec, Change(t, s.reqs[r].known))), UserRead(r, t.user, rec))
    case _ => s
  }

  function Step(s: State, op: Op): State {
    match op
    case Tick(_) => AccountStep(s, op)
    case Pair(_, _) => AccountStep(s, op)
    case Unpair(_) => AccountStep(s, op)
    case SetPasswordless(_, _) => AccountStep(s, op)
    case SetSource(_, _) => AccountStep(s, op)
    case DeleteSessions(_) => AccountStep(s, op)
    case DeleteSession(_, _) => AccountStep(s, op)
    case Bump(_) => AccountStep(s, op)
    case PasswordCheck(_, _, _) => LoginStep(s, op)
    case AnswerLogin(_, _, _) => LoginStep(s, op)
    case BeginPasskeyLogin(_, _) => CeremonyStep(s, op)
    case BeginAlone(_, _) => CeremonyStep(s, op)
    case TakeAlone(_, _) => CeremonyStep(s, op)
    case VerifyAlone(_, _, _) => CeremonyStep(s, op)
    case Mint(_, _, _) => SessionStep(s, op)
    case CreateRow(_) => SessionStep(s, op)
    case CheckEpoch(_, _) => SessionStep(s, op)
    case CheckRow(_) => SessionStep(s, op)
    case ProveOwn(_) => ChangeStep(s, op)
    case DropOwn(_) => ChangeStep(s, op)
    case BumpOwn(_) => ChangeStep(s, op)
    case Reread(_) => ChangeStep(s, op)
    case _ => FactorStep(s, op)
  }

  /** A server starting up: any accounts and factors, nothing in flight. Tokens minted
      by a build that gave them no id may still be about. */
  ghost predicate Init(s: State) {
    && s.seen == map[] && s.open == map[] && s.publicOpen == map[] && s.rows == map[]
    && s.used == {} && s.reqs == map[] && s.log == [] && s.ids == {}
    && (forall t :: t in s.tokens ==> t.id == "")
    && (forall f :: f in s.factors ==> f < s.nextFactor)
  }

  function Run(s: State, ops: seq<Op>): State {
    if ops == [] then s else Step(Run(s, ops[..|ops| - 1]), ops[|ops| - 1])
  }
}
