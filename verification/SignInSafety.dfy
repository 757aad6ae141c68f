/** What every run of the sign-in machine keeps, and the theorems that follow. */
module SignInSafety {
  import opened BoundedSweep
  import opened Options
  import opened SignIn
  import ChallengeStore
  import Ceremonies

  // ----- evidence -----

  /** The events `es` happened in this order, among others. */
  ghost predicate Trail(log: seq<Event>, es: seq<Event>) {
    es == [] || (log != [] &&
                 var init := log[..|log| - 1];
                 || (log[|log| - 1] == es[|es| - 1] && Trail(init, es[..|es| - 1]))
                 || Trail(init, es))
  }

  /** The events that must lie behind a session issued by `req`. */
  function TrailOf(req: int, user: int, rec: Record, via: Via): seq<Event> {
    match via
    case Password(exempt) => [PasswordOk(req, user, rec, exempt)]
    case Totp(id, expiry, at, f, c) =>
      [Spent(req, user, id, expiry, at), UserRead(req, user, rec), Burnt(req, user, f, c)]
    case Passkey(id, expiry, at, serial, f) =>
      [Spent(req, user, id, expiry, at), Took(req, LoginKey(id), serial), UserRead(req, user, rec),
       Verified(req, user, serial, f)]
    case KeyAlone(key, serial, f) => [Took(req, key, serial), VerifiedAlone(req, user, rec, serial, f, true)]
    case Change(t, known) =>
      [EpochCheck(req, t, true), Admitted(req, t), OwnPasswordOk(req, user, known), Bumped(user),
        UserRead(req, user, rec)]
  }

  /** When that evidence is enough. */
  predicate Enough(user: int, rec: Record, via: Via) {
    match via
    case Change(t, known) => t.user == user && known.local
    case Password(exempt) => exempt || !rec.protected
    case KeyAlone(_, _, _) => rec.local && rec.passwordless
    case _ => true
  }

  /** The events behind a request at one of its points. */
  function TrailSoFar(req: int, pc: Pc): seq<Event> {
    match pc
    case LoggedIn(u, rec, exempt) => [PasswordOk(req, u, rec, exempt)]
    case Parsed(_, _) => []
    case HasSpent(_, t, at) => [Spent(req, t.user, t.id, ExpiryOf(t), at)]
    case HasTaken(t, at, serial) => [Spent(req, t.user, t.id, ExpiryOf(t), at), Took(req, LoginKey(t.id), serial)]
    case KnownForCode(t, at, rec) => [Spent(req, t.user, t.id, ExpiryOf(t), at), UserRead(req, t.user, rec)]
    case KnownForKey(t, at, serial, rec) =>
      [Spent(req, t.user, t.id, ExpiryOf(t), at), Took(req, LoginKey(t.id), serial), UserRead(req, t.user, rec)]
    case HasTakenAlone(key, serial) => [Took(req, key, serial)]
    case Issuing(u, rec, via) => TrailOf(req, u, rec, via)
    case Holding(u, rec, via, _) => TrailOf(req, u, rec, via)
    case EpochPassed(t) => [EpochCheck(req, t, true)]
    case InSession(t) => [EpochCheck(req, t, true), Admitted(req, t)]
    case OwnProved(t, known) => [EpochCheck(req, t, true), Admitted(req, t), OwnPasswordOk(req, t.user, known)]
    case RowsDropped(t, known) => [EpochCheck(req, t, true), Admitted(req, t), OwnPasswordOk(req, t.user, known)]
    case EpochMoved(t, known) =>
      [EpochCheck(req, t, true), Admitted(req, t), OwnPasswordOk(req, t.user, known), Bumped(t.user)]
  }

  function ExpiryOf(t: Token): int {
    if t.expiry.Some? then t.expiry.value else 0
  }

  function Bumps(log: seq<Event>, user: int): nat {
    if log == [] then 0
    else Bumps(log[..|log| - 1], user) + (if log[|log| - 1] == Bumped(user) then 1 else 0)
  }

  function EpochAt(base: map<int, Account>, log: seq<Event>, user: int): int {
    (if user in base then base[user].epoch else 0) + Bumps(log, user)
  }

  /** Why an event may appear after `before`. */
  ghost predicate Sound(base: map<int, Account>, before: seq<Event>, e: Event) {
    match e
    case PasswordOk(_, u, rec, _) => rec.epoch == EpochAt(base, before, u)
    case UserRead(_, u, rec) => rec.epoch == EpochAt(base, before, u)
    case Challenged(r, u, id) =>
      && (exists rec: Record :: rec.protected && Trail(before, [PasswordOk(r, u, rec, false)]))
      && (forall e' :: e' in before && e'.Challenged? ==> e'.id != id)
    case Spent(_, u, id, expiry, at) =>
      && (exists r :: Trail(before, [Challenged(r, u, id)]))
      && (forall e' :: e' in before && e'.Spent? && e'.id == id ==> e'.user == u && e'.expiry == expiry <= at)
    case Took(_, _, serial) => forall e' :: e' in before && e'.Took? ==> e'.serial != serial
    case Burnt(_, _, f, c) => forall e' :: e' in before && e'.Burnt? && e'.factor == f ==> e'.counter < c
    case Verified(_, _, _, _) => true
    case VerifiedAlone(_, u, rec, _, _, uv) =>
      uv && rec.local && rec.passwordless && rec.epoch == EpochAt(base, before, u)
    case Session(r, u, t, rec, via) =>
      && Trail(before, TrailOf(r, u, rec, via)) && Enough(u, rec, via)
      && t.session && t.user == u && t.epoch == rec.epoch && t.id != ""
      && (forall e' :: e' in before && e'.Session? ==> e'.req != r)
    case Bumped(_) => true
    case EpochCheck(_, t, ok) => ok <==> t.epoch == EpochAt(base, before, t.user)
    case Admitted(r, t) =>
      && Trail(before, [EpochCheck(r, t, true)])
      && exists e' :: e' in before && e'.Session? && e'.token == t
    case OwnPasswordOk(_, u, rec) => rec.local && rec.epoch == EpochAt(base, before, u)
  }

  ghost predicate AllSound(base: map<int, Account>, log: seq<Event>) {
    forall i {:trigger Sound(base, log[..i], log[i])} :: 0 <= i < |log| ==> Sound(base, log[..i], log[i])
  }

  // ----- what ties the rest of the state to the log -----

  ghost predicate PcOk(log: seq<Event>, tokens: set<Token>, r: int, pc: Pc) {
    && Trail(log, TrailSoFar(r, pc))
    && (pc.Parsed? ==> pc.token in tokens && !pc.token.session && pc.token.expiry.Some?)
    && (pc.Issuing? || pc.Holding? ==> Enough(pc.user, pc.rec, pc.via))
    && (pc.Holding? ==> pc.token in tokens && pc.token.session && pc.token.user == pc.user
                        && pc.token.epoch == pc.rec.epoch && pc.token.id != "")
    && (pc.EpochPassed? ==> pc.token in tokens && pc.token.session && pc.token.id != "")
    && (pc.OwnProved? || pc.RowsDropped? || pc.EpochMoved? ==> pc.known.local)
  }

  ghost predicate Requests(reqs: map<int, Pc>, used: set<int>, tokens: set<Token>, log: seq<Event>) {
    && (forall r :: r in reqs ==> r in used && PcOk(log, tokens, r, reqs[r]))
    && (forall e :: e in log && e.Session? ==> e.req in used && e.req !in reqs)
  }

  ghost predicate Tokens(tokens: set<Token>, ids: set<string>, log: seq<Event>) {
    && (forall t :: t in tokens && t.id != "" ==> t.id in ids)
    && (forall t, t' :: t in tokens && t' in tokens && t.id == t'.id && t.id != "" ==> t == t')
    && (forall t :: t in tokens && t.id != "" && !t.session ==> exists r :: Trail(log, [Challenged(r, t.user, t.id)]))
    && (forall e :: e in log && e.Challenged? ==> e.id in ids)
    && (forall e :: e in log && e.Session? ==> e.token in tokens)
  }

  ghost predicate Came(tokens: set<Token>, e: Event)
    requires e.Spent?
  {
    exists t :: t in tokens && !t.session && t.id == e.id && t.user == e.user && t.expiry == Some(e.expiry)
  }

  ghost predicate SpentTable(log: seq<Event>, tokens: set<Token>, seen: ChallengeStore.Seen, now: int) {
    forall e :: e in log && e.Spent? ==>
      e.id != "" && Came(tokens, e) && ((e.id in seen && seen[e.id] == e.expiry) || e.expiry < now)
  }

  ghost predicate CeremonyTables(open: Ceremonies.Open, public: Ceremonies.Open, next: int, log: seq<Event>) {
    && Distinct(open, next) && Distinct(public, next)
    && (forall k, k' :: k in open && k' in public ==> open[k].serial != public[k'].serial)
    && (forall e :: e in log && e.Took? ==> e.serial < next && NotHeld(open, e.serial) && NotHeld(public, e.serial))
  }

  ghost predicate Distinct(open: Ceremonies.Open, next: int) {
    && (forall k :: k in open ==> open[k].serial < next)
    && (forall k, k' :: k in open && k' in open && k != k' ==> open[k].serial != open[k'].serial)
  }

  ghost predicate NotHeld(open: Ceremonies.Open, serial: int) {
    forall k :: k in open ==> open[k].serial != serial
  }

  ghost predicate Counters(factors: map<int, Factor>, next: int, log: seq<Event>) {
    && (forall f :: f in factors ==> f < next)
    && (forall e :: e in log && e.Burnt? ==>
          e.factor < next && (e.factor in factors ==> e.counter <= factors[e.factor].counter))
  }

  ghost predicate Rows(rows: map<string, int>, log: seq<Event>) {
    forall id :: id in rows ==> exists e :: e in log && e.Session? && e.token.id == id
  }

  ghost predicate Epochs(accounts: map<int, Account>, base: map<int, Account>, log: seq<Event>) {
    && accounts.Keys == base.Keys
    && (forall u :: u in accounts ==> accounts[u].epoch == EpochAt(base, log, u))
  }

  ghost predicate Inv(s: State, base: map<int, Account>) {
    && AllSound(base, s.log)
    && Requests(s.reqs, s.used, s.tokens, s.log)
    && Tokens(s.tokens, s.ids, s.log)
    && SpentTable(s.log, s.tokens, s.seen, s.now)
    && CeremonyTables(s.open, s.publicOpen, s.nextSerial, s.log)
    && Counters(s.factors, s.nextFactor, s.log)
    && Rows(s.rows, s.log)
    && Epochs(s.accounts, base, s.log)
  }

  // ----- an event that a table does not care about -----

  lemma TrailGrows(log: seq<Event>, e: Event, es: seq<Event>)
    requires Trail(log, es)
    ensures Trail(log + [e], es)
    ensures Trail(log + [e], es + [e])
  {
    assert (log + [e])[..|log|] == log;
    assert (es + [e])[..|es|] == es;
  }

  lemma TrailNow(log: seq<Event>, e: Event)
    ensures Trail(log + [e], [e])
  {
    TrailGrows(log, e, []);
  }

  lemma SoundGrows(base: map<int, Account>, log: seq<Event>, e: Event)
    requires AllSound(base, log) && Sound(base, log, e)
    ensures AllSound(base, log + [e])
  {
    forall i | 0 <= i < |log + [e]|
      ensures Sound(base, (log + [e])[..i], (log + [e])[i])
    {
      assert (log + [e])[..i] == log[..i];
      assert log[..|log|] == log;
    }
  }

  lemma RequestsGrow(reqs: map<int, Pc>, used: set<int>, tokens: set<Token>, log: seq<Event>, e: Event)
    requires Requests(reqs, used, tokens, log) && !e.Session?
    ensures Requests(reqs, used, tokens, log + [e])
  {
    forall r | r in reqs ensures PcOk(log + [e], tokens, r, reqs[r]) {
      TrailGrows(log, e, TrailSoFar(r, reqs[r]));
    }
  }

  lemma TokensGrow(tokens: set<Token>, ids: set<string>, log: seq<Event>, e: Event)
    requires Tokens(tokens, ids, log)
    requires e.Challenged? ==> e.id in ids
    requires e.Session? ==> e.token in tokens
    ensures Tokens(tokens, ids, log + [e])
  {
    forall t | t in tokens && t.id != "" && !t.session
      ensures exists r :: Trail(log + [e], [Challenged(r, t.user, t.id)])
    {
      var r :| Trail(log, [Challenged(r, t.user, t.id)]);
      TrailGrows(log, e, [Challenged(r, t.user, t.id)]);
    }
  }

  lemma EpochsGrow(accounts: map<int, Account>, base: map<int, Account>, log: seq<Event>, e: Event)
    requires Epochs(accounts, base, log) && !e.Bumped?
    ensures Epochs(accounts, base, log + [e])
  {
    assert (log + [e])[..|log|] == log;
  }

  lemma RowsGrow(rows: map<string, int>, log: seq<Event>, e: Event)
    requires Rows(rows, log)
    ensures Rows(rows, log + [e])
  {
    forall id | id in rows ensures exists e' :: e' in log + [e] && e'.Session? && e'.token.id == id {
      var e' :| e' in log && e'.Session? && e'.token.id == id;
      assert e' in log + [e];
    }
  }

  /** Everything but the requests, for an event of no table's concern. */
  lemma QuietGrows(s: State, e: Event, base: map<int, Account>)
    requires Inv(s, base) && Sound(base, s.log, e)
    requires !e.Session? && !e.Challenged? && !e.Spent? && !e.Took? && !e.Burnt? && !e.Bumped?
    ensures Inv(Logged(s, e), base)
  {
    SoundGrows(base, s.log, e);
    RequestsGrow(s.reqs, s.used, s.tokens, s.log, e);
    TokensGrow(s.tokens, s.ids, s.log, e);
    EpochsGrow(s.accounts, base, s.log, e);
    RowsGrow(s.rows, s.log, e);
  }

  // ----- moving a request -----

  lemma Moved(s: State, r: int, pc: Pc, base: map<int, Account>)
    requires Inv(s, base) && PcOk(s.log, s.tokens, r, pc)
    requires r in s.reqs || r !in s.used
    ensures Inv(Start(s, r, pc), base)
    ensures r in s.reqs ==> Inv(Goto(s, r, pc), base)
  {
    hide Tokens, SpentTable, CeremonyTables, Counters, Rows, Epochs, AllSound, PcOk;
    if r in s.reqs {
      assert s.used + {r} == s.used;
    }
  }

  lemma Dropped(s: State, r: int, base: map<int, Account>)
    requires Inv(s, base)
    ensures Inv(Done(s, r), base)
    ensures r !in s.reqs ==> Inv(s.(used := s.used + {r}), base)
  {
    hide Tokens, SpentTable, CeremonyTables, Counters, Rows, Epochs, AllSound, PcOk;
  }

  /** A new token harms neither the requests nor the table of the spent. */
  lemma MoreTokens(s: State, t: Token, base: map<int, Account>)
    requires Inv(s, base)
    ensures Requests(s.reqs, s.used, s.tokens + {t}, s.log)
    ensures SpentTable(s.log, s.tokens + {t}, s.seen, s.now)
  {
    hide CeremonyTables, Counters, Rows, Epochs, AllSound, Trail;
    forall e | e in s.log && e.Spent?
      ensures Came(s.tokens + {t}, e)
    {
      var t' :| t' in s.tokens && !t'.session && t'.id == e.id && t'.user == e.user && t'.expiry == Some(e.expiry);
      assert t' in s.tokens + {t};
    }
  }

  // ----- every step keeps the invariant -----

  lemma BumpInv(s: State, u: int, base: map<int, Account>)
    requires Inv(s, base)
    ensures Inv(AccountStep(s, Bump(u)), base)
  {
    hide Requests, Tokens, SpentTable, CeremonyTables, Counters, Rows, AllSound;
    var e := Bumped(u);
    SoundGrows(base, s.log, e);
    RequestsGrow(s.reqs, s.used, s.tokens, s.log, e);
    TokensGrow(s.tokens, s.ids, s.log, e);
    RowsGrow(s.rows, s.log, e);
    OtherTablesGrow(s, e);
    assert (s.log + [e])[..|s.log|] == s.log;
  }

  lemma OtherTablesGrow(s: State, e: Event)
    ensures !e.Spent? && SpentTable(s.log, s.tokens, s.seen, s.now) ==> SpentTable(s.log + [e], s.tokens, s.seen, s.now)
    ensures !e.Took? && CeremonyTables(s.open, s.publicOpen, s.nextSerial, s.log) ==>
              CeremonyTables(s.open, s.publicOpen, s.nextSerial, s.log + [e])
    ensures !e.Burnt? && Counters(s.factors, s.nextFactor, s.log) ==> Counters(s.factors, s.nextFactor, s.log + [e])
  {
  }

  lemma AccountStepInv(s: State, op: Op, base: map<int, Account>)
    requires Inv(s, base)
    ensures Inv(AccountStep(s, op), base)
  {
    hide Requests, Tokens, CeremonyTables, AllSound, Trail, Sound, PcOk;
    if op.Bump? {
      BumpInv(s, op.user, base);
    }
  }

  lemma PasswordCheckInv(s: State, r: int, u: int, exempt: bool, base: map<int, Account>)
    requires Inv(s, base)
    ensures Inv(LoginStep(s, PasswordCheck(r, u, exempt)), base)
  {
    hide Requests, Tokens, SpentTable, CeremonyTables, Counters, Rows, AllSound, Trail;
    if r !in s.used && u in s.accounts {
      var rec := RecordOf(s, u);
      var e := PasswordOk(r, u, rec, exempt);
      QuietGrows(s, e, base);
      TrailNow(s.log, e);
      Moved(Logged(s, e), r, LoggedIn(u, rec, exempt), base);
    }
  }

  lemma ChallengeInv(s: State, r: int, id: string, t: Token, rec: Record, base: map<int, Account>)
    requires Inv(s, base) && id != "" && id !in s.ids
    requires !t.session && t.id == id
    requires rec.protected && Trail(s.log, [PasswordOk(r, t.user, rec, false)])
    ensures Inv(Logged(s.(tokens := s.tokens + {t}, ids := s.ids + {id}), Challenged(r, t.user, id)), base)
  {
    hide Counters, CeremonyTables, Rows, Epochs, AllSound, Trail;
    var e := Challenged(r, t.user, id);
    SoundGrows(base, s.log, e);
    MoreTokens(s, t, base);
    var s' := s.(tokens := s.tokens + {t}, ids := s.ids + {id});
    RequestsGrow(s'.reqs, s'.used, s'.tokens, s'.log, e);
    OtherTablesGrow(s', e);
    RowsGrow(s'.rows, s'.log, e);
    EpochsGrow(s'.accounts, base, s'.log, e);
    TrailNow(s.log, e);
    TokensGrow(s.tokens, s'.ids, s.log, e);
    assert forall t' :: t' in s'.tokens ==> t' in s.tokens || t' == t;
    assert Tokens(s'.tokens, s'.ids, s'.log + [e]);
  }

  lemma AnswerLoginInv(s: State, r: int, id: string, ttl: nat, base: map<int, Account>)
    requires Inv(s, base)
    ensures Inv(LoginStep(s, AnswerLogin(r, id, ttl)), base)
  {
    hide Tokens, SpentTable, CeremonyTables, Counters, Rows, Epochs, AllSound, Trail;
    if r in s.reqs && s.reqs[r].LoggedIn? {
      var pc := s.reqs[r];
      assert PcOk(s.log, s.tokens, r, pc);
      if !pc.rec.protected || pc.exempt {
        Moved(s, r, Issuing(pc.user, pc.rec, Password(pc.exempt)), base);
      } else if id != "" && id !in s.ids {
        var t := Token(false, id, pc.user, pc.rec.epoch, Some(s.now + ttl));
        ChallengeInv(s, r, id, t, pc.rec, base);
        Dropped(Logged(s.(tokens := s.tokens + {t}, ids := s.ids + {id}), Challenged(r, pc.user, id)), r, base);
      }
    }
  }

  lemma ParseInv(s: State, r: int, t: Token, passkey: bool, base: map<int, Account>)
    requires Inv(s, base)
    ensures Inv(FactorStep(s, Parse(r, t, passkey)), base)
  {
    hide Requests, Tokens, SpentTable, CeremonyTables, Counters, Rows, Epochs, AllSound;
    if r !in s.used && t in s.tokens && !t.session && t.expiry.Some? {
      Moved(s, r, Parsed(passkey, t), base);
    }
  }

  /** A granted spend: the table now holds the id, and any earlier grant of the same id
      has run out. */
  lemma SpentInv(s: State, r: int, t: Token, seen: ChallengeStore.Seen, scanned: set<string>, base: map<int, Account>)
    requires Inv(s, base) && t in s.tokens && !t.session && t.expiry.Some?
    requires ChallengeStore.Spent(s.seen, ChallengeStore.Op(t.id, t.expiry.value, s.now), scanned) == (true, seen)
    ensures Inv(Logged(s.(seen := seen), Spent(r, t.user, t.id, t.expiry.value, s.now)), base)
  {
    hide Counters, CeremonyTables, Rows, Epochs, AllSound, Trail, Requests;
    var e := Spent(r, t.user, t.id, t.expiry.value, s.now);
    forall e' | e' in s.log && e'.Spent? && e'.id == t.id
      ensures e'.user == t.user && e'.expiry == e.expiry <= e.at
    {
      var t' :| t' in s.tokens && !t'.session && t'.id == e'.id && t'.user == e'.user && t'.expiry == Some(e'.expiry);
    }
    SoundGrows(base, s.log, e);
    RequestsGrow(s.reqs, s.used, s.tokens, s.log, e);
    TokensGrow(s.tokens, s.ids, s.log, e);
    RowsGrow(s.rows, s.log, e);
    EpochsGrow(s.accounts, base, s.log, e);
    OtherTablesGrow(s, e);
    assert Came(s.tokens, e);
    assert SpentTable(s.log + [e], s.tokens, seen, s.now);
  }

  lemma SpendInv(s: State, r: int, scanned: set<string>, base: map<int, Account>)
    requires Inv(s, base)
    ensures Inv(FactorStep(s, Spend(r, scanned)), base)
  {
    hide Tokens, CeremonyTables, Counters, Rows, Epochs, AllSound, Trail;
    if r in s.reqs && s.reqs[r].Parsed? && s.reqs[r].token.expiry.Some? {
      var t, passkey := s.reqs[r].token, s.reqs[r].passkey;
      var (ok, seen) := ChallengeStore.Spent(s.seen, ChallengeStore.Op(t.id, t.expiry.value, s.now), scanned);
      if ok {
        SpentInv(s, r, t, seen, scanned, base);
        var e := Spent(r, t.user, t.id, t.expiry.value, s.now);
        TrailNow(s.log, e);
        Moved(Logged(s.(seen := seen), e), r, HasSpent(passkey, t, s.now), base);
      } else {
        assert SpentTable(s.log, s.tokens, seen, s.now);
        Dropped(s.(seen := seen), r, base);
      }
    }
  }

  lemma TookInv(s: State, open: Ceremonies.Open, public: Ceremonies.Open, r: int, key: string, serial: int,
                base: map<int, Account>)
    requires Inv(s, base)
    requires CeremonyTables(open, public, s.nextSerial, s.log)
    requires serial < s.nextSerial && NotHeld(open, serial) && NotHeld(public, serial)
    requires forall e :: e in s.log && e.Took? ==> e.serial != serial
    ensures Inv(Logged(s.(open := open, publicOpen := public), Took(r, key, serial)), base)
  {
    hide Counters, SpentTable, Rows, Epochs, AllSound, Trail, Requests, Tokens;
    var e := Took(r, key, serial);
    SoundGrows(base, s.log, e);
    RequestsGrow(s.reqs, s.used, s.tokens, s.log, e);
    TokensGrow(s.tokens, s.ids, s.log, e);
    RowsGrow(s.rows, s.log, e);
    EpochsGrow(s.accounts, base, s.log, e);
    OtherTablesGrow(s, e);
  }

  /** Taking a ceremony out: nothing left carries its serial, and it was never taken before. */
  lemma TakenOut(open: Ceremonies.Open, public: Ceremonies.Open, next: int, log: seq<Event>, key: string)
    requires CeremonyTables(open, public, next, log)
    ensures CeremonyTables(open - {key}, public, next, log) && CeremonyTables(open, public - {key}, next, log)
    ensures key in open ==>
              && open[key].serial < next && NotHeld(open - {key}, open[key].serial) && NotHeld(public, open[key].serial)
              && forall e :: e in log && e.Took? ==> e.serial != open[key].serial
    ensures key in public ==>
              && public[key].serial < next && NotHeld(open, public[key].serial)
              && NotHeld(public - {key}, public[key].serial)
              && forall e :: e in log && e.Took? ==> e.serial != public[key].serial
  {
  }

  lemma TakeForLoginInv(s: State, r: int, base: map<int, Account>)
    requires Inv(s, base)
    ensures Inv(FactorStep(s, TakeForLogin(r)), base)
  {
    hide Tokens, SpentTable, CeremonyTables, NotHeld, Counters, Rows, Epochs, AllSound, Trail;
    if r in s.reqs && s.reqs[r].HasSpent? && s.reqs[r].passkey {
      var t, at := s.reqs[r].token, s.reqs[r].at;
      assert PcOk(s.log, s.tokens, r, s.reqs[r]);
      var key := LoginKey(t.id);
      var found := BoundedSweep.At(s.open, Ceremonies.ExpiresOf, key, s.now);
      var open := s.open - {key};
      TakenOut(s.open, s.publicOpen, s.nextSerial, s.log, key);
      if found.None? {
        Dropped(s.(open := open), r, base);
      } else {
        var e := Took(r, key, found.value.serial);
        TookInv(s, open, s.publicOpen, r, key, found.value.serial, base);
        TrailGrows(s.log, e, TrailSoFar(r, s.reqs[r]));
        assert TrailSoFar(r, HasTaken(t, at, found.value.serial)) == TrailSoFar(r, s.reqs[r]) + [e];
        Moved(Logged(s.(open := open), e), r, HasTaken(t, at, found.value.serial), base);
      }
    }
  }

  /** A request moves on and leaves an event no table cares about. */
  lemma QuietStep(s: State, r: int, pc: Pc, e: Event, base: map<int, Account>)
    requires Inv(s, base) && Sound(base, s.log, e) && r in s.reqs
    requires e.UserRead? || e.Verified? || e.VerifiedAlone? || e.OwnPasswordOk?
    requires TrailSoFar(r, pc) == TrailSoFar(r, s.reqs[r]) + [e]
    requires !pc.Parsed? && !pc.Holding? && !pc.EpochPassed? && !pc.RowsDropped? && !pc.EpochMoved?
    requires (pc.OwnProved? ==> pc.known.local) && (pc.Issuing? ==> Enough(pc.user, pc.rec, pc.via))
    ensures Inv(Goto(Logged(s, e), r, pc), base)
  {
    hide Tokens, SpentTable, CeremonyTables, Counters, Rows, Epochs, AllSound, Trail, Sound;
    assert PcOk(s.log, s.tokens, r, s.reqs[r]);
    QuietGrows(s, e, base);
    TrailGrows(s.log, e, TrailSoFar(r, s.reqs[r]));
    Moved(Logged(s, e), r, pc, base);
  }

  lemma ReadUserInv(s: State, r: int, base: map<int, Account>)
    requires Inv(s, base)
    ensures Inv(FactorStep(s, ReadUser(r)), base)
  {
    hide Requests, Tokens, SpentTable, CeremonyTables, Counters, Rows, AllSound, Trail, PcOk;
    if r in s.reqs && (s.reqs[r].HasSpent? || s.reqs[r].HasTaken?) && s.reqs[r].token.user in s.accounts {
      var pc := s.reqs[r];
      var rec := RecordOf(s, pc.token.user);
      var e := UserRead(r, pc.token.user, rec);
      if pc.HasTaken? {
        QuietStep(s, r, KnownForKey(pc.token, pc.at, pc.serial, rec), e, base);
      } else if !pc.passkey {
        QuietStep(s, r, KnownForCode(pc.token, pc.at, rec), e, base);
      }
    }
  }

  lemma BurntInv(s: State, r: int, u: int, f: int, c: int, base: map<int, Account>)
    requires Inv(s, base) && f in s.factors && s.factors[f].counter < c
    ensures Inv(Logged(s.(factors := s.factors[f := s.factors[f].(counter := c)]), Burnt(r, u, f, c)), base)
  {
    hide SpentTable, CeremonyTables, Rows, Epochs, AllSound, Trail, Requests, Tokens;
    var e := Burnt(r, u, f, c);
    SoundGrows(base, s.log, e);
    RequestsGrow(s.reqs, s.used, s.tokens, s.log, e);
    TokensGrow(s.tokens, s.ids, s.log, e);
    RowsGrow(s.rows, s.log, e);
    EpochsGrow(s.accounts, base, s.log, e);
    OtherTablesGrow(s, e);
  }

  lemma BurnInv(s: State, r: int, f: int, c: int, base: map<int, Account>)
    requires Inv(s, base)
    ensures Inv(FactorStep(s, Burn(r, f, c)), base)
  {
    hide Tokens, SpentTable, CeremonyTables, Counters, Rows, Epochs, AllSound, Trail;
    if r in s.reqs && s.reqs[r].KnownForCode? && s.reqs[r].token.expiry.Some?
       && f in s.factors && s.factors[f].totp && s.factors[f].owner == s.reqs[r].token.user
       && s.factors[f].counter < c {
      var pc := s.reqs[r];
      assert PcOk(s.log, s.tokens, r, pc);
      var via := Totp(pc.token.id, pc.token.expiry.value, pc.at, f, c);
      var e := Burnt(r, pc.token.user, f, c);
      BurntInv(s, r, pc.token.user, f, c, base);
      TrailGrows(s.log, e, TrailSoFar(r, pc));
      assert TrailOf(r, pc.token.user, pc.rec, via) == TrailSoFar(r, pc) + [e];
      Moved(Logged(s.(factors := s.factors[f := s.factors[f].(counter := c)]), e), r,
        Issuing(pc.token.user, pc.rec, via), base);
    }
  }

  lemma VerifyInv(s: State, r: int, f: int, base: map<int, Account>)
    requires Inv(s, base)
    ensures Inv(FactorStep(s, Verify(r, f)), base)
  {
    hide Requests, Tokens, SpentTable, CeremonyTables, Counters, Rows, Epochs, AllSound, Trail, PcOk;
    if r in s.reqs && s.reqs[r].KnownForKey? && s.reqs[r].token.expiry.Some?
       && f in s.factors && !s.factors[f].totp && s.factors[f].owner == s.reqs[r].token.user {
      var pc := s.reqs[r];
      var via := Passkey(pc.token.id, pc.token.expiry.value, pc.at, pc.serial, f);
      QuietStep(s, r, Issuing(pc.token.user, pc.rec, via), Verified(r, pc.token.user, pc.serial, f), base);
    }
  }

  lemma PutKeepsSerials(open: Ceremonies.Open, next: int, limit: nat, key: string, expires: int, now: int,
                        scanned: set<string>)
    requires Distinct(open, next)
    ensures var open' :=
            Ceremonies.AfterPut(open, limit, key, Ceremonies.Ceremony(next, expires, true), now, scanned).1;
            GainedOne(open, open', next)
  {
  }

  /** A store that at most gained the next serial. */
  ghost predicate GainedOne(before: Ceremonies.Open, after: Ceremonies.Open, next: int) {
    && Distinct(after, next + 1)
    && forall k :: k in after ==> after[k].serial == next || (k in before && after[k] == before[k])
  }

  lemma MoreCeremonies(open: Ceremonies.Open, public: Ceremonies.Open, next: int, log: seq<Event>,
                       more: Ceremonies.Open)
    requires CeremonyTables(open, public, next, log)
    ensures GainedOne(open, more, next) ==> CeremonyTables(more, public, next + 1, log)
    ensures GainedOne(public, more, next) ==> CeremonyTables(open, more, next + 1, log)
  {
    if GainedOne(open, more, next) {
      assert forall k, k' :: k in more && k' in public ==> more[k].serial != public[k'].serial;
      forall e | e in log && e.Took? ensures NotHeld(more, e.serial) { assert NotHeld(open, e.serial); }
    }
    if GainedOne(public, more, next) {
      assert forall k, k' :: k in open && k' in more ==> open[k].serial != more[k'].serial;
      forall e | e in log && e.Took? ensures NotHeld(more, e.serial) { assert NotHeld(public, e.serial); }
    }
  }

  lemma SerialsDistinct(open: Ceremonies.Open, public: Ceremonies.Open, next: int, log: seq<Event>)
    requires CeremonyTables(open, public, next, log)
    ensures Distinct(open, next) && Distinct(public, next)
  {
  }

  lemma CeremonyStepInv(s: State, op: Op, base: map<int, Account>)
    requires Inv(s, base) && (op.BeginPasskeyLogin? || op.BeginAlone?)
    ensures Inv(CeremonyStep(s, op), base)
  {
    hide Requests, Tokens, SpentTable, CeremonyTables, Counters, Rows, Epochs, AllSound, Distinct, Ceremonies.AfterPut;
    assert CeremonyTables(s.open, s.publicOpen, s.nextSerial, s.log);
    SerialsDistinct(s.open, s.publicOpen, s.nextSerial, s.log);
    var c := Ceremonies.Ceremony(s.nextSerial, s.now + Ceremonies.TTL, true);
    if op.BeginAlone? {
      PutKeepsSerials(s.publicOpen, s.nextSerial, PUBLIC_LIMIT, AloneKey(op.id), c.expires, s.now, op.scanned);
      MoreCeremonies(s.open, s.publicOpen, s.nextSerial, s.log,
        Ceremonies.AfterPut(s.publicOpen, PUBLIC_LIMIT, AloneKey(op.id), c, s.now, op.scanned).1);
    } else {
      PutKeepsSerials(s.open, s.nextSerial, OPEN_LIMIT, LoginKey(op.token.id), c.expires, s.now, op.scanned);
      MoreCeremonies(s.open, s.publicOpen, s.nextSerial, s.log,
        Ceremonies.AfterPut(s.open, OPEN_LIMIT, LoginKey(op.token.id), c, s.now, op.scanned).1);
    }
  }

  lemma TakeAloneInv(s: State, r: int, id: string, base: map<int, Account>)
    requires Inv(s, base)
    ensures Inv(CeremonyStep(s, TakeAlone(r, id)), base)
  {
    hide Tokens, SpentTable, CeremonyTables, NotHeld, Counters, Rows, Epochs, AllSound, Trail;
    if r !in s.used && id != "" {
      var key := AloneKey(id);
      var found := BoundedSweep.At(s.publicOpen, Ceremonies.ExpiresOf, key, s.now);
      var open := s.publicOpen - {key};
      TakenOut(s.open, s.publicOpen, s.nextSerial, s.log, key);
      if found.None? {
        Dropped(s.(publicOpen := open), r, base);
      } else {
        var e := Took(r, key, found.value.serial);
        TookInv(s, s.open, open, r, key, found.value.serial, base);
        TrailNow(s.log, e);
        Moved(Logged(s.(publicOpen := open), e), r, HasTakenAlone(key, found.value.serial), base);
      }
    }
  }

  lemma VerifyAloneInv(s: State, r: int, f: int, uv: bool, base: map<int, Account>)
    requires Inv(s, base)
    ensures Inv(CeremonyStep(s, VerifyAlone(r, f, uv)), base)
  {
    hide Requests, Tokens, SpentTable, CeremonyTables, Counters, Rows, AllSound, Trail, PcOk;
    if r in s.reqs && s.reqs[r].HasTakenAlone? && f in s.factors && !s.factors[f].totp
      && s.factors[f].owner in s.accounts {
      var u, pc := s.factors[f].owner, s.reqs[r];
      var rec := RecordOf(s, u);
      if !uv || !rec.local || !rec.passwordless {
        Dropped(s, r, base);
      } else {
        QuietStep(s, r, Issuing(u, rec, KeyAlone(pc.key, pc.serial, f)), VerifiedAlone(r, u, rec, pc.serial, f, uv),
          base);
      }
    }
  }

  lemma RequestAt(s: State, r: int, base: map<int, Account>)
    requires Inv(s, base) && r in s.reqs
    ensures r in s.used && PcOk(s.log, s.tokens, r, s.reqs[r])
  {
  }

  lemma MintInv(s: State, r: int, id: string, ttl: nat, base: map<int, Account>)
    requires Inv(s, base)
    ensures Inv(SessionStep(s, Mint(r, id, ttl)), base)
  {
    hide Requests, SpentTable, CeremonyTables, Counters, Rows, Epochs, AllSound, Trail;
    if r in s.reqs && s.reqs[r].Issuing? && id != "" && id !in s.ids {
      var pc := s.reqs[r];
      var t := Token(true, id, pc.user, pc.rec.epoch, Some(s.now + ttl));
      RequestAt(s, r, base);
      MoreTokens(s, t, base);
      var s' := s.(tokens := s.tokens + {t}, ids := s.ids + {id});
      assert Tokens(s'.tokens, s'.ids, s'.log);
      Moved(s', r, Holding(pc.user, pc.rec, pc.via, t), base);
    }
  }

  lemma CreateRowInv(s: State, r: int, base: map<int, Account>)
    requires Inv(s, base)
    ensures Inv(SessionStep(s, CreateRow(r)), base)
  {
    hide SpentTable, CeremonyTables, Counters, Epochs, AllSound, Trail, Tokens;
    if r in s.reqs && s.reqs[r].Holding? {
      var pc := s.reqs[r];
      assert PcOk(s.log, s.tokens, r, pc);
      var e := Session(r, pc.user, pc.token, pc.rec, pc.via);
      SoundGrows(base, s.log, e);
      TokensGrow(s.tokens, s.ids, s.log, e);
      EpochsGrow(s.accounts, base, s.log, e);
      OtherTablesGrow(s, e);
      RowsGrow(s.rows, s.log, e);
      assert e in s.log + [e];
      var reqs := s.reqs - {r};
      forall r' | r' in reqs ensures PcOk(s.log + [e], s.tokens, r', reqs[r']) {
        TrailGrows(s.log, e, TrailSoFar(r', reqs[r']));
      }
      assert Requests(reqs, s.used, s.tokens, s.log + [e]);
    }
  }

  lemma EpochIsCurrent(s: State, user: int, base: map<int, Account>)
    requires Inv(s, base) && user in s.accounts
    ensures s.accounts[user].epoch == EpochAt(base, s.log, user)
  {
  }

  lemma CheckEpochInv(s: State, r: int, t: Token, base: map<int, Account>)
    requires Inv(s, base)
    ensures Inv(SessionStep(s, CheckEpoch(r, t)), base)
  {
    hide Tokens, SpentTable, CeremonyTables, Counters, Rows, Epochs, EpochAt, AllSound, Trail;
    if r !in s.used && t in s.tokens && t.session && t.id != "" && t.user in s.accounts {
      var ok := s.accounts[t.user].epoch == t.epoch;
      var e := EpochCheck(r, t, ok);
      EpochIsCurrent(s, t.user, base);
      QuietGrows(s, e, base);
      if ok {
        TrailNow(s.log, e);
        Moved(Logged(s, e), r, EpochPassed(t), base);
      } else {
        Dropped(Logged(s, e), r, base);
      }
    }
  }

  lemma RowsTellSessions(s: State, t: Token, base: map<int, Account>)
    requires Inv(s, base) && t in s.tokens && t.id != "" && t.id in s.rows
    ensures exists e :: e in s.log && e.Session? && e.token == t
  {
    hide Requests, SpentTable, CeremonyTables, Counters, Epochs, AllSound, Trail;
    var e :| e in s.log && e.Session? && e.token.id == t.id;
    assert e.token == t;
  }

  lemma CheckRowInv(s: State, r: int, base: map<int, Account>)
    requires Inv(s, base)
    ensures Inv(SessionStep(s, CheckRow(r)), base)
  {
    hide Inv, Trail;
    if r in s.reqs && s.reqs[r].EpochPassed? {
      var t := s.reqs[r].token;
      RequestAt(s, r, base);
      if t.id in s.rows && s.rows[t.id] == t.user {
        var e := Admitted(r, t);
        RowsTellSessions(s, t, base);
        QuietGrows(s, e, base);
        TrailGrows(s.log, e, TrailSoFar(r, s.reqs[r]));
        assert TrailSoFar(r, InSession(t)) == TrailSoFar(r, s.reqs[r]) + [e];
        Moved(Logged(s, e), r, InSession(t), base);
      } else {
        Dropped(s, r, base);
      }
    }
  }

  lemma ProveOwnInv(s: State, r: int, base: map<int, Account>)
    requires Inv(s, base)
    ensures Inv(ChangeStep(s, ProveOwn(r)), base)
  {
    hide Requests, Tokens, SpentTable, CeremonyTables, Counters, Rows, AllSound, Trail, PcOk;
    if r in s.reqs && s.reqs[r].InSession? && s.reqs[r].token.user in s.accounts {
      var t := s.reqs[r].token;
      var rec := RecordOf(s, t.user);
      if rec.local {
        QuietStep(s, r, OwnProved(t, rec), OwnPasswordOk(r, t.user, rec), base);
      } else {
        Dropped(s, r, base);
      }
    }
  }

  lemma DropOwnInv(s: State, r: int, base: map<int, Account>)
    requires Inv(s, base)
    ensures Inv(ChangeStep(s, DropOwn(r)), base)
  {
    hide Requests, Tokens, SpentTable, CeremonyTables, Counters, Epochs, AllSound, Trail;
    if r in s.reqs && s.reqs[r].OwnProved? {
      var pc := s.reqs[r];
      RequestAt(s, r, base);
      Moved(s.(rows := WithoutRowsOf(s.rows, pc.token.user)), r, RowsDropped(pc.token, pc.known), base);
    }
  }

  lemma BumpOwnInv(s: State, r: int, base: map<int, Account>)
    requires Inv(s, base)
    ensures Inv(ChangeStep(s, BumpOwn(r)), base)
  {
    hide Inv, Trail;
    if r in s.reqs && s.reqs[r].RowsDropped? && s.reqs[r].token.user in s.accounts {
      var pc := s.reqs[r];
      var u := pc.token.user;
      RequestAt(s, r, base);
      BumpInv(s, u, base);
      TrailGrows(s.log, Bumped(u), TrailSoFar(r, pc));
      assert TrailSoFar(r, EpochMoved(pc.token, pc.known)) == TrailSoFar(r, pc) + [Bumped(u)];
      Moved(AccountStep(s, Bump(u)), r, EpochMoved(pc.token, pc.known), base);
    }
  }

  lemma RereadInv(s: State, r: int, base: map<int, Account>)
    requires Inv(s, base)
    ensures Inv(ChangeStep(s, Reread(r)), base)
  {
    hide Requests, Tokens, SpentTable, CeremonyTables, Counters, Rows, AllSound, Trail;
    if r in s.reqs && s.reqs[r].EpochMoved? && s.reqs[r].token.user in s.accounts {
      var t, known := s.reqs[r].token, s.reqs[r].known;
      var rec := RecordOf(s, t.user);
      RequestAt(s, r, base);
      QuietStep(s, r, Issuing(t.user, rec, Change(t, known)), UserRead(r, t.user, rec), base);
    }
  }

  lemma ChangeStepInv(s: State, op: Op, base: map<int, Account>)
    requires Inv(s, base) && (op.ProveOwn? || op.DropOwn? || op.BumpOwn? || op.Reread?)
    ensures Inv(ChangeStep(s, op), base)
  {
    hide Inv, ChangeStep;
    match op
    case ProveOwn(r) => ProveOwnInv(s, r, base);
    case DropOwn(r) => DropOwnInv(s, r, base);
    case BumpOwn(r) => BumpOwnInv(s, r, base);
    case Reread(r) => RereadInv(s, r, base);
  }

  lemma FactorStepInv(s: State, op: Op, base: map<int, Account>)
    requires Inv(s, base)
    requires op.Parse? || op.Spend? || op.TakeForLogin? || op.ReadUser? || op.Burn? || op.Verify?
    ensures Inv(FactorStep(s, op), base)
  {
    hide Inv, FactorStep;
    match op
    case Parse(r, t, passkey) => ParseInv(s, r, t, passkey, base);
    case Spend(r, scanned) => SpendInv(s, r, scanned, base);
    case TakeForLogin(r) => TakeForLoginInv(s, r, base);
    case ReadUser(r) => ReadUserInv(s, r, base);
    case Burn(r, f, c) => BurnInv(s, r, f, c, base);
    case Verify(r, f) => VerifyInv(s, r, f, base);
  }

  lemma StepInv(s: State, op: Op, base: map<int, Account>)
    requires Inv(s, base)
    ensures Inv(Step(s, op), base)
  {
    hide Inv, AccountStep, LoginStep, FactorStep, CeremonyStep, SessionStep, ChangeStep;
    match op
    case PasswordCheck(r, u, exempt) => PasswordCheckInv(s, r, u, exempt, base);
    case AnswerLogin(r, id, ttl) => AnswerLoginInv(s, r, id, ttl, base);
    case BeginPasskeyLogin(_, _) => CeremonyStepInv(s, op, base);
    case BeginAlone(_, _) => CeremonyStepInv(s, op, base);
    case TakeAlone(r, id) => TakeAloneInv(s, r, id, base);
    case VerifyAlone(r, f, uv) => VerifyAloneInv(s, r, f, uv, base);
    case Mint(r, id, ttl) => MintInv(s, r, id, ttl, base);
    case CreateRow(r) => CreateRowInv(s, r, base);
    case CheckEpoch(r, t) => CheckEpochInv(s, r, t, base);
    case CheckRow(r) => CheckRowInv(s, r, base);
    case ProveOwn(_) => ChangeStepInv(s, op, base);
    case DropOwn(_) => ChangeStepInv(s, op, base);
    case BumpOwn(_) => ChangeStepInv(s, op, base);
    case Reread(_) => ChangeStepInv(s, op, base);
    case Parse(_, _, _) => FactorStepInv(s, op, base);
    case Spend(_, _) => FactorStepInv(s, op, base);
    case TakeForLogin(_) => FactorStepInv(s, op, base);
    case ReadUser(_) => FactorStepInv(s, op, base);
    case Burn(_, _, _) => FactorStepInv(s, op, base);
    case Verify(_, _) => FactorStepInv(s, op, base);
    case _ => AccountStepInv(s, op, base);
  }

  lemma {:induction false} RunInv(s: State, ops: seq<Op>)
    requires Init(s)
    ensures Inv(Run(s, ops), s.accounts)
  {
    if ops != [] {
      RunInv(s, ops[..|ops| - 1]);
      StepInv(Run(s, ops[..|ops| - 1]), ops[|ops| - 1], s.accounts);
    }
  }
}
