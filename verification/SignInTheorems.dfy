/** What the sign-in machine promises over whole runs. */
module SignInTheorems {
  import opened BoundedSweep
  import opened Options
  import opened SignIn
  import opened SignInSafety
  import ChallengeStore
  import Ceremonies

  // ----- reading trails -----

  lemma {:induction false} TrailHas(log: seq<Event>, es: seq<Event>, e: Event)
    requires Trail(log, es) && e in es
    ensures exists i :: 0 <= i < |log| && log[i] == e
    decreases |log|
  {
    var n := |log| - 1;
    if log[n] == es[|es| - 1] && Trail(log[..n], es[..|es| - 1]) {
      if e != log[n] {
        assert e in es[..|es| - 1];
        TrailHas(log[..n], es[..|es| - 1], e);
        var i :| 0 <= i < n && log[..n][i] == e;
        assert log[i] == e;
      }
    } else {
      TrailHas(log[..n], es, e);
      var i :| 0 <= i < n && log[..n][i] == e;
      assert log[i] == e;
    }
  }

  lemma {:induction false} TrailWeakens(log: seq<Event>, es: seq<Event>, n: nat)
    requires n <= |log| && Trail(log[..n], es)
    ensures Trail(log, es)
    decreases |log| - n
  {
    if n < |log| {
      hide Trail;
      TrailGrows(log[..n], log[n], es);
      assert log[..n] + [log[n]] == log[..n + 1];
      TrailWeakens(log, es, n + 1);
    } else {
      assert log[..n] == log;
    }
  }

  /** If `pre` always lies behind the first event of a trail, the trail can start there. */
  lemma {:induction false} TrailExtendsBack(log: seq<Event>, pre: seq<Event>, es: seq<Event>)
    requires es != [] && Trail(log, es)
    requires forall k :: 0 <= k < |log| && log[k] == es[0] ==> Trail(log[..k], pre)
    ensures Trail(log, pre + es)
    decreases |log|
  {
    var n, last := |log| - 1, |es| - 1;
    var init := log[..n];
    assert (pre + es)[..|pre + es| - 1] == pre + es[..last];
    forall k | 0 <= k < n && init[k] == es[0] ensures Trail(init[..k], pre) {
      assert init[..k] == log[..k];
    }
    if log[n] == es[last] && Trail(init, es[..last]) {
      if last == 0 {
        assert pre + es[..last] == pre;
      } else {
        TrailExtendsBack(init, pre, es[..last]);
      }
    } else {
      TrailExtendsBack(init, pre, es);
    }
  }

  // ----- every session is justified -----

  /** The whole story behind the i-th event, a session: for the challenge flows it starts
      with the password entry that bought the challenge, and for a password change with an
      earlier session of the same account, itself justified. */
  ghost predicate Justified(log: seq<Event>, i: nat)
    requires i < |log| && log[i].Session?
    decreases i
  {
    var before, e := log[..i], log[i];
    match e.via
    case Password(exempt) =>
      (exempt || !e.rec.protected) && Trail(before, [PasswordOk(e.req, e.user, e.rec, exempt)])
    case Totp(id, expiry, at, f, c) =>
      exists r, rec: Record :: rec.protected &&
        Trail(before,
          [PasswordOk(r, e.user, rec, false), Challenged(r, e.user, id), Spent(e.req, e.user, id, expiry, at),
                       UserRead(e.req, e.user, e.rec), Burnt(e.req, e.user, f, c)])
    case Passkey(id, expiry, at, serial, f) =>
      exists r, rec: Record :: rec.protected &&
        Trail(before,
          [PasswordOk(r, e.user, rec, false), Challenged(r, e.user, id), Spent(e.req, e.user, id, expiry, at),
                       Took(e.req, LoginKey(id), serial), UserRead(e.req, e.user, e.rec),
                         Verified(e.req, e.user, serial, f)])
    case KeyAlone(key, serial, f) =>
      e.rec.local && e.rec.passwordless &&
      Trail(before, [Took(e.req, key, serial), VerifiedAlone(e.req, e.user, e.rec, serial, f, true)])
    case Change(t, known) =>
      && known.local && t.user == e.user
      && Trail(before, [EpochCheck(e.req, t, true), Admitted(e.req, t), OwnPasswordOk(e.req, e.user, known),
                        Bumped(e.user), UserRead(e.req, e.user, e.rec)])
      && exists k: nat :: k < i && log[k].Session? && log[k].token == t && log[k].user == e.user && Justified(log, k)
  }

  /** Whatever lies behind the first time an event happened lies behind every time. */
  lemma BehindEvery(log: seq<Event>, pre: seq<Event>, e: Event, first: nat)
    requires first < |log| && (forall k :: 0 <= k < first ==> log[k] != e) && Trail(log[..first], pre)
    ensures forall k :: 0 <= k < |log| && log[k] == e ==> Trail(log[..k], pre)
  {
    hide Trail;
    forall k | 0 <= k < |log| && log[k] == e ensures Trail(log[..k], pre) {
      assert log[..k][..first] == log[..first];
      TrailWeakens(log[..k], pre, first);
    }
  }

  lemma ChallengeGoesBack(base: map<int, Account>, log: seq<Event>, r: int, user: int, id: string) returns (rec: Record)
    requires AllSound(base, log) && Trail(log, [Challenged(r, user, id)])
    ensures rec.protected && Trail(log, [PasswordOk(r, user, rec, false), Challenged(r, user, id)])
  {
    hide Trail;
    var ch := Challenged(r, user, id);
    TrailHas(log, [ch], ch);
    FirstIndex(log, ch);
    var m: nat :| m < |log| && log[m] == ch && forall k :: 0 <= k < m ==> log[k] != ch;
    assert Sound(base, log[..m], log[m]);
    rec :| rec.protected && Trail(log[..m], [PasswordOk(r, user, rec, false)]);
    var pw := [PasswordOk(r, user, rec, false)];
    BehindEvery(log, pw, ch, m);
    TrailExtendsBack(log, pw, [ch]);
    assert pw + [ch] == [PasswordOk(r, user, rec, false), ch];
  }

  lemma SpentGoesBack(base: map<int, Account>, log: seq<Event>, spent: Event, es: seq<Event>)
    returns (r: int, rec: Record)
    requires AllSound(base, log) && spent.Spent? && es != [] && es[0] == spent && Trail(log, es)
    ensures rec.protected
    ensures Trail(log, [PasswordOk(r, spent.user, rec, false), Challenged(r, spent.user, spent.id)] + es)
  {
    hide Trail;
    TrailHas(log, es, spent);
    FirstIndex(log, spent);
    var m: nat :| m < |log| && log[m] == spent && forall k :: 0 <= k < m ==> log[k] != spent;
    assert Sound(base, log[..m], log[m]);
    r :| Trail(log[..m], [Challenged(r, spent.user, spent.id)]);
    PrefixSound(base, log, m);
    rec := ChallengeGoesBack(base, log[..m], r, spent.user, spent.id);
    var pre := [PasswordOk(r, spent.user, rec, false), Challenged(r, spent.user, spent.id)];
    BehindEvery(log, pre, spent, m);
    TrailExtendsBack(log, pre, es);
  }

  lemma {:induction false} FirstIndex(log: seq<Event>, e: Event)
    requires e in log
    ensures exists k :: 0 <= k < |log| && log[k] == e && forall k' :: 0 <= k' < k ==> log[k'] != e
  {
    var n := |log| - 1;
    if e in log[..n] {
      FirstIndex(log[..n], e);
      var k :| 0 <= k < n && log[..n][k] == e && forall k' :: 0 <= k' < k ==> log[..n][k'] != e;
      assert log[k] == e && forall k' :: 0 <= k' < k ==> log[k'] == log[..n][k'];
    } else {
      assert forall k' :: 0 <= k' < n ==> log[k'] == log[..n][k'];
    }
  }

  lemma PrefixSound(base: map<int, Account>, log: seq<Event>, n: nat)
    requires AllSound(base, log) && n <= |log|
    ensures AllSound(base, log[..n])
  {
    forall i | 0 <= i < n ensures Sound(base, log[..n][..i], log[..n][i]) {
      assert log[..n][..i] == log[..i];
      assert Sound(base, log[..i], log[i]);
    }
  }

  /** What lies behind a session finished by a challenge, back to the password entry. */
  lemma ChallengeFlowGoesBack(base: map<int, Account>, before: seq<Event>, e: Event)
    requires AllSound(base, before) && e.Session? && (e.via.Totp? || e.via.Passkey?)
    requires Trail(before, TrailOf(e.req, e.user, e.rec, e.via))
    ensures exists r, rec: Record :: rec.protected &&
              Trail(before, [PasswordOk(r, e.user, rec, false), Challenged(r, e.user, e.via.id)]
                            + TrailOf(e.req, e.user, e.rec, e.via))
  {
    hide Trail;
    var es := TrailOf(e.req, e.user, e.rec, e.via);
    var r, rec := SpentGoesBack(base, before, es[0], es);
  }

  /** A request inside a session came in with a token recorded by an earlier session of
      that account. */
  lemma AdmittedThrough(base: map<int, Account>, log: seq<Event>, i: nat, r: int, t: Token, es: seq<Event>)
    returns (k: nat)
    requires AllSound(base, log) && i <= |log| && Trail(log[..i], es) && Admitted(r, t) in es
    ensures k < i && log[k].Session? && log[k].token == t && log[k].user == t.user
  {
    hide Trail;
    var e := Admitted(r, t);
    TrailHas(log[..i], es, e);
    var j: nat :| j < i && log[..i][j] == e;
    AdmittedBehind(base, log, j);
    hide AllSound;
    k :| k < j && log[k].Session? && log[k].token == t;
    SessionIsSound(base, log, k);
  }

  lemma SessionIsSound(base: map<int, Account>, log: seq<Event>, k: nat)
    requires AllSound(base, log) && k < |log| && log[k].Session?
    ensures log[k].token.user == log[k].user
    ensures Trail(log[..k], TrailOf(log[k].req, log[k].user, log[k].rec, log[k].via))
  {
    hide Trail;
    assert Sound(base, log[..k], log[k]);
  }

  /** Every session a run ever issues is justified by what happened before it. */
  lemma {:induction false} EverySessionIsJustified(s: State, ops: seq<Op>, i: nat)
    requires Init(s) && i < |Run(s, ops).log| && Run(s, ops).log[i].Session?
    ensures Justified(Run(s, ops).log, i)
    decreases i
  {
    hide Trail, Run, Init;
    RunInv(s, ops);
    var log, base := Run(s, ops).log, s.accounts;
    var before, e := log[..i], log[i];
    assert Sound(base, before, e);
    hide Sound;
    PrefixSound(base, log, i);
    var es := TrailOf(e.req, e.user, e.rec, e.via);
    if e.via.Totp? || e.via.Passkey? {
      ChallengeFlowGoesBack(base, before, e);
      var r, rec: Record :| rec.protected
        && Trail(before, [PasswordOk(r, e.user, rec, false), Challenged(r, e.user, e.via.id)] + es);
      var ch := Challenged(r, e.user, e.via.id);
      if e.via.Totp? {
        assert [PasswordOk(r, e.user, rec, false), ch] + es
            == [PasswordOk(r, e.user, rec, false), ch, es[0], es[1], es[2]];
      } else {
        assert [PasswordOk(r, e.user, rec, false), ch] + es
            == [PasswordOk(r, e.user, rec, false), ch, es[0], es[1], es[2], es[3]];
      }
    } else if e.via.Change? {
      assert es[1] == Admitted(e.req, e.via.from);
      var k := AdmittedThrough(base, log, i, e.req, e.via.from, es);
      EverySessionIsJustified(s, ops, k);
    }
  }

  /** Going back from change to change, every session descends from one of its account
      that was signed in for, and that one is justified. */
  lemma {:induction false} EverySessionDescendsFromASignIn(s: State, ops: seq<Op>, i: nat) returns (k: nat)
    requires Init(s) && i < |Run(s, ops).log| && Run(s, ops).log[i].Session?
    ensures var log := Run(s, ops).log;
            k <= i && log[k].Session? && !log[k].via.Change? && log[k].user == log[i].user && Justified(log, k)
    decreases i
  {
    hide Trail, Run, Init;
    EverySessionIsJustified(s, ops, i);
    var log := Run(s, ops).log;
    if log[i].via.Change? {
      var j: nat :| j < i && log[j].Session? && log[j].token == log[i].via.from && log[j].user == log[i].user
        && Justified(log, j);
      k := EverySessionDescendsFromASignIn(s, ops, j);
    } else {
      k := i;
    }
  }

  // ----- no two sessions share their evidence -----

  lemma RequestsDiffer(base: map<int, Account>, log: seq<Event>, i: nat, j: nat)
    requires AllSound(base, log) && i < |log| && j < |log| && i != j && log[i].Session? && log[j].Session?
    ensures log[i].req != log[j].req
  {
    var a, b := if i < j then i else j, if i < j then j else i;
    assert Sound(base, log[..b], log[b]);
    assert log[..b][a] == log[a] && log[a] in log[..b];
  }

  /** Two different events of the log, the later of which was sound. */
  lemma LaterIsSound(base: map<int, Account>, log: seq<Event>, e: Event, e': Event)
    requires AllSound(base, log) && e in log && e' in log && e != e'
    ensures exists k: nat :: k < |log| &&
              ((log[k] == e && e' in log[..k] && Sound(base, log[..k], e))
                || (log[k] == e' && e in log[..k] && Sound(base, log[..k], e')))
  {
    var a: nat :| a < |log| && log[a] == e;
    var b: nat :| b < |log| && log[b] == e';
    if a < b {
      assert log[..b][a] == e && Sound(base, log[..b], log[b]);
    } else {
      assert log[..a][b] == e' && Sound(base, log[..a], log[a]);
    }
  }

  lemma TrailMember(log: seq<Event>, n: nat, es: seq<Event>, e: Event)
    requires n <= |log| && Trail(log[..n], es) && e in es
    ensures e in log
  {
    TrailHas(log[..n], es, e);
    var k :| 0 <= k < n && log[..n][k] == e;
    assert log[k] == e;
  }

  function ChallengeOf(via: Via): Option<(string, int, int)> {
    match via
    case Totp(id, expiry, at, _, _) => Some((id, expiry, at))
    case Passkey(id, expiry, at, _, _) => Some((id, expiry, at))
    case _ => None
  }

  function CeremonyOf(via: Via): Option<int> {
    match via
    case Passkey(_, _, _, serial, _) => Some(serial)
    case KeyAlone(_, serial, _) => Some(serial)
    case _ => None
  }

  /** A challenge finishes at most one session, by code or by passkey, among requests
      that spent it before it expired. */
  lemma OneSessionPerChallenge(s: State, ops: seq<Op>, i: nat, j: nat)
    requires Init(s) && i < |Run(s, ops).log| && j < |Run(s, ops).log| && i != j
    requires var log := Run(s, ops).log;
             && log[i].Session? && log[j].Session?
             && ChallengeOf(log[i].via).Some? && ChallengeOf(log[j].via).Some?
             && ChallengeOf(log[i].via).value.0 == ChallengeOf(log[j].via).value.0
    ensures var (_, expiry, at) := ChallengeOf(Run(s, ops).log[i].via).value;
            var (_, expiry', at') := ChallengeOf(Run(s, ops).log[j].via).value;
            expiry == expiry' && !(at < expiry && at' < expiry)
  {
    hide Trail, Init, Run;
    RunInv(s, ops);
    var log, base := Run(s, ops).log, s.accounts;
    RequestsDiffer(base, log, i, j);
    assert Sound(base, log[..i], log[i]) && Sound(base, log[..j], log[j]);
    var e := TrailOf(log[i].req, log[i].user, log[i].rec, log[i].via)[0];
    var e' := TrailOf(log[j].req, log[j].user, log[j].rec, log[j].via)[0];
    TrailMember(log, i, TrailOf(log[i].req, log[i].user, log[i].rec, log[i].via), e);
    TrailMember(log, j, TrailOf(log[j].req, log[j].user, log[j].rec, log[j].via), e');
    LaterIsSound(base, log, e, e');
  }

  ghost predicate SessionAt(base: map<int, Account>, log: seq<Event>, i: nat) {
    && i < |log| && log[i].Session? && AllSound(base, log)
    && Trail(log[..i], TrailOf(log[i].req, log[i].user, log[i].rec, log[i].via))
  }

  lemma CodesDiffer(base: map<int, Account>, log: seq<Event>, i: nat, j: nat)
    requires SessionAt(base, log, i) && SessionAt(base, log, j) && i != j
    requires log[i].via.Totp? && log[j].via.Totp? && log[i].via.factor == log[j].via.factor
    ensures log[i].via.counter != log[j].via.counter
  {
    hide Trail;
    RequestsDiffer(base, log, i, j);
    var e := Burnt(log[i].req, log[i].user, log[i].via.factor, log[i].via.counter);
    var e' := Burnt(log[j].req, log[j].user, log[j].via.factor, log[j].via.counter);
    TrailMember(log, i, TrailOf(log[i].req, log[i].user, log[i].rec, log[i].via), e);
    TrailMember(log, j, TrailOf(log[j].req, log[j].user, log[j].rec, log[j].via), e');
    LaterIsSound(base, log, e, e');
  }

  function TookOf(e: Event): Event
    requires e.Session? && CeremonyOf(e.via).Some?
  {
    if e.via.Passkey? then Took(e.req, LoginKey(e.via.id), e.via.serial) else Took(e.req, e.via.key, e.via.serial)
  }

  lemma CeremoniesDiffer(base: map<int, Account>, log: seq<Event>, i: nat, j: nat)
    requires SessionAt(base, log, i) && SessionAt(base, log, j) && i != j
    requires CeremonyOf(log[i].via).Some? && CeremonyOf(log[j].via).Some?
    ensures CeremonyOf(log[i].via) != CeremonyOf(log[j].via)
  {
    hide Trail;
    RequestsDiffer(base, log, i, j);
    var e, e' := TookOf(log[i]), TookOf(log[j]);
    TrailMember(log, i, TrailOf(log[i].req, log[i].user, log[i].rec, log[i].via), e);
    TrailMember(log, j, TrailOf(log[j].req, log[j].user, log[j].rec, log[j].via), e');
    LaterIsSound(base, log, e, e');
  }

  /** No accepted time step and no ceremony ever stands behind two sessions. */
  lemma EvidenceIsNotShared(s: State, ops: seq<Op>, i: nat, j: nat)
    requires Init(s) && i < |Run(s, ops).log| && j < |Run(s, ops).log| && i != j
    requires Run(s, ops).log[i].Session? && Run(s, ops).log[j].Session?
    ensures var v, v' := Run(s, ops).log[i].via, Run(s, ops).log[j].via;
            && (v.Totp? && v'.Totp? && v.factor == v'.factor ==> v.counter != v'.counter)
            && (CeremonyOf(v).Some? ==> CeremonyOf(v) != CeremonyOf(v'))
  {
    hide Trail, Init, Run;
    RunInv(s, ops);
    var log, base := Run(s, ops).log, s.accounts;
    assert Sound(base, log[..i], log[i]) && Sound(base, log[..j], log[j]);
    var v, v' := log[i].via, log[j].via;
    if v.Totp? && v'.Totp? && v.factor == v'.factor {
      CodesDiffer(base, log, i, j);
    }
    if CeremonyOf(v).Some? && CeremonyOf(v').Some? {
      CeremoniesDiffer(base, log, i, j);
    }
  }

  // ----- password reset -----

  /** The event in which a session's request read the user record: the token carries
      the epoch that record held. */
  function ReadOf(e: Event): Event
    requires e.Session?
  {
    match e.via
    case Password(exempt) => PasswordOk(e.req, e.user, e.rec, exempt)
    case KeyAlone(_, serial, f) => VerifiedAlone(e.req, e.user, e.rec, serial, f, true)
    case _ => UserRead(e.req, e.user, e.rec)
  }

  ghost predicate NoReset(log: seq<Event>, a: nat, b: nat, user: int)
    requires a <= b <= |log|
  {
    forall k :: a <= k < b ==> log[k] != Bumped(user)
  }

  lemma {:induction false} BumpsBetween(log: seq<Event>, a: nat, b: nat, user: int)
    requires a <= b <= |log|
    ensures Bumps(log[..a], user) <= Bumps(log[..b], user)
    ensures Bumps(log[..a], user) == Bumps(log[..b], user) <==> NoReset(log, a, b, user)
  {
    if a < b {
      BumpsBetween(log, a, b - 1, user);
      assert log[..b][..b - 1] == log[..b - 1];
    }
  }

  lemma ReadEpoch(base: map<int, Account>, log: seq<Event>, a: nat, e: Event)
    requires AllSound(base, log) && a < |log| && e.Session? && log[a] == ReadOf(e)
    ensures e.rec.epoch == EpochAt(base, log[..a], e.user)
  {
    hide Trail;
    assert Sound(base, log[..a], log[a]);
  }

  /** The session check passes a token's epoch exactly when no reset of the account
      came between the reading of the record the token was minted from and the check,
      whichever flow minted it. */
  lemma EpochCheckIffNoReset(s: State, ops: seq<Op>, i: nat, j: nat)
    requires Init(s) && i < j < |Run(s, ops).log|
    requires Run(s, ops).log[i].Session? && Run(s, ops).log[j].EpochCheck?
    requires Run(s, ops).log[i].token == Run(s, ops).log[j].token
    ensures var log := Run(s, ops).log;
            && (exists a: nat :: a < i && log[a] == ReadOf(log[i]))
            && forall a: nat :: a < j && log[a] == ReadOf(log[i]) ==> (log[j].ok <==> NoReset(log, a, j, log[i].user))
  {
    hide Trail, Init, Run;
    RunInv(s, ops);
    var log, base := Run(s, ops).log, s.accounts;
    var e := log[i];
    assert Sound(base, log[..i], e) && Sound(base, log[..j], log[j]);
    var es, read := TrailOf(e.req, e.user, e.rec, e.via), ReadOf(e);
    hide Sound;
    assert read in es by {
      assert es[0] in es;
      if e.via.Change? {
        assert es[4] in es;
      } else if !e.via.Password? {
        assert es[1] in es;
        if e.via.Passkey? {
          assert es[2] in es;
        }
      }
    }
    TrailHas(log[..i], es, read);
    var a: nat :| a < i && log[..i][a] == read;
    assert log[a] == read;
    forall a: nat | a < j && log[a] == read ensures log[j].ok <==> NoReset(log, a, j, e.user) {
      ReadEpoch(base, log, a, e);
      BumpsBetween(log, a, j, e.user);
    }
  }

  /** A reset beats a concurrent password login: once the epoch has moved, a token
      minted from a record read before that never passes the check again, even if its
      session row was written after the reset dropped the rows. */
  lemma ResetBeatsLogin(s: State, ops: seq<Op>, a: nat, b: nat, i: nat, j: nat)
    requires Init(s) && a < b < j < |Run(s, ops).log| && i < j
    requires var log := Run(s, ops).log;
             && log[i].Session? && log[i].via.Password? && log[a] == ReadOf(log[i])
             && log[b] == Bumped(log[i].user) && log[j].EpochCheck? && log[j].token == log[i].token
    ensures !Run(s, ops).log[j].ok
  {
    hide Trail, Init, Run;
    EpochCheckIffNoReset(s, ops, i, j);
    assert !NoReset(Run(s, ops).log, a, j, Run(s, ops).log[i].user);
  }

  /** A session token only ever gets through on a check of its epoch that passed, after
      its session was recorded. */
  lemma AdmittedOnlyAfterCheck(s: State, ops: seq<Op>, j: nat)
    requires Init(s) && j < |Run(s, ops).log| && Run(s, ops).log[j].Admitted?
    ensures var log := Run(s, ops).log;
            && EpochCheck(log[j].req, log[j].token, true) in log[..j]
            && exists i: nat :: i < j && log[i].Session? && log[i].token == log[j].token
  {
    hide Trail, Init, Run;
    RunInv(s, ops);
    AdmittedBehind(s.accounts, Run(s, ops).log, j);
  }

  lemma AdmittedBehind(base: map<int, Account>, log: seq<Event>, j: nat)
    requires AllSound(base, log) && j < |log| && log[j].Admitted?
    ensures EpochCheck(log[j].req, log[j].token, true) in log[..j]
    ensures exists i: nat :: i < j && log[i].Session? && log[i].token == log[j].token
  {
    hide Trail, AllSound;
    var check := EpochCheck(log[j].req, log[j].token, true);
    var e := AdmittedIsSound(base, log, j);
    TrailHas(log[..j], [check], check);
    var i: nat :| i < j && log[..j][i] == e;
    assert log[i] == e;
  }

  lemma AdmittedIsSound(base: map<int, Account>, log: seq<Event>, j: nat) returns (e: Event)
    requires AllSound(base, log) && j < |log| && log[j].Admitted?
    ensures Trail(log[..j], [EpochCheck(log[j].req, log[j].token, true)])
    ensures e in log[..j] && e.Session? && e.token == log[j].token
  {
    hide Trail;
    assert Sound(base, log[..j], log[j]);
    e :| e in log[..j] && e.Session? && e.token == log[j].token;
  }

  // ----- changing one's own password -----

  /** Where in the log the n-th event of a trail stands. */
  lemma {:induction false} TrailAt(log: seq<Event>, es: seq<Event>, n: nat) returns (b: nat)
    requires Trail(log, es) && n < |es|
    ensures b < |log| && log[b] == es[n] && Trail(log[..b], es[..n])
    decreases |log|
  {
    var last, init := |es| - 1, log[..|log| - 1];
    if log[|log| - 1] == es[last] && Trail(init, es[..last]) {
      if n == last {
        b := |log| - 1;
      } else {
        b := TrailAt(init, es[..last], n);
        assert init[..b] == log[..b] && es[..last][..n] == es[..n];
      }
    } else {
      b := TrailAt(init, es, n);
      assert init[..b] == log[..b];
    }
  }

  /** A session recorded before a reset read its account before it. */
  lemma RecordedBeforeReset(s: State, ops: seq<Op>, k: nat, b: nat, j: nat)
    requires Init(s) && k < b < j < |Run(s, ops).log|
    requires var log := Run(s, ops).log;
             && log[k].Session? && log[b] == Bumped(log[k].user) && log[j].EpochCheck? && log[j].token == log[k].token
    ensures !Run(s, ops).log[j].ok
  {
    hide Trail, Init, Run;
    EpochCheckIffNoReset(s, ops, k, j);
    var log := Run(s, ops).log;
    var a: nat :| a < k && log[a] == ReadOf(log[k]);
    assert !NoReset(log, a, j, log[k].user);
  }

  /** The j-th event checks the epoch of the token the k-th event, a session, recorded. */
  predicate ChecksTokenOf(log: seq<Event>, k: nat, j: nat, user: int)
    requires k < |log| && j < |log|
  {
    log[k].Session? && log[k].user == user && log[j].EpochCheck? && log[j].token == log[k].token
  }

  /** Changing the password ends every session the account had when it was proved, the one
      asking included: between the proof and the new session the epoch moved, and no token
      of a session recorded before that is ever let through again. */
  lemma ChangeEndsEarlierSessions(s: State, ops: seq<Op>, i: nat) returns (p: nat, b: nat)
    requires Init(s) && i < |Run(s, ops).log| && Run(s, ops).log[i].Session? && Run(s, ops).log[i].via.Change?
    ensures var log := Run(s, ops).log;
            && p < b < i && log[p] == OwnPasswordOk(log[i].req, log[i].user, log[i].via.known)
            && log[b] == Bumped(log[i].user)
            && (exists k: nat :: k < p && log[k].Session? && log[k].token == log[i].via.from
                  && log[k].user == log[i].user)
            && forall k: nat, j: nat :: k < b < j < |log| && ChecksTokenOf(log, k, j, log[i].user) ==> !log[j].ok
  {
    hide Trail, Run, Init;
    RunInv(s, ops);
    var log, base := Run(s, ops).log, s.accounts;
    var e := log[i];
    SessionIsSound(base, log, i);
    var es := TrailOf(e.req, e.user, e.rec, e.via);
    b := TrailAt(log[..i], es, 3);
    assert log[..i][..b] == log[..b];
    p := TrailAt(log[..b], es[..3], 2);
    assert log[..b][..p] == log[..p] && es[..3][..2] == es[..2];
    assert es[..2][1] == Admitted(e.req, e.via.from);
    var k := AdmittedThrough(base, log, p, e.req, e.via.from, es[..2]);
    ChangeUser(base, log, i);
    forall k: nat, j: nat | k < b < j < |log| && ChecksTokenOf(log, k, j, e.user) ensures !log[j].ok {
      RecordedBeforeReset(s, ops, k, b, j);
    }
  }

  lemma ChangeUser(base: map<int, Account>, log: seq<Event>, i: nat)
    requires AllSound(base, log) && i < |log| && log[i].Session? && log[i].via.Change?
    ensures log[i].via.from.user == log[i].user && log[i].via.known.local
  {
    hide Trail;
    assert Sound(base, log[..i], log[i]);
  }
}
