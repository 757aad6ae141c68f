/** How an account comes by its second factors: enrolment of authenticator apps
    (internal/auth/service.go) and passkeys (internal/auth/webauthn.go), removal, and
    the conditional statements of internal/store/factors.go they rest on.

    Requests interleave one store statement, locked table access or read at a time. */
module FactorHistory {
  import opened BoundedSweep
  import opened Options

  const MAX_FACTORS: nat := 10

  /** An enrolment under way. `stepUp` says the password was proved to open it; the
      request that opened it is kept for the record. An app's secret is fresh; a
      passkey has none (0). */
  datatype Enrol = Enrol(user: int, passkey: bool, secret: int, stepUp: bool, opener: int)

  datatype Factor = Factor(owner: int, passkey: bool, secret: int)

  datatype Pc =
    | Opening(e: Enrol)    // the handler has decided on stepUp
    | Taken(e: Enrol)      // the passkey ceremony was taken
    | Accepted(e: Enrol)   // the enrolment may go ahead as the account stood
    | Counted(e: Enrol)    // and there was room for one more

  datatype Event =
    | Proved(req: int, user: int)
    | Created(req: int, factor: int, e: Enrol, first: bool)
    | Removed(user: int, factor: int)

  datatype State = State(
    pending: map<int, Enrol>,
    ceremonies: map<int, Enrol>,
    factors: map<int, Factor>,
    nextFactor: int,
    nextSecret: int,
    used: set<int>,
    reqs: map<int, Pc>,
    log: seq<Event>)

  datatype Op =
    | Open(req: int, user: int, passkey: bool, passwordOk: bool)
    | StorePending(req: int)
    | StoreCeremony(req: int)
    | Lapse(user: int)
    | ReadPending(req: int, user: int)
    | TakeCeremony(req: int, user: int)
    | ReadAccount(req: int)
    | Count(req: int)
    | Insert(req: int)
    | Remove(user: int, factor: int)

  function Owned(factors: map<int, Factor>, user: int): set<int> {
    set f | f in factors && factors[f].owner == user
  }

  predicate Protected(factors: map<int, Factor>, user: int) {
    Owned(factors, user) != {}
  }

  function Goto(s: State, r: int, pc: Pc): State {
    s.(used := s.used + {r}, reqs := s.reqs[r := pc])
  }

  function Done(s: State, r: int): State {
    s.(reqs := s.reqs - {r})
  }

  /** The insert, and what it takes with it: any half-finished app enrolment. */
  function Inserted(s: State, r: int, e: Enrol): State {
    Done(s, r).(
      pending := s.pending - {e.user},
      factors := s.factors[s.nextFactor := Factor(e.user, e.passkey, e.secret)],
      nextFactor := s.nextFactor + 1,
      log := s.log + [Created(r, s.nextFactor, e, !Protected(s.factors, e.user))])
  }

  function Step(s: State, op: Op): State {
    match op
    case Open(r, u, passkey, passwordOk) =>
      if r in s.used then s
      else if !Protected(s.factors, u) then Goto(s, r, Opening(Enrol(u, passkey, 0, false, r)))
      else if !passwordOk then s
      else Goto(s, r, Opening(Enrol(u, passkey, 0, true, r))).(log := s.log + [Proved(r, u)])
    case StorePending(r) =>
      if r !in s.reqs || !s.reqs[r].Opening? || s.reqs[r].e.passkey then s
      else
        var e := s.reqs[r].e;
        Done(s, r).(pending := s.pending[e.user := e.(secret := s.nextSecret)], nextSecret := s.nextSecret + 1)
    case StoreCeremony(r) =>
      if r !in s.reqs || !s.reqs[r].Opening? || !s.reqs[r].e.passkey then s
      else
        var e := s.reqs[r].e;
        if |Owned(s.factors, e.user)| >= MAX_FACTORS then Done(s, r)
        else Done(s, r).(ceremonies := s.ceremonies[e.user := e])
    case Lapse(u) => s.(ceremonies := s.ceremonies - {u})
    case ReadPending(r, u) =>
      if r in s.used || u !in s.pending then s
      else
        var e := s.pending[u];
        if Protected(s.factors, u) && !e.stepUp then s else Goto(s, r, Accepted(e))
    case TakeCeremony(r, u) =>
      if r in s.used || u !in s.ceremonies then s
      else Goto(s, r, Taken(s.ceremonies[u])).(ceremonies := s.ceremonies - {u})
    case ReadAccount(r) =>
      if r !in s.reqs || !s.reqs[r].Taken? then s
      else
        var e := s.reqs[r].e;
        if Protected(s.factors, e.user) && !e.stepUp then Done(s, r) else Goto(s, r, Accepted(e))
    case Count(r) =>
      if r !in s.reqs || !s.reqs[r].Accepted? then s
      else if |Owned(s.factors, s.reqs[r].e.user)| >= MAX_FACTORS then Done(s, r)
      else Goto(s, r, Counted(s.reqs[r].e))
    case Insert(r) =>
      if r !in s.reqs || !s.reqs[r].Counted? then s
      else
        var e := s.reqs[r].e;
        // an app enrolment is claimed by its secret; a passkey needs the step-up or an
        // account that still has nothing
        var granted := if e.passkey then e.stepUp || !Protected(s.factors, e.user)
                       else e.user in s.pending && s.pending[e.user].secret == e.secret;
        if granted then Inserted(s, r, e) else Done(s, r)
    case Remove(u, f) =>
      if f in s.factors && s.factors[f].owner == u && |Owned(s.factors, u)| > 1
      then s.(factors := s.factors - {f}, log := s.log + [Removed(u, f)])
      else s
  }

  function Run(s: State, ops: seq<Op>): State {
    if ops == [] then s else Step(Run(s, ops[..|ops| - 1]), ops[|ops| - 1])
  }

  ghost predicate Init(s: State) {
    && s.pending == map[] && s.ceremonies == map[] && s.used == {} && s.reqs == map[] && s.log == []
    && (forall f :: f in s.factors ==> f < s.nextFactor)
    && 0 < s.nextSecret
  }

  // ----- what every run keeps -----

  /** An enrolment that claims the password was proved was opened by a request that
      proved it. */
  ghost predicate Honest(log: seq<Event>, e: Enrol) {
    e.stepUp ==> Proved(e.opener, e.user) in log
  }

  /** Why an event may follow `before`: a factor beyond an account's first was opened
      with the password, and one app enrolment makes one factor. */
  ghost predicate Sound(before: seq<Event>, e: Event) {
    e.Created? ==>
      && (!e.first ==> Proved(e.e.opener, e.e.user) in before)
      && (forall e' :: e' in before && e'.Created? && !e.e.passkey && !e'.e.passkey ==> e'.e.secret != e.e.secret)
  }

  ghost predicate AllSound(log: seq<Event>) {
    forall i {:trigger Sound(log[..i], log[i])} :: 0 <= i < |log| ==> Sound(log[..i], log[i])
  }

  ghost predicate Pendings(pending: map<int, Enrol>, nextSecret: int, log: seq<Event>) {
    && (forall u, u' :: u in pending && u' in pending && u != u' ==> pending[u].secret != pending[u'].secret)
    && forall u :: u in pending ==>
         var e := pending[u];
         && e.user == u && !e.passkey && 0 < e.secret < nextSecret && Honest(log, e)
         && (forall e' :: e' in log && e'.Created? && !e'.e.passkey ==> e'.e.secret != e.secret)
  }

  ghost predicate Ceremonies(ceremonies: map<int, Enrol>, log: seq<Event>) {
    forall u :: u in ceremonies ==> ceremonies[u].passkey && ceremonies[u].user == u && Honest(log, ceremonies[u])
  }

  /** The heart of it: an app enrolment that was accepted without the password can only
      still be claimed while the account has no factor at all. */
  ghost predicate RequestOk(pending: map<int, Enrol>, factors: map<int, Factor>, nextSecret: int, log: seq<Event>,
                            pc: Pc) {
    var e := pc.e;
    && Honest(log, e)
    && (pc.Taken? ==> e.passkey)
    && (!pc.Opening? && !e.passkey ==>
          && e.secret < nextSecret
          && (e.user in pending && pending[e.user].secret == e.secret ==>
                pending[e.user] == e && (e.stepUp || !Protected(factors, e.user))))
  }

  ghost predicate Requests(reqs: map<int, Pc>, used: set<int>, pending: map<int, Enrol>, factors: map<int, Factor>,
                           nextSecret: int, log: seq<Event>) {
    forall r :: r in reqs ==> r in used && RequestOk(pending, factors, nextSecret, log, reqs[r])
  }

  ghost predicate History(log: seq<Event>, factors: map<int, Factor>, nextFactor: int, nextSecret: int) {
    && 0 < nextSecret
    && (forall f :: f in factors ==> f < nextFactor)
    && (forall e :: e in log && e.Created? && !e.e.passkey ==> e.e.secret < nextSecret)
    && (forall e :: e in log && e.Created? ==> Protected(factors, e.e.user))
  }

  ghost predicate Inv(s: State) {
    && AllSound(s.log)
    && Pendings(s.pending, s.nextSecret, s.log)
    && Ceremonies(s.ceremonies, s.log)
    && Requests(s.reqs, s.used, s.pending, s.factors, s.nextSecret, s.log)
    && History(s.log, s.factors, s.nextFactor, s.nextSecret)
  }

  lemma SoundGrows(log: seq<Event>, e: Event)
    requires AllSound(log) && Sound(log, e)
    ensures AllSound(log + [e])
  {
    forall i | 0 <= i < |log + [e]|
      ensures Sound((log + [e])[..i], (log + [e])[i])
    {
      assert (log + [e])[..i] == log[..i];
      assert log[..|log|] == log;
    }
  }

  lemma OwnedAfterInsert(factors: map<int, Factor>, f: int, row: Factor)
    requires f !in factors
    ensures forall u ::
              Owned(factors[f := row], u) == if u == row.owner then Owned(factors, u) + {f} else Owned(factors, u)
  {
  }

  lemma OwnedAfterRemove(factors: map<int, Factor>, f: int, user: int)
    requires f in factors && factors[f].owner == user && |Owned(factors, user)| > 1
    ensures forall u :: Owned(factors - {f}, u) == if u == user then Owned(factors, u) - {f} else Owned(factors, u)
    ensures forall u :: Protected(factors - {f}, u) <==> Protected(factors, u)
  {
    var before, after := Owned(factors, user), Owned(factors - {f}, user);
    assert after == before - {f};
    assert |after| == |before| - 1;
    assert forall u :: u != user ==> Owned(factors - {f}, u) == Owned(factors, u);
  }

  lemma InsertKeepsRequests(reqs: map<int, Pc>, used: set<int>, pending: map<int, Enrol>, factors: map<int, Factor>,
                            nextSecret: int, log: seq<Event>, r: int, f: int, row: Factor, e: Event)
    requires Requests(reqs, used, pending, factors, nextSecret, log) && f !in factors
    ensures Requests(reqs - {r}, used, pending - {row.owner}, factors[f := row], nextSecret, log + [e])
  {
    OwnedAfterInsert(factors, f, row);
  }

  lemma InsertKeepsHistory(s: State, r: int, e: Enrol)
    requires History(s.log, s.factors, s.nextFactor, s.nextSecret) && (!e.passkey ==> e.secret < s.nextSecret)
    ensures var s' := Inserted(s, r, e);
            History(s'.log, s'.factors, s'.nextFactor, s'.nextSecret)
  {
    hide Owned;
    OwnedAfterInsert(s.factors, s.nextFactor, Factor(e.user, e.passkey, e.secret));
  }

  lemma InsertInv(s: State, r: int, e: Enrol)
    requires Inv(s) && r in s.reqs && s.reqs[r] == Counted(e)
    requires if e.passkey then e.stepUp || !Protected(s.factors, e.user)
             else e.user in s.pending && s.pending[e.user].secret == e.secret
    ensures Inv(Inserted(s, r, e))
  {
    hide Owned;
    var ev := Created(r, s.nextFactor, e, !Protected(s.factors, e.user));
    var row := Factor(e.user, e.passkey, e.secret);
    assert RequestOk(s.pending, s.factors, s.nextSecret, s.log, s.reqs[r]);
    InsertKeepsRequests(s.reqs, s.used, s.pending, s.factors, s.nextSecret, s.log, r, s.nextFactor, row, ev);
    hide Requests, RequestOk;
    SoundGrows(s.log, ev);
    hide AllSound, Sound;
    InsertKeepsHistory(s, r, e);
    hide History;
    ClaimKeepsPendings(s.pending, s.nextSecret, s.log, ev);
  }

  /** The others' enrolments are untouched by a creation. */
  lemma ClaimKeepsPendings(pending: map<int, Enrol>, nextSecret: int, log: seq<Event>, ev: Event)
    requires Pendings(pending, nextSecret, log) && ev.Created?
    requires !ev.e.passkey ==> ev.e.user in pending && pending[ev.e.user].secret == ev.e.secret
    ensures Pendings(pending - {ev.e.user}, nextSecret, log + [ev])
  {
  }

  lemma RemoveInv(s: State, u: int, f: int)
    requires Inv(s)
    ensures Inv(Step(s, Remove(u, f)))
  {
    hide Owned, Sound, Pendings, Ceremonies;
    if f in s.factors && s.factors[f].owner == u && |Owned(s.factors, u)| > 1 {
      var e := Removed(u, f);
      QuietGrows(s, e);
      OwnedAfterRemove(s.factors, f, u);
    }
  }

  /** An event other than a creation disturbs nothing. */
  lemma QuietGrows(s: State, e: Event)
    requires Inv(s) && !e.Created?
    ensures Inv(s.(log := s.log + [e]))
  {
    hide Owned, Protected;
    SoundGrows(s.log, e);
    assert forall r :: r in s.reqs ==> RequestOk(s.pending, s.factors, s.nextSecret, s.log + [e], s.reqs[r]);
  }

  lemma OpenInv(s: State, op: Op)
    requires Inv(s) && op.Open?
    ensures Inv(Step(s, op))
  {
    hide Owned, Protected, Pendings, Ceremonies, History, AllSound, Sound;
    var e := Proved(op.req, op.user);
    QuietGrows(s, e);
    assert e in s.log + [e];
  }

  lemma StoreInv(s: State, op: Op)
    requires Inv(s) && (op.StorePending? || op.StoreCeremony? || op.Lapse?)
    ensures Inv(Step(s, op))
  {
    hide Owned, Protected, AllSound, Sound;
  }

  lemma MoveInv(s: State, op: Op)
    requires Inv(s) && (op.ReadPending? || op.TakeCeremony? || op.ReadAccount? || op.Count?)
    ensures Inv(Step(s, op))
  {
    hide Owned, Protected, AllSound, Sound, History;
  }

  lemma StepInv(s: State, op: Op)
    requires Inv(s)
    ensures Inv(Step(s, op))
  {
    match op
    case Open(_, _, _, _) => OpenInv(s, op);
    case StorePending(_) => StoreInv(s, op);
    case StoreCeremony(_) => StoreInv(s, op);
    case Lapse(_) => StoreInv(s, op);
    case Insert(r) =>
      hide Inv;
      if r in s.reqs && s.reqs[r].Counted? {
        var e := s.reqs[r].e;
        if if e.passkey then e.stepUp || !Protected(s.factors, e.user)
           else e.user in s.pending && s.pending[e.user].secret == e.secret {
          InsertInv(s, r, e);
        } else {
          DropInv(s, r);
        }
      }
    case Remove(u, f) => RemoveInv(s, u, f);
    case _ => MoveInv(s, op);
  }

  lemma DropInv(s: State, r: int)
    requires Inv(s)
    ensures Inv(Done(s, r))
  {
  }

  lemma {:induction false} RunInv(s: State, ops: seq<Op>)
    requires Init(s)
    ensures Inv(Run(s, ops))
  {
    if ops != [] {
      RunInv(s, ops[..|ops| - 1]);
      StepInv(Run(s, ops[..|ops| - 1]), ops[|ops| - 1]);
    }
  }

  // ----- the theorems -----

  /** In every interleaving, a factor added to an account that already had one came from
      an enrolment that was opened with the password proved. */
  lemma LaterFactorsNeededThePassword(s: State, ops: seq<Op>, i: nat)
    requires Init(s) && i < |Run(s, ops).log|
    requires var e := Run(s, ops).log[i]; e.Created? && !e.first
    ensures var log := Run(s, ops).log;
            exists j: nat :: j < i && log[j] == Proved(log[i].e.opener, log[i].e.user)
  {
    hide Init, Run;
    RunInv(s, ops);
    var log := Run(s, ops).log;
    assert Sound(log[..i], log[i]);
    var j: nat :| j < i && log[..i][j] == Proved(log[i].e.opener, log[i].e.user);
    assert log[j] == log[..i][j];
  }

  /** However often one app enrolment is confirmed at once, it makes one factor: no two
      factors ever hold the same secret. */
  lemma OneEnrolmentOneFactor(s: State, ops: seq<Op>, i: nat, j: nat)
    requires Init(s) && i < j < |Run(s, ops).log|
    requires var log := Run(s, ops).log;
             log[i].Created? && log[j].Created? && !log[i].e.passkey && !log[j].e.passkey
    ensures Run(s, ops).log[i].e.secret != Run(s, ops).log[j].e.secret
  {
    hide Init, Run;
    RunInv(s, ops);
    var log := Run(s, ops).log;
    assert Sound(log[..j], log[j]);
    assert log[..j][i] == log[i];
  }

  lemma StepKeepsProtected(s: State, op: Op, user: int)
    requires Inv(s) && Protected(s.factors, user)
    ensures Protected(Step(s, op).factors, user)
  {
    hide AllSound, Pendings, Ceremonies, Requests;
    if op.Remove? {
      if op.factor in s.factors && s.factors[op.factor].owner == op.user && |Owned(s.factors, op.user)| > 1 {
        OwnedAfterRemove(s.factors, op.factor, op.user);
      }
    } else if op.Insert? {
      OwnedAfterInsert(s.factors, s.nextFactor, Factor(0, true, 0));
      if op.req in s.reqs && s.reqs[op.req].Counted? {
        var e := s.reqs[op.req].e;
        OwnedAfterInsert(s.factors, s.nextFactor, Factor(e.user, e.passkey, e.secret));
      }
    }
  }

  /** Once an account has a factor it always has one, however removals race. */
  lemma {:induction false} ProtectedStaysProtected(s: State, ops: seq<Op>, more: seq<Op>, user: int)
    requires Init(s) && Protected(Run(s, ops).factors, user)
    ensures Protected(Run(s, ops + more).factors, user)
  {
    hide Init, Step, Protected, Inv;
    if more == [] {
      assert ops + more == ops;
    } else {
      var n := |more| - 1;
      ProtectedStaysProtected(s, ops, more[..n], user);
      assert (ops + more)[..|ops + more| - 1] == ops + more[..n];
      RunInv(s, ops + more[..n]);
      StepKeepsProtected(Run(s, ops + more[..n]), more[n], user);
    }
  }

  // ----- the cap -----

  /** The requests that have counted a user's factors and not inserted yet. */
  function InFlight(reqs: map<int, Pc>, user: int): set<int> {
    set r | r in reqs && reqs[r].Counted? && reqs[r].e.user == user
  }

  ghost predicate AtMostInFlight(s: State, ops: seq<Op>, user: int, k: nat) {
    forall n :: 0 <= n <= |ops| ==> |InFlight(Run(s, ops[..n]).reqs, user)| <= k
  }

  lemma Shrinks(a: set<int>, b: set<int>)
    requires a <= b
    ensures |a| <= |b|
  {
    assert b == a + (b - a);
  }

  lemma NoneJoin(s: State, op: Op, user: int)
    requires !op.Count? && !op.Insert? && !op.Remove?
    ensures Step(s, op).factors == s.factors && InFlight(Step(s, op).reqs, user) <= InFlight(s.reqs, user)
  {
    hide Owned;
  }

  lemma CountWeight(s: State, r: int, user: int, k: nat)
    requires |InFlight(Step(s, Count(r)).reqs, user)| <= k
    requires |Owned(s.factors, user)| + |InFlight(s.reqs, user)| <= MAX_FACTORS - 1 + k
    ensures |Owned(s.factors, user)| + |InFlight(Step(s, Count(r)).reqs, user)| <= MAX_FACTORS - 1 + k
    ensures Step(s, Count(r)).factors == s.factors
  {
    hide Owned;
    if r in s.reqs && s.reqs[r].Accepted? && |Owned(s.factors, s.reqs[r].e.user)| < MAX_FACTORS
      && s.reqs[r].e.user == user {
      // room for one more was just seen
    } else {
      Shrinks(InFlight(Step(s, Count(r)).reqs, user), InFlight(s.reqs, user));
    }
  }

  /** Weight: the factors an account has plus those it may be about to gain. Only a
      count can raise it past the cap, and only by having company. */
  lemma StepWeight(s: State, op: Op, user: int, k: nat)
    requires Inv(s) && 1 <= k
    requires |Owned(s.factors, user)| + |InFlight(s.reqs, user)| <= MAX_FACTORS - 1 + k
    requires |InFlight(Step(s, op).reqs, user)| <= k
    ensures |Owned(Step(s, op).factors, user)| + |InFlight(Step(s, op).reqs, user)| <= MAX_FACTORS - 1 + k
  {
    hide Step, Inv, InFlight;
    if op.Count? {
      CountWeight(s, op.req, user, k);
    } else if op.Insert? {
      InsertWeight(s, op.req, user);
    } else if op.Remove? {
      RemoveWeight(s, op.user, op.factor, user);
    } else {
      NoneJoin(s, op, user);
      Shrinks(InFlight(Step(s, op).reqs, user), InFlight(s.reqs, user));
    }
  }

  lemma RemoveWeight(s: State, u: int, f: int, user: int)
    ensures |Owned(Step(s, Remove(u, f)).factors, user)| <= |Owned(s.factors, user)|
    ensures Step(s, Remove(u, f)).reqs == s.reqs
  {
    Shrinks(Owned(Step(s, Remove(u, f)).factors, user), Owned(s.factors, user));
  }

  lemma AddDrop(a: set<int>, x: int)
    ensures |a + {x}| <= |a| + 1 && |a - {x}| <= |a|
    ensures x in a ==> |a - {x}| == |a| - 1
  {
    Shrinks(a - {x}, a);
  }

  lemma InsertDone(s: State, r: int, user: int)
    ensures InFlight(Step(s, Insert(r)).reqs, user) <= InFlight(s.reqs, user)
    ensures r in s.reqs && s.reqs[r].Counted? && s.reqs[r].e.user == user ==>
              r in InFlight(s.reqs, user) && InFlight(Step(s, Insert(r)).reqs, user) == InFlight(s.reqs, user) - {r}
  {
    hide Owned;
  }

  lemma InsertRow(s: State, r: int, user: int)
    requires s.nextFactor !in s.factors
    ensures var after := Owned(Step(s, Insert(r)).factors, user);
            || after == Owned(s.factors, user)
            || (r in s.reqs && s.reqs[r].Counted? && s.reqs[r].e.user == user
                  && after == Owned(s.factors, user) + {s.nextFactor})
  {
  }

  lemma InsertWeight(s: State, r: int, user: int)
    requires Inv(s)
    ensures var s' := Step(s, Insert(r));
            |Owned(s'.factors, user)| + |InFlight(s'.reqs, user)| <= |Owned(s.factors, user)| + |InFlight(s.reqs, user)|
  {
    hide Step, AllSound, Pendings, Ceremonies, Requests, Owned, InFlight;
    InsertDone(s, r, user);
    InsertRow(s, r, user);
    AddDrop(Owned(s.factors, user), s.nextFactor);
    AddDrop(InFlight(s.reqs, user), r);
    Shrinks(InFlight(Step(s, Insert(r)).reqs, user), InFlight(s.reqs, user));
  }

  lemma {:induction false} Weight(s: State, ops: seq<Op>, user: int, k: nat)
    requires Init(s) && 1 <= k && |Owned(s.factors, user)| <= MAX_FACTORS && AtMostInFlight(s, ops, user, k)
    ensures |Owned(Run(s, ops).factors, user)| + |InFlight(Run(s, ops).reqs, user)| <= MAX_FACTORS - 1 + k
  {
    hide Step, Inv;
    if ops == [] {
      assert InFlight(s.reqs, user) == {};
    } else {
      var n := |ops| - 1;
      assert ops[..n + 1] == ops;
      forall m | 0 <= m <= n ensures |InFlight(Run(s, ops[..n][..m]).reqs, user)| <= k {
        assert ops[..n][..m] == ops[..m];
      }
      Weight(s, ops[..n], user, k);
      RunInv(s, ops[..n]);
      StepWeight(Run(s, ops[..n]), ops[n], user, k);
    }
  }

  /** With at most k requests of an account between the count and the insert, it never
      holds more than 9 + k factors; one at a time keeps it to ten. */
  lemma FactorsAreBounded(s: State, ops: seq<Op>, user: int, k: nat)
    requires Init(s) && 1 <= k && |Owned(s.factors, user)| <= MAX_FACTORS && AtMostInFlight(s, ops, user, k)
    ensures |Owned(Run(s, ops).factors, user)| <= MAX_FACTORS - 1 + k
  {
    Weight(s, ops, user, k);
  }
}
