/** Where the cap on factors ends: exactly when an account passes it, and runs that reach
    the bound for any number of enrolments in flight. */
module FactorLimits {
  import opened FactorHistory

  // ----- exactly when the cap is passed -----

  /** An insert that is granted to the account. */
  predicate Granted(s: State, op: Op, user: int) {
    && op.Insert? && op.req in s.reqs && s.reqs[op.req].Counted? && s.reqs[op.req].e.user == user
    && var e := s.reqs[op.req].e;
       if e.passkey then e.stepUp || !Protected(s.factors, user)
       else user in s.pending && s.pending[user].secret == e.secret
  }

  /** One step takes an account past the cap exactly when it is an insert granted while the
      account is full. */
  lemma StepPassesIffFull(s: State, op: Op, user: int)
    requires Inv(s) && |Owned(s.factors, user)| <= MAX_FACTORS
    ensures |Owned(Step(s, op).factors, user)| > MAX_FACTORS
            <==> Granted(s, op, user) && |Owned(s.factors, user)| >= MAX_FACTORS
  {
    hide Inv, Step;
    if op.Insert? {
      InsertPassesIffFull(s, op.req, user);
    } else if op.Remove? {
      RemoveWeight(s, op.user, op.factor, user);
    } else if op.Count? {
      CountKeepsFactors(s, op.req);
    } else {
      NoneJoin(s, op, user);
    }
  }

  lemma CountKeepsFactors(s: State, r: int)
    ensures Step(s, Count(r)).factors == s.factors
  {
    hide Owned;
  }

  lemma InsertPassesIffFull(s: State, r: int, user: int)
    requires Inv(s) && |Owned(s.factors, user)| <= MAX_FACTORS
    ensures |Owned(Step(s, Insert(r)).factors, user)| > MAX_FACTORS
            <==> Granted(s, Insert(r), user) && |Owned(s.factors, user)| >= MAX_FACTORS
  {
    hide AllSound, Pendings, Ceremonies, Requests, Owned;
    if r in s.reqs && s.reqs[r].Counted? {
      var e := s.reqs[r].e;
      OwnedAfterInsert(s.factors, s.nextFactor, Factor(e.user, e.passkey, e.secret));
      NewIsNotOwned(s.factors, s.nextFactor, user);
    }
  }

  lemma NewIsNotOwned(factors: map<int, Factor>, f: int, user: int)
    requires f !in factors
    ensures |Owned(factors, user) + {f}| == |Owned(factors, user)| + 1
  {
    assert f !in Owned(factors, user);
  }

  /** After the first n steps the account holds more than the cap. */
  predicate Past(s: State, ops: seq<Op>, user: int, n: nat)
    requires n <= |ops|
  {
    |Owned(Run(s, ops[..n]).factors, user)| > MAX_FACTORS
  }

  // ----- what came and went since a request counted -----

  /** The factors created for an account less those removed, by the log. */
  function Gained(log: seq<Event>, user: int): int {
    if log == [] then 0
    else
      var e := log[|log| - 1];
      Gained(log[..|log| - 1], user)
      + if e.Created? && e.e.user == user then 1 else if e.Removed? && e.user == user then -1 else 0
  }

  lemma GainedMore(log: seq<Event>, e: Event, user: int)
    ensures Gained(log + [e], user)
            == Gained(log, user)
               + if e.Created? && e.e.user == user then 1 else if e.Removed? && e.user == user then -1 else 0
  {
    assert (log + [e])[..|log|] == log;
  }

  /** What an account holds changes by what the log says, and grows only by a granted
      insert. */
  lemma StepGains(s: State, op: Op, user: int)
    requires Inv(s)
    ensures |Owned(Step(s, op).factors, user)| - |Owned(s.factors, user)|
            == Gained(Step(s, op).log, user) - Gained(s.log, user)
    ensures Gained(Step(s, op).log, user) > Gained(s.log, user) ==> Granted(s, op, user)
  {
    hide Inv, Step, Gained;
    if op.Insert? {
      InsertGains(s, op.req, user);
    } else if op.Remove? {
      RemoveGains(s, op.user, op.factor, user);
    } else {
      OthersGainNothing(s, op, user);
    }
  }

  lemma InsertGains(s: State, r: int, user: int)
    requires Inv(s)
    ensures |Owned(Step(s, Insert(r)).factors, user)| - |Owned(s.factors, user)|
            == Gained(Step(s, Insert(r)).log, user) - Gained(s.log, user)
    ensures Gained(Step(s, Insert(r)).log, user) > Gained(s.log, user) ==> Granted(s, Insert(r), user)
  {
    hide AllSound, Pendings, Ceremonies, Requests, Owned, Gained;
    if r in s.reqs && s.reqs[r].Counted? {
      var e := s.reqs[r].e;
      OwnedAfterInsert(s.factors, s.nextFactor, Factor(e.user, e.passkey, e.secret));
      NewIsNotOwned(s.factors, s.nextFactor, user);
      GainedMore(s.log, Created(r, s.nextFactor, e, !Protected(s.factors, e.user)), user);
    }
  }

  lemma RemoveGains(s: State, u: int, f: int, user: int)
    ensures |Owned(Step(s, Remove(u, f)).factors, user)| - |Owned(s.factors, user)|
            == Gained(Step(s, Remove(u, f)).log, user) - Gained(s.log, user)
    ensures Gained(Step(s, Remove(u, f)).log, user) <= Gained(s.log, user)
  {
    hide Gained;
    GainedMore(s.log, Removed(u, f), user);
    if f in s.factors && s.factors[f].owner == u && |Owned(s.factors, u)| > 1 {
      OwnedAfterRemove(s.factors, f, u);
      AddDrop(Owned(s.factors, user), f);
    }
  }

  lemma OthersGainNothing(s: State, op: Op, user: int)
    requires !op.Insert? && !op.Remove?
    ensures Step(s, op).factors == s.factors && Gained(Step(s, op).log, user) == Gained(s.log, user)
  {
    hide Owned, Gained;
    if op.Open? { GainedMore(s.log, Proved(op.req, op.user), user); }
  }

  /** The net gain of an account from step m to step n. */
  function NetGain(s: State, ops: seq<Op>, user: int, m: nat, n: nat): int
    requires m <= n <= |ops|
  {
    Gained(Run(s, ops[..n]).log, user) - Gained(Run(s, ops[..m]).log, user)
  }

  /** Factors are conserved: what an account holds at n is what it held at m and what it has
      gained since. */
  lemma {:induction false} FactorsAreConserved(s: State, ops: seq<Op>, user: int, m: nat, n: nat)
    requires Init(s) && m <= n <= |ops|
    ensures |Owned(Run(s, ops[..n]).factors, user)|
            == |Owned(Run(s, ops[..m]).factors, user)| + NetGain(s, ops, user, m, n)
  {
    hide Step, Inv, Init, Owned, Gained;
    if m < n {
      FactorsAreConserved(s, ops, user, m, n - 1);
      RunInv(s, ops[..n - 1]);
      assert ops[..n][..n - 1] == ops[..n - 1];
      StepGains(Run(s, ops[..n - 1]), ops[n - 1], user);
    }
  }

  /** Request r counted at step m and has stood counted ever since, up to n. */
  ghost predicate CountedSince(s: State, ops: seq<Op>, r: int, m: nat, n: nat)
    requires n <= |ops|
  {
    && m < n && ops[m] == Count(r)
    && forall k :: m < k <= n ==> r in Run(s, ops[..k]).reqs && Run(s, ops[..k]).reqs[r].Counted?
  }

  lemma StepCounts(s: State, op: Op, r: int)
    requires var s' := Step(s, op); r in s'.reqs && s'.reqs[r].Counted?
    ensures var pc := Step(s, op).reqs[r];
            || (r in s.reqs && s.reqs[r] == pc)
            || (op == Count(r) && |Owned(s.factors, pc.e.user)| < MAX_FACTORS)
  {
    hide Owned;
  }

  /** A request that stands counted did so at some step, and saw room then. */
  lemma {:induction false} CountMoment(s: State, ops: seq<Op>, r: int, n: nat) returns (m: nat)
    requires Init(s) && n <= |ops| && r in Run(s, ops[..n]).reqs && Run(s, ops[..n]).reqs[r].Counted?
    ensures CountedSince(s, ops, r, m, n)
    ensures |Owned(Run(s, ops[..m]).factors, Run(s, ops[..n]).reqs[r].e.user)| < MAX_FACTORS
  {
    hide Step, Owned;
    assert n > 0 by { assert ops[..0] == []; }
    assert ops[..n][..n - 1] == ops[..n - 1];
    var before := Run(s, ops[..n - 1]);
    StepCounts(before, ops[n - 1], r);
    if r in before.reqs && before.reqs[r] == Run(s, ops[..n]).reqs[r] {
      m := CountMoment(s, ops, r, n - 1);
    } else {
      m := n - 1;
    }
  }

  /** Since the request counted, the account has gained at least the room it saw: its count
      has gone stale. */
  ghost predicate Overtaken(s: State, ops: seq<Op>, r: int, user: int, m: nat, n: nat)
    requires n <= |ops|
  {
    CountedSince(s, ops, r, m, n)
    && NetGain(s, ops, user, m, n) >= MAX_FACTORS - |Owned(Run(s, ops[..m]).factors, user)|
  }

  /** The n-th step is an insert granted to a request whose count has gone stale, for an
      account that was within the cap till then. */
  ghost predicate StaleAt(s: State, ops: seq<Op>, user: int, n: nat)
    requires n < |ops|
  {
    && !Past(s, ops, user, n) && Granted(Run(s, ops[..n]), ops[n], user)
    && exists m: nat :: Overtaken(s, ops, ops[n].req, user, m, n)
  }

  /** In any run an account within the cap gets past it exactly when some insert is granted
      on a stale count: since its own count the account has gained, by other inserts less
      removals, all the room it saw. */
  lemma PassesTheCapIffAnInsertIsStale(s: State, ops: seq<Op>, user: int)
    requires Init(s) && |Owned(s.factors, user)| <= MAX_FACTORS
    ensures (exists n :: 0 <= n <= |ops| && Past(s, ops, user, n))
            <==> (exists n :: 0 <= n < |ops| && StaleAt(s, ops, user, n))
  {
    hide Step, Inv, Init, StaleAt, Owned;
    if n: nat :| n <= |ops| && Past(s, ops, user, n) {
      var m := FirstPast(s, ops, user, n);
      PastIffStale(s, ops, user, m);
      assert StaleAt(s, ops, user, m);
    }
    if n: nat :| n < |ops| && StaleAt(s, ops, user, n) {
      StaleIsWithin(s, ops, user, n);
      PastIffStale(s, ops, user, n);
      assert Past(s, ops, user, n + 1);
    }
  }

  lemma StaleIsWithin(s: State, ops: seq<Op>, user: int, n: nat)
    requires n < |ops| && StaleAt(s, ops, user, n)
    ensures !Past(s, ops, user, n)
  {
  }

  lemma PastIffStale(s: State, ops: seq<Op>, user: int, n: nat)
    requires Init(s) && n < |ops| && !Past(s, ops, user, n)
    ensures Past(s, ops, user, n + 1) <==> StaleAt(s, ops, user, n)
  {
    hide Step, Inv, Init, Owned, CountedSince, NetGain;
    var now := Run(s, ops[..n]);
    RunInv(s, ops[..n]);
    assert ops[..n + 1][..n] == ops[..n];
    StepPassesIffFull(now, ops[n], user);
    if Past(s, ops, user, n + 1) {
      var m := CountMoment(s, ops, ops[n].req, n);
      assert CountedSince(s, ops, ops[n].req, m, n) ==> m < n by { SinceIsBefore(s, ops, ops[n].req, m, n); }
      FactorsAreConserved(s, ops, user, m, n);
      assert Overtaken(s, ops, ops[n].req, user, m, n);
    }
    if StaleAt(s, ops, user, n) {
      var m: nat :| Overtaken(s, ops, ops[n].req, user, m, n);
      SinceIsBefore(s, ops, ops[n].req, m, n);
      FactorsAreConserved(s, ops, user, m, n);
    }
  }

  lemma SinceIsBefore(s: State, ops: seq<Op>, r: int, m: nat, n: nat)
    requires n <= |ops|
    ensures CountedSince(s, ops, r, m, n) ==> m < n
  {
  }

  /** Behind a stale insert there is always another: between the request's count and its own
      insert, one of another request was granted to the account. */
  lemma StaleMeansOvertaken(s: State, ops: seq<Op>, user: int, n: nat) returns (m: nat, j: nat)
    requires Init(s) && n < |ops| && StaleAt(s, ops, user, n)
    ensures m < j < n && ops[m] == Count(ops[n].req)
    ensures Granted(Run(s, ops[..j]), ops[j], user) && ops[j].req != ops[n].req
  {
    hide Step, Inv, Init, Owned, Gained, Granted;
    GrantedIsInsert(Run(s, ops[..n]), ops[n], user);
    var r := ops[n].req;
    m := CountMoment(s, ops, r, n);
    FactorsAreConserved(s, ops, user, m, n);
    PastIffStale(s, ops, user, n);
    RunInv(s, ops[..n]);
    assert ops[..n + 1][..n] == ops[..n];
    StepPassesIffFull(Run(s, ops[..n]), ops[n], user);
    j := GrownByAnInsert(s, ops, user, m, n);
    GrantedIsInsert(Run(s, ops[..j]), ops[j], user);
    InsertEndsRequest(Run(s, ops[..j]), ops[j].req);
    assert ops[..j + 1][..j] == ops[..j];
  }

  lemma GrantedIsInsert(s: State, op: Op, user: int)
    ensures Granted(s, op, user) ==>
            op.Insert? && op.req in s.reqs && s.reqs[op.req].Counted? && s.reqs[op.req].e.user == user
  {
  }

  lemma InsertEndsRequest(s: State, r: int)
    requires r in s.reqs && s.reqs[r].Counted?
    ensures r !in Step(s, Insert(r)).reqs
  {
    hide Owned;
  }

  lemma {:induction false} GrownByAnInsert(s: State, ops: seq<Op>, user: int, m: nat, n: nat) returns (j: nat)
    requires Init(s) && m <= n <= |ops| && NetGain(s, ops, user, m, n) > 0
    ensures m <= j < n && Granted(Run(s, ops[..j]), ops[j], user)
  {
    hide Step, Inv, Init, Owned, Gained, Granted;
    RunInv(s, ops[..n - 1]);
    assert ops[..n][..n - 1] == ops[..n - 1];
    StepGains(Run(s, ops[..n - 1]), ops[n - 1], user);
    if Granted(Run(s, ops[..n - 1]), ops[n - 1], user) {
      j := n - 1;
    } else {
      j := GrownByAnInsert(s, ops, user, m, n - 1);
    }
  }

  /** The last moment before an account first passes the cap. */
  lemma {:induction false} FirstPast(s: State, ops: seq<Op>, user: int, n: nat) returns (m: nat)
    requires n <= |ops| && |Owned(s.factors, user)| <= MAX_FACTORS && Past(s, ops, user, n)
    ensures m < n && !Past(s, ops, user, m) && Past(s, ops, user, m + 1)
  {
    hide Step, Owned;
    assert n > 0 by { assert ops[..0] == []; }
    if Past(s, ops, user, n - 1) {
      m := FirstPast(s, ops, user, n - 1);
    } else {
      m := n - 1;
    }
  }

  // ----- the bound is reached for every number in flight -----

  /** A passkey enrolment opened with the password by `a`, brought by `r` to the point
      where it has counted. */
  function Enrolment(a: int, r: int): seq<Op> {
    [Open(a, 1, true, true), StoreCeremony(a), TakeCeremony(r, 1), ReadAccount(r), Count(r)]
  }

  function Ceremony(a: int): Enrol { Enrol(1, true, 0, true, a) }

  lemma Opened(s: State, a: int)
    requires a !in s.used && a !in s.reqs && 0 < |Owned(s.factors, 1)| < MAX_FACTORS
    ensures Step(Step(s, Open(a, 1, true, true)), StoreCeremony(a)).(log := s.log) ==
            s.(used := s.used + {a}, ceremonies := s.ceremonies[1 := Ceremony(a)])
  {
    hide Owned;
    var s1 := Step(s, Open(a, 1, true, true));
    assert s1.reqs == s.reqs[a := Opening(Ceremony(a))];
    assert s1.reqs - {a} == s.reqs;
  }

  lemma CountedWithRoom(s: State, a: int, r: int)
    requires 1 in s.ceremonies && s.ceremonies[1] == Ceremony(a) && r !in s.used
    requires 0 < |Owned(s.factors, 1)| < MAX_FACTORS
    ensures var s' := Step(Step(Step(s, TakeCeremony(r, 1)), ReadAccount(r)), Count(r));
            && s'.factors == s.factors && s'.nextFactor == s.nextFactor && s'.used == s.used + {r}
            && s'.reqs == s.reqs[r := Counted(Ceremony(a))]
  {
    hide Owned;
    var s1 := Step(s, TakeCeremony(r, 1));
    var s2 := Step(s1, ReadAccount(r));
    assert s2.reqs == s.reqs[r := Accepted(Ceremony(a))];
  }

  lemma EnrolmentRuns(s: State, a: int, r: int)
    requires a !in s.used && r !in s.used && a != r && a !in s.reqs
    requires 0 < |Owned(s.factors, 1)| < MAX_FACTORS
    ensures var s' := Run(s, Enrolment(a, r));
            && s'.factors == s.factors && s'.nextFactor == s.nextFactor && s'.used == s.used + {a, r}
            && s'.reqs == s.reqs[r := Counted(Ceremony(a))]
  {
    hide Step, Owned;
    var ops := Enrolment(a, r);
    Opened(s, a);
    assert ops[..2][..1] == ops[..1] && ops[..1][..0] == [];
    var s2 := Step(Step(s, ops[0]), ops[1]);
    assert Run(s, ops[..1]) == Step(s, ops[0]);
    assert Run(s, ops[..2]) == s2;
    CountedWithRoom(s2, a, r);
    assert ops[..3][..2] == ops[..2] && ops[..4][..3] == ops[..3];
    assert Run(s, ops[..3]) == Step(s2, ops[2]);
    assert Run(s, ops[..4]) == Step(Step(s2, ops[2]), ops[3]);
  }

  lemma {:induction false} RunConcat(s: State, ops: seq<Op>, more: seq<Op>)
    ensures Run(s, ops + more) == Run(Run(s, ops), more)
  {
    if more == [] {
      assert ops + more == ops;
    } else {
      var n := |more| - 1;
      RunConcat(s, ops, more[..n]);
      assert (ops + more)[..|ops + more| - 1] == ops + more[..n];
    }
  }

  lemma InsertRuns(s: State, r: int, a: int)
    requires r in s.reqs && s.reqs[r] == Counted(Ceremony(a)) && s.nextFactor !in s.factors
    ensures var s' := Run(s, [Insert(r)]);
            && s'.factors == s.factors[s.nextFactor := Factor(1, true, 0)] && s'.nextFactor == s.nextFactor + 1
            && s'.reqs == s.reqs - {r}
            && |Owned(s'.factors, 1)| == |Owned(s.factors, 1)| + 1
  {
    OwnedAfterInsert(s.factors, s.nextFactor, Factor(1, true, 0));
  }

  function NineFactors(): map<int, Factor> {
    var f := Factor(1, true, 0);
    map[1 := f, 2 := f, 3 := f, 4 := f, 5 := f, 6 := f, 7 := f, 8 := f, 9 := f]
  }

  lemma NineAreOwned()
    ensures |Owned(NineFactors(), 1)| == 9 && forall f :: f in NineFactors() ==> f < 10
  {
    var nine := {1, 2, 3, 4, 5, 6, 7, 8, 9};
    assert forall f :: f in NineFactors() <==> f in nine;
    assert Owned(NineFactors(), 1) == nine;
    assert |nine| == 9;
  }

  /** The first k of these enrolments, all brought to their count. */
  function Starts(k: nat): seq<Op> {
    if k == 0 then [] else Starts(k - 1) + Enrolment(2 * k - 1, 2 * k)
  }

  function Inserts(k: nat): seq<Op> {
    if k == 0 then [] else Inserts(k - 1) + [Insert(2 * k)]
  }

  /** The first k requests stand counted, and nothing else is under way. */
  ghost predicate Lined(s: State, first: nat, k: nat) {
    && (forall i :: first < i <= k ==> 2 * i in s.reqs && s.reqs[2 * i] == Counted(Ceremony(2 * i - 1)))
    && (forall f :: f in s.factors ==> f < s.nextFactor)
  }

  lemma {:induction false} StartsRun(s: State, k: nat)
    requires Init(s) && 0 < |Owned(s.factors, 1)| < MAX_FACTORS
    ensures var s' := Run(s, Starts(k));
            && s'.factors == s.factors && s'.nextFactor == s.nextFactor && Lined(s', 0, k)
            && (forall r :: r in s'.used ==> r <= 2 * k) && (forall r :: r in s'.reqs ==> r <= 2 * k)
  {
    hide Step, Owned;
    if k > 0 {
      StartsRun(s, k - 1);
      EnrolmentRuns(Run(s, Starts(k - 1)), 2 * k - 1, 2 * k);
      RunConcat(s, Starts(k - 1), Enrolment(2 * k - 1, 2 * k));
    }
  }

  lemma {:induction false} InsertsRun(s: State, n: nat, k: nat)
    requires n <= k && Lined(s, 0, k)
    ensures var s' := Run(s, Inserts(n)); Lined(s', n, k) && |Owned(s'.factors, 1)| == |Owned(s.factors, 1)| + n
  {
    hide Step, Owned;
    if n > 0 {
      InsertsRun(s, n - 1, k);
      InsertRuns(Run(s, Inserts(n - 1)), 2 * n, 2 * n - 1);
      RunConcat(s, Inserts(n - 1), [Insert(2 * n)]);
    }
  }

  function Counts(ops: seq<Op>): nat {
    if ops == [] then 0 else Counts(ops[..|ops| - 1]) + if ops[|ops| - 1].Count? then 1 else 0
  }

  lemma {:induction false} CountsConcat(a: seq<Op>, b: seq<Op>)
    ensures Counts(a + b) == Counts(a) + Counts(b)
  {
    if b == [] {
      assert a + b == a;
    } else {
      assert (a + b)[..|a + b| - 1] == a + b[..|b| - 1];
      CountsConcat(a, b[..|b| - 1]);
    }
  }

  lemma {:induction false} CountsPrefix(ops: seq<Op>, n: nat)
    requires n <= |ops|
    ensures Counts(ops[..n]) <= Counts(ops)
  {
    assert ops == ops[..n] + ops[n..];
    CountsConcat(ops[..n], ops[n..]);
  }

  lemma {:induction false} RunCounts(k: nat)
    ensures Counts(Starts(k)) == k && Counts(Inserts(k)) == 0
  {
    if k > 0 {
      RunCounts(k - 1);
      EnrolmentCountsOnce(2 * k - 1, 2 * k);
      CountsConcat(Starts(k - 1), Enrolment(2 * k - 1, 2 * k));
      CountsConcat(Inserts(k - 1), [Insert(2 * k)]);
      assert [Insert(2 * k)][..0] == [];
    }
  }

  lemma EnrolmentCountsOnce(a: int, r: int)
    ensures Counts(Enrolment(a, r)) == 1
  {
    var ops := Enrolment(a, r);
    assert ops[..4][..3] == ops[..3] && ops[..3][..2] == ops[..2] && ops[..2][..1] == ops[..1] && ops[..1][..0] == [];
    assert Counts(ops[..1]) == 0 && Counts(ops[..2]) == 0 && Counts(ops[..3]) == 0 && Counts(ops[..4]) == 0;
  }

  lemma CountAddsOne(s: State, r: int, user: int)
    ensures InFlight(Step(s, Count(r)).reqs, user) <= InFlight(s.reqs, user) + {r}
  {
    hide Owned;
  }

  lemma SettledByOthers(s: State, op: Op, user: int)
    requires !op.Count?
    ensures InFlight(Step(s, op).reqs, user) <= InFlight(s.reqs, user)
  {
    hide Owned;
  }

  /** No more requests are ever in flight than have counted. */
  lemma {:induction false} InFlightHaveCounted(s: State, ops: seq<Op>, user: int)
    requires Init(s)
    ensures |InFlight(Run(s, ops).reqs, user)| <= Counts(ops)
  {
    hide Step;
    if ops == [] {
      assert InFlight(s.reqs, user) == {};
    } else {
      var n := |ops| - 1;
      var before := Run(s, ops[..n]);
      InFlightHaveCounted(s, ops[..n], user);
      if ops[n].Count? {
        CountAddsOne(before, ops[n].req, user);
        AddDrop(InFlight(before.reqs, user), ops[n].req);
        Shrinks(InFlight(Run(s, ops).reqs, user), InFlight(before.reqs, user) + {ops[n].req});
      } else {
        SettledByOthers(before, ops[n], user);
        Shrinks(InFlight(Run(s, ops).reqs, user), InFlight(before.reqs, user));
      }
    }
  }

  /** For every k there is a run with at most k enrolments in flight that takes an account
      from nine factors to 9 + k: the bound is reached. */
  lemma InFlightPassTheCap(k: nat) returns (s: State, ops: seq<Op>)
    ensures Init(s) && |Owned(s.factors, 1)| == 9 && AtMostInFlight(s, ops, 1, k)
    ensures |Owned(Run(s, ops).factors, 1)| == 9 + k
  {
    s := State(map[], map[], NineFactors(), 10, 1, {}, map[], []);
    hide Owned, Step, Run, NineFactors, InFlight;
    NineAreOwned();
    StartsRun(s, k);
    InsertsRun(Run(s, Starts(k)), k, k);
    ops := Starts(k) + Inserts(k);
    RunConcat(s, Starts(k), Inserts(k));
    RunCounts(k);
    CountsConcat(Starts(k), Inserts(k));
    forall n | 0 <= n <= |ops| ensures |InFlight(Run(s, ops[..n]).reqs, 1)| <= k {
      InFlightHaveCounted(s, ops[..n], 1);
      CountsPrefix(ops, n);
    }
  }
}
