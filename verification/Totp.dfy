/** One-time codes: internal/auth/totp.go (the skew window), consumeTOTP in
    internal/auth/service.go and BurnFactorCounter in internal/store/factors.go.
    RFC 6238, section 5.2: a code must not be accepted a second time. */
module Totp {
  import opened BoundedSweep
  import opened Options

  const PERIOD: int := 30
  const SKEW: int := 1

  /** Integer division as the source language does it: toward zero. */
  function Quotient(a: int, b: int): int
    requires b > 0
  {
    if a >= 0 then a / b else -((-a) / b)
  }

  /** The code an authenticator shows at a moment, or None when it cannot be made.
      The algorithm itself is not modelled. */
  type Codes = (string, int) -> Option<string>

  function Moment(now: int, delta: int): int {
    now + delta * PERIOD
  }

  predicate Shows(codes: Codes, secret: string, code: string, now: int, delta: int) {
    codes(secret, Moment(now, delta)) == Some(code)
  }

  function Counter(now: int, delta: int): int {
    Quotient(Moment(now, delta), PERIOD)
  }

  /** The earliest step of the window whose code this is. */
  ghost predicate Matched(codes: Codes, secret: string, code: string, now: int, counter: int) {
    exists delta :: -SKEW <= delta <= SKEW && Shows(codes, secret, code, now, delta) && counter == Counter(now, delta)
                    && forall d :: -SKEW <= d < delta ==> !Shows(codes, secret, code, now, d)
  }

  method MatchTOTP(codes: Codes, code: string, secret: string, now: int) returns (counter: int, ok: bool)
    ensures ok <==> exists delta :: -SKEW <= delta <= SKEW && Shows(codes, secret, code, now, delta)
    ensures ok ==> Matched(codes, secret, code, now, counter)
  {
    for delta := -SKEW to SKEW + 1
      invariant forall d :: -SKEW <= d < delta ==> !Shows(codes, secret, code, now, d)
    {
      var at := Moment(now, delta);
      var want := codes(secret, at);
      if want.None? {
        continue;
      }
      if want.value == code {
        assert Shows(codes, secret, code, now, delta);
        return Quotient(at, PERIOD), true;
      }
    }
    return 0, false;
  }

  /** A matched step is never further than one step from the clock. */
  lemma MatchedNearNow(codes: Codes, secret: string, code: string, now: int, counter: int)
    requires 0 <= now && Matched(codes, secret, code, now, counter)
    ensures now / PERIOD - 1 <= counter <= now / PERIOD + 1
  {
    var delta :| -SKEW <= delta <= SKEW && counter == Counter(now, delta);
    assert delta == -1 || delta == 0 || delta == 1;
    if delta == -1 && now < PERIOD {
      assert now / PERIOD == 0;
      assert Moment(now, delta) == now - 30;
    }
  }

  datatype Factor = Factor(id: int, totp: bool, secret: string, lastCounter: int)

  ghost predicate Usable(codes: Codes, f: Factor, code: string, now: int) {
    f.totp && exists c :: Matched(codes, f.secret, code, now, c) && c > f.lastCounter
  }

  /** The choosing loop of consumeTOTP, over the rows it listed. */
  method Choose(codes: Codes, factors: seq<Factor>, code: string, now: int)
    returns (matched: Option<Factor>, counter: int)
    ensures matched.Some? ==>
              && matched.value in factors && matched.value.totp
              && Matched(codes, matched.value.secret, code, now, counter) && counter > matched.value.lastCounter
    ensures matched.None? ==> forall i :: 0 <= i < |factors| ==> !Usable(codes, factors[i], code, now)
  {
    matched, counter := None, 0;
    for i := 0 to |factors|
      invariant matched.Some? ==>
                  && matched.value in factors && matched.value.totp
                  && Matched(codes, matched.value.secret, code, now, counter) && counter > matched.value.lastCounter
      invariant matched.None? ==> forall j :: 0 <= j < i ==> !Usable(codes, factors[j], code, now)
    {
      if !factors[i].totp {
        continue;
      }
      var c, ok := MatchTOTP(codes, code, factors[i].secret, now);
      if ok && c > factors[i].lastCounter && matched == None {
        matched, counter := Some(factors[i]), c;
      }
      if Usable(codes, factors[i], code, now) && matched.None? {
        MatchedUnique(codes, factors[i].secret, code, now, c);
      }
    }
  }

  lemma MatchedUnique(codes: Codes, secret: string, code: string, now: int, c: int)
    requires Matched(codes, secret, code, now, c)
    ensures forall c' :: Matched(codes, secret, code, now, c') ==> c' == c
  {
  }

  // ----- every interleaving of listing, matching and burning -----

  /** A request that has matched a step and is about to burn it; `at` is when its
      clock was read. */
  datatype Attempt = Attempt(factor: int, counter: int, at: int)

  datatype State = State(rows: map<int, int>, next: int, waiting: map<int, Attempt>, log: seq<Attempt>)

  datatype Op =
    | Match(req: int, attempt: Attempt)
    | Burn(req: int)
    | Pair
    | Unpair(factor: int)

  function Init(): State {
    State(map[], 1, map[], [])
  }

  /** The conditional update in the store: the counter must move forward. */
  predicate Burns(rows: map<int, int>, a: Attempt) {
    a.factor in rows && rows[a.factor] < a.counter
  }

  /** What MatchedNearNow says of every matched step. */
  predicate Near(a: Attempt) {
    0 <= a.at && a.at / PERIOD - 1 <= a.counter <= a.at / PERIOD + 1
  }

  function Step(s: State, op: Op): State {
    match op
    case Match(req, a) =>
      if Near(a) then s.(waiting := s.waiting[req := a]) else s
    case Burn(req) =>
      if req !in s.waiting then s
      else
        var a := s.waiting[req];
        var s' := s.(waiting := s.waiting - {req});
        if Burns(s.rows, a) then s'.(rows := s.rows[a.factor := a.counter], log := s.log + [a]) else s'
    case Pair => s.(rows := s.rows[s.next := 0], next := s.next + 1)
    case Unpair(f) => s.(rows := s.rows - {f})
  }

  function Run(ops: seq<Op>): State {
    if ops == [] then Init() else Step(Run(ops[..|ops| - 1]), ops[|ops| - 1])
  }

  ghost predicate Inv(s: State) {
    && (forall f :: f in s.rows ==> f < s.next)
    && (forall r :: r in s.waiting ==> Near(s.waiting[r]))
    && (forall i :: 0 <= i < |s.log| ==> Near(s.log[i]) && s.log[i].factor < s.next)
    && (forall i :: 0 <= i < |s.log| && s.log[i].factor in s.rows ==> s.log[i].counter <= s.rows[s.log[i].factor])
    && (forall i, j :: 0 <= i < j < |s.log| && s.log[i].factor == s.log[j].factor ==>
          s.log[i].counter < s.log[j].counter)
  }

  lemma BurnInv(s: State, a: Attempt)
    requires Inv(s) && Near(a) && Burns(s.rows, a)
    ensures Inv(s.(rows := s.rows[a.factor := a.counter], log := s.log + [a]))
  {
    var log := s.log + [a];
    forall i, j | 0 <= i < j < |log| && log[i].factor == log[j].factor
      ensures log[i].counter < log[j].counter
    {
      assert log[i] == s.log[i];
    }
  }

  lemma StepInv(s: State, op: Op)
    requires Inv(s)
    ensures Inv(Step(s, op))
  {
    match op
    case Match(req, a) =>
    case Burn(req) =>
      if req in s.waiting {
        var a := s.waiting[req];
        assert Inv(s.(waiting := s.waiting - {req}));
        if Burns(s.rows, a) {
          BurnInv(s.(waiting := s.waiting - {req}), a);
        }
      }
    case Pair =>
    case Unpair(f) =>
  }

  lemma {:induction false} RunInv(ops: seq<Op>)
    ensures Inv(Run(ops))
  {
    if ops != [] {
      RunInv(ops[..|ops| - 1]);
      StepInv(Run(ops[..|ops| - 1]), ops[|ops| - 1]);
    }
  }

  /** However requests interleave, what each authenticator's accepted codes came from
      only moves forward, so no step is ever accepted twice. */
  lemma CountersIncrease(ops: seq<Op>, i: nat, j: nat)
    requires i < j < |Run(ops).log| && Run(ops).log[i].factor == Run(ops).log[j].factor
    ensures Run(ops).log[i].counter < Run(ops).log[j].counter
  {
    RunInv(ops);
  }

  ghost predicate Accepted(log: seq<Attempt>, factor: int, counter: int) {
    exists i :: 0 <= i < |log| && log[i].factor == factor && log[i].counter == counter
  }

  /** A factor's counter is that of a code it accepted, or zero before the first. */
  ghost predicate Recorded(s: State) {
    forall f :: f in s.rows ==> s.rows[f] == 0 || (s.rows[f] > 0 && Accepted(s.log, f, s.rows[f]))
  }

  lemma AcceptedStays(log: seq<Attempt>, a: Attempt, factor: int, counter: int)
    requires Accepted(log, factor, counter)
    ensures Accepted(log + [a], factor, counter)
  {
    var i :| 0 <= i < |log| && log[i].factor == factor && log[i].counter == counter;
    assert (log + [a])[i] == log[i];
  }

  lemma StepRecorded(s: State, op: Op)
    requires Recorded(s)
    ensures Recorded(Step(s, op))
  {
    if op.Burn? && op.req in s.waiting && Burns(s.rows, s.waiting[op.req]) {
      var a := s.waiting[op.req];
      assert (s.log + [a])[|s.log|] == a;
      forall f | f in s.rows && s.rows[f] > 0 ensures Accepted(s.log + [a], f, s.rows[f]) {
        AcceptedStays(s.log, a, f, s.rows[f]);
      }
    }
  }

  lemma {:induction false} RunRecorded(ops: seq<Op>)
    ensures Recorded(Run(ops))
  {
    hide Recorded, Step;
    if ops == [] {
      StartRecorded();
    } else {
      RunRecorded(ops[..|ops| - 1]);
      StepRecorded(Run(ops[..|ops| - 1]), ops[|ops| - 1]);
    }
  }

  lemma StartRecorded()
    ensures Recorded(Init())
  {
  }

  /** The factor is still paired, and the step lies after every one accepted for it so far. */
  ghost predicate Fresh(s: State, a: Attempt) {
    a.factor in s.rows && 0 < a.counter && forall i :: 0 <= i < |s.log| && s.log[i].factor == a.factor ==>
      s.log[i].counter < a.counter
  }

  /** A request that goes to burn the step it matched succeeds exactly when the step is
      fresh. */
  lemma BurnSucceedsIffFresh(ops: seq<Op>, n: nat)
    requires n < |ops| && ops[n].Burn? && ops[n].req in Run(ops[..n]).waiting
    ensures var before := Run(ops[..n]);
            var a := before.waiting[ops[n].req];
            Run(ops[..n + 1]).log == before.log + if Fresh(before, a) then [a] else []
  {
    hide Run;
    RunInv(ops[..n]);
    RunRecorded(ops[..n]);
    RunOneMore(ops, n);
    var before := Run(ops[..n]);
    var a := before.waiting[ops[n].req];
    if a.factor in before.rows && before.rows[a.factor] > 0 {
      var i :| 0 <= i < |before.log| && before.log[i].factor == a.factor
        && before.log[i].counter == before.rows[a.factor];
    }
  }

  lemma RunOneMore(ops: seq<Op>, n: nat)
    requires n < |ops|
    ensures Run(ops[..n + 1]) == Step(Run(ops[..n]), ops[n])
  {
    hide Step;
    assert ops[..n + 1][..n] == ops[..n];
  }

  /** The steps accepted for one factor from requests whose clock read t..t+span. */
  function AcceptedIn(log: seq<Attempt>, factor: int, t: int, span: int): seq<int> {
    if log == [] then []
    else
      var a := log[|log| - 1];
      AcceptedIn(log[..|log| - 1], factor, t, span)
      + (if a.factor == factor && t <= a.at <= t + span then [a.counter] else [])
  }

  ghost predicate Source(log: seq<Attempt>, factor: int, t: int, span: int, c: int) {
    exists i :: 0 <= i < |log| && log[i].factor == factor && log[i].counter == c && t <= log[i].at <= t + span
  }

  lemma {:induction false} AcceptedIncrease(log: seq<Attempt>, factor: int, t: int, span: int)
    requires forall i, j :: 0 <= i < j < |log| && log[i].factor == log[j].factor ==> log[i].counter < log[j].counter
    ensures forall k :: 0 <= k < |AcceptedIn(log, factor, t, span)| ==>
              Source(log, factor, t, span, AcceptedIn(log, factor, t, span)[k])
    ensures forall i, j :: 0 <= i < j < |AcceptedIn(log, factor, t, span)| ==>
              AcceptedIn(log, factor, t, span)[i] < AcceptedIn(log, factor, t, span)[j]
  {
    if log != [] {
      var n := |log| - 1;
      AcceptedIncrease(log[..n], factor, t, span);
      var before := AcceptedIn(log[..n], factor, t, span);
      forall k | 0 <= k < |before|
        ensures Source(log, factor, t, span, before[k])
        ensures log[n].factor == factor ==> before[k] < log[n].counter
      {
        assert Source(log[..n], factor, t, span, before[k]);
        var i :| 0 <= i < n && log[..n][i].factor == factor && log[..n][i].counter == before[k]
          && t <= log[..n][i].at <= t + span;
        assert log[i] == log[..n][i];
      }
    }
  }

  lemma {:induction false} IncreasingFits(s: seq<int>, lo: int, hi: int)
    requires forall i, j :: 0 <= i < j < |s| ==> s[i] < s[j]
    requires forall i :: 0 <= i < |s| ==> lo <= s[i] <= hi
    requires lo <= hi + 1
    ensures |s| <= hi - lo + 1
  {
    if s != [] {
      var last := s[|s| - 1];
      IncreasingFits(s[..|s| - 1], lo, last - 1);
    }
  }

  /** At most span/30 + 4 codes of one authenticator are accepted from requests made
      within `span` seconds, whatever the interleaving. */
  lemma AcceptancesAreBounded(ops: seq<Op>, factor: int, t: int, span: int)
    requires 0 <= t && 0 <= span
    ensures |AcceptedIn(Run(ops).log, factor, t, span)| <= span / PERIOD + 4
  {
    RunInv(ops);
    var log := Run(ops).log;
    AcceptedIncrease(log, factor, t, span);
    var s := AcceptedIn(log, factor, t, span);
    forall i | 0 <= i < |s|
      ensures t / PERIOD - 1 <= s[i] <= (t + span) / PERIOD + 1
    {
      assert Source(log, factor, t, span, s[i]);
      var k :| 0 <= k < |log| && log[k].factor == factor && log[k].counter == s[i] && t <= log[k].at <= t + span;
      assert Near(log[k]);
    }
    IncreasingFits(s, t / PERIOD - 1, (t + span) / PERIOD + 1);
  }

  /** How many of the accepted codes were accepted within t..t+span, when `times` says at
      which moment each one was. */
  function AcceptedWithin(log: seq<Attempt>, times: seq<int>, factor: int, t: int, span: int): nat
    requires |times| == |log|
  {
    if log == [] then 0
    else
      var n := |log| - 1;
      AcceptedWithin(log[..n], times[..n], factor, t, span)
      + if log[n].factor == factor && t <= times[n] <= t + span then 1 else 0
  }

  lemma {:induction false} AcceptedWithinFits(log: seq<Attempt>, times: seq<int>, factor: int, t: int, span: int,
                                              lag: int)
    requires |times| == |log| && forall i :: 0 <= i < |log| ==> log[i].at <= times[i] <= log[i].at + lag
    ensures AcceptedWithin(log, times, factor, t, span) <= |AcceptedIn(log, factor, t - lag, span + lag)|
  {
    if log != [] {
      var n := |log| - 1;
      AcceptedWithinFits(log[..n], times[..n], factor, t, span, lag);
    }
  }

  /** By the moment of acceptance: when no burn comes more than `lag` seconds after its
      request read the clock, at most (span + lag)/30 + 4 codes of one authenticator are
      accepted within `span` seconds. */
  lemma AcceptancesInTimeAreBounded(ops: seq<Op>, times: seq<int>, factor: int, t: int, span: int, lag: int)
    requires 0 <= lag <= t && 0 <= span && |times| == |Run(ops).log|
    requires forall i :: 0 <= i < |times| ==> Run(ops).log[i].at <= times[i] <= Run(ops).log[i].at + lag
    ensures AcceptedWithin(Run(ops).log, times, factor, t, span) <= (span + lag) / PERIOD + 4
  {
    AcceptedWithinFits(Run(ops).log, times, factor, t, span, lag);
    AcceptancesAreBounded(ops, factor, t - lag, span + lag);
  }
}
