/** internal/auth/ratelimit.go: the fixed-window failure limiter. */
module RateLimiter {
  import opened BoundedSweep
  import opened Options

  datatype Window = Window(count: int, reset: int)

  type Windows = map<string, Window>

  const ResetOf: Window -> int := (w: Window) => w.reset

  ghost predicate Allowed(m: Windows, key: string, now: int, max: int) {
    key !in m || m[key].reset < now || m[key].count < max
  }

  /** The table after a failure is recorded, before any thought of sweeping. */
  function Failed(m: Windows, key: string, now: int, dur: int): Windows {
    if key !in m || m[key].reset < now
    then m[key := Window(1, now + dur)]
    else m[key := m[key].(count := m[key].count + 1)]
  }

  class LoginLimiter {
    var attempts: Windows
    const max: int
    const dur: int

    constructor (max: int, dur: int)
      ensures attempts == map[] && this.max == max && this.dur == dur
    {
      attempts := map[];
      this.max, this.dur := max, dur;
    }

    method Allow(key: string, now: int) returns (ok: bool)
      ensures ok == Allowed(attempts, key, now, max)
    {
      if key !in attempts || attempts[key].reset < now {
        return true;
      }
      return attempts[key].count < max;
    }

    method Fail(key: string, now: int) returns (ghost scanned: set<string>)
      modifies this`attempts
      ensures scanned <= old(attempts).Keys && |scanned| == ScanLimit(|old(attempts)|)
      ensures attempts == Failed(Swept(old(attempts), ResetOf, now, scanned), key, now, dur)
    {
      attempts, scanned := Sweep(attempts, ResetOf, now);
      if key !in attempts || attempts[key].reset < now {
        attempts := attempts[key := Window(1, now + dur)];
        return;
      }
      attempts := attempts[key := attempts[key].(count := attempts[key].count + 1)];
    }

    method Reset(key: string)
      modifies this`attempts
      ensures attempts == old(attempts) - {key}
    {
      attempts := attempts - {key};
    }
  }

  // ----- whole runs -----

  datatype Op =
    | Allow(key: string, now: int)
    | Fail(key: string, now: int)
    | Reset(key: string, now: int)

  /** One operation; `scanned` is what the sweep inside Fail happened to look at. */
  function Step(m: Windows, op: Op, scanned: set<string>, dur: int): Windows {
    match op
    case Allow(_, _) => m
    case Fail(key, now) => Failed(Swept(m, ResetOf, now, scanned), key, now, dur)
    case Reset(key, _) => m - {key}
  }

  function Steps(m: Windows, ops: seq<Op>, scans: seq<set<string>>, dur: int): Windows
    requires |ops| == |scans|
  {
    if ops == [] then m
    else Step(Steps(m, ops[..|ops| - 1], scans[..|ops| - 1], dur), ops[|ops| - 1], scans[|ops| - 1], dur)
  }

  ghost predicate Monotone(ops: seq<Op>) {
    forall i, j :: 0 <= i < j < |ops| ==> ops[i].now <= ops[j].now
  }

  function NoScans(n: nat): (s: seq<set<string>>)
    ensures |s| == n
  {
    seq(n, _ => {})
  }

  lemma StepKeepsSame(a: Windows, b: Windows, op: Op, scanned: set<string>, dur: int)
    requires 0 <= dur && SameFrom(a, b, ResetOf, op.now)
    ensures SameFrom(Step(a, op, scanned, dur), Step(b, op, {}, dur), ResetOf, op.now)
  {
    var a', b' := Step(a, op, scanned, dur), Step(b, op, {}, dur);
    forall k ensures At(a', ResetOf, k, op.now) == At(b', ResetOf, k, op.now) {
      assert At(a, ResetOf, k, op.now) == At(b, ResetOf, k, op.now);
    }
  }

  lemma {:induction false} StepsKeepSame(m: Windows, ops: seq<Op>, scans: seq<set<string>>, dur: int, t: int)
    requires |ops| == |scans| && Monotone(ops) && 0 <= dur
    requires forall i :: 0 <= i < |ops| ==> ops[i].now <= t
    ensures SameFrom(Steps(m, ops, scans, dur), Steps(m, ops, NoScans(|ops|), dur), ResetOf, t)
  {
    if ops != [] {
      var n := |ops| - 1;
      StepsKeepSame(m, ops[..n], scans[..n], dur, ops[n].now);
      assert NoScans(n + 1)[..n] == NoScans(n);
      var a, b := Steps(m, ops[..n], scans[..n], dur), Steps(m, ops[..n], NoScans(n), dur);
      StepKeepsSame(a, b, ops[n], scans[n], dur);
      SameLater(Step(a, ops[n], scans[n], dur), Step(b, ops[n], {}, dur), ResetOf, ops[n].now, t);
    }
  }

  /** Whatever the bounded sweeps looked at, every Allow in a run is answered as it
      would be by a limiter that never sweeps. */
  lemma SweepsAreInvisible(m: Windows, ops: seq<Op>, scans: seq<set<string>>, dur: int, max: int, key: string, now: int)
    requires |ops| == |scans| && Monotone(ops) && 0 <= dur
    requires forall i :: 0 <= i < |ops| ==> ops[i].now <= now
    ensures Allowed(Steps(m, ops, scans, dur), key, now, max)
       <==> Allowed(Steps(m, ops, NoScans(|ops|), dur), key, now, max)
  {
    StepsKeepSame(m, ops, scans, dur, now);
    assert At(Steps(m, ops, scans, dur), ResetOf, key, now)
           == At(Steps(m, ops, NoScans(|ops|), dur), ResetOf, key, now);
  }

  // ----- how many failures get through -----

  /** Every recorded failure of `key` was preceded by an Allow that said yes. */
  ghost predicate Guarded(m: Windows, ops: seq<Op>, scans: seq<set<string>>, dur: int, max: int, key: string)
    requires |ops| == |scans|
    decreases |ops|
  {
    ops != [] ==>
      && (ops[0].Fail? && ops[0].key == key ==> Allowed(m, key, ops[0].now, max))
      && Guarded(Step(m, ops[0], scans[0], dur), ops[1..], scans[1..], dur, max, key)
  }

  function Fails(ops: seq<Op>, key: string): nat {
    if ops == [] then 0
    else (if ops[0].Fail? && ops[0].key == key then 1 else 0) + Fails(ops[1..], key)
  }

  function Resets(ops: seq<Op>, key: string): nat {
    if ops == [] then 0
    else (if ops[0].Reset? && ops[0].key == key then 1 else 0) + Resets(ops[1..], key)
  }

  /** One window admits `max` failures, but never fewer than one: an empty window
      lets the first attempt through whatever the limit is. */
  function Cap(max: int): int {
    if max < 1 then 1 else max
  }

  ghost predicate Counted(m: Windows) {
    forall k :: k in m ==> m[k].count >= 1
  }

  /** How many more failures the table still has room for up to time `end`. */
  ghost function Room(m: Windows, key: string, now: int, end: int, max: int): int {
    if key !in m || m[key].reset < now then Cap(max) else (
      var unused := if m[key].count < Cap(max) then Cap(max) - m[key].count else 0;
      if m[key].reset < end then unused + Cap(max) else unused
    )
  }

  lemma {:induction false} GuardedFailsFitRoom(m: Windows, ops: seq<Op>, scans: seq<set<string>>, dur: int, max: int,
                                                key: string, begin: int, now: int)
    requires |ops| == |scans| && Monotone(ops) && 0 <= dur && Counted(m)
    requires begin <= now && forall i :: 0 <= i < |ops| ==> now <= ops[i].now <= begin + dur
    requires Guarded(m, ops, scans, dur, max, key)
    ensures Fails(ops, key) <= Room(m, key, now, begin + dur, max) + Resets(ops, key) * Cap(max)
    decreases |ops|
  {
    if ops != [] {
      var op, end := ops[0], begin + dur;
      var next := Step(m, op, scans[0], dur);
      GuardedFailsFitRoom(next, ops[1..], scans[1..], dur, max, key, begin, op.now);
      var resets := Resets(ops[1..], key);
      assert (resets + 1) * Cap(max) == resets * Cap(max) + Cap(max);
    }
  }

  /** In any stretch of a run no longer than one window, the failures that got
      through number less than two windows' worth, plus one window's worth for every
      reset in that stretch. */
  lemma GuardedFailuresAreBounded(m: Windows, ops: seq<Op>, scans: seq<set<string>>, dur: int, max: int, key: string,
                                  begin: int)
    requires |ops| == |scans| && Monotone(ops) && 0 <= dur && Counted(m)
    requires forall i :: 0 <= i < |ops| ==> begin <= ops[i].now <= begin + dur
    requires Guarded(m, ops, scans, dur, max, key)
    ensures Fails(ops, key) < (2 + Resets(ops, key)) * Cap(max)
  {
    GuardedFailsFitRoom(m, ops, scans, dur, max, key, begin, begin);
    assert (2 + Resets(ops, key)) * Cap(max) == 2 * Cap(max) + Resets(ops, key) * Cap(max);
  }

  /** n failures at one moment. */
  function Burst(n: nat, t: int): (ops: seq<Op>)
    ensures |ops| == n && forall i :: 0 <= i < n ==> ops[i] == Fail("ip", t)
  {
    if n == 0 then [] else [Fail("ip", t)] + Burst(n - 1, t)
  }

  lemma {:induction false} BurstFails(n: nat, t: int, rest: seq<Op>)
    ensures Fails(Burst(n, t) + rest, "ip") == n + Fails(rest, "ip")
            && Resets(Burst(n, t) + rest, "ip") == Resets(rest, "ip")
  {
    var ops := Burst(n, t) + rest;
    if n == 0 {
      assert ops == rest;
    } else {
      assert ops[1..] == Burst(n - 1, t) + rest;
      BurstFails(n - 1, t, rest);
    }
  }

  /** Failures that fit into a live window are all guarded, and fill it. */
  lemma {:induction false} BurstFits(count: int, reset: int, n: nat, t: int, rest: seq<Op>, dur: int, max: int)
    requires t <= reset && count + n <= max
    requires Guarded(map["ip" := Window(count + n, reset)], rest, NoScans(|rest|), dur, max, "ip")
    ensures Guarded(map["ip" := Window(count, reset)], Burst(n, t) + rest, NoScans(n + |rest|), dur, max, "ip")
    decreases n
  {
    var ops := Burst(n, t) + rest;
    if n == 0 {
      assert ops == rest;
    } else {
      var m: Windows := map["ip" := Window(count, reset)];
      assert ops[1..] == Burst(n - 1, t) + rest && NoScans(n + |rest|)[1..] == NoScans(n - 1 + |rest|);
      BurstFits(count + 1, reset, n - 1, t, rest, dur, max);
      FailCounts(m, t, dur);
    }
  }

  lemma FailCounts(m: Windows, t: int, dur: int)
    requires "ip" in m && m == map["ip" := m["ip"]]
    ensures t <= m["ip"].reset ==>
            Step(m, Fail("ip", t), {}, dur) == map["ip" := Window(m["ip"].count + 1, m["ip"].reset)]
    ensures m["ip"].reset < t ==> Step(m, Fail("ip", t), {}, dur) == map["ip" := Window(1, t + dur)]
  {
    assert Swept(m, ResetOf, t, {}) == m;
  }

  /** A window filled at its very end, then a full one. */
  function WorstRun(max: int, dur: int): seq<Op> {
    Burst(Cap(max) - 1, dur) + Burst(Cap(max), dur + 1)
  }

  /** The bound is reached, whatever the limit and the window: a failure at time 0 opens a
      window, the rest of it is used up as it ends, and the next one right after. */
  lemma BoundIsTight(max: int, dur: int)
    requires dur >= 1
    ensures var m: Windows := map["ip" := Window(1, dur)];
            var ops := WorstRun(max, dur);
            && Monotone(ops) && Counted(m) && (forall i :: 0 <= i < |ops| ==> dur <= ops[i].now <= dur + dur)
            && Guarded(m, ops, NoScans(|ops|), dur, max, "ip")
            && Resets(ops, "ip") == 0 && Fails(ops, "ip") == 2 * Cap(max) - 1
  {
    hide Guarded, Fails, Resets, Burst;
    var cap := Cap(max);
    WorstRunFails(max, dur);
    NextWindowFits(max, dur);
    if max >= 1 {
      BurstFits(1, dur, cap - 1, dur, Burst(cap, dur + 1), dur, max);
    } else {
      assert WorstRun(max, dur) == Burst(cap, dur + 1) by { NoBurst(dur); }
    }
  }

  lemma NoBurst(t: int)
    ensures Burst(0, t) == []
  {
  }

  lemma WorstRunFails(max: int, dur: int)
    ensures Resets(WorstRun(max, dur), "ip") == 0 && Fails(WorstRun(max, dur), "ip") == 2 * Cap(max) - 1
  {
    var last := Burst(Cap(max), dur + 1);
    assert last + [] == last;
    BurstFails(Cap(max), dur + 1, []);
    BurstFails(Cap(max) - 1, dur, last);
  }

  /** After a window has run out, another one can be filled. */
  lemma NextWindowFits(max: int, dur: int)
    requires dur >= 1
    ensures Guarded(map["ip" := Window(Cap(max), dur)], Burst(Cap(max), dur + 1), NoScans(Cap(max)), dur, max, "ip")
  {
    var cap := Cap(max);
    var full: Windows := map["ip" := Window(cap, dur)];
    var next := Burst(cap - 1, dur + 1);
    assert Burst(cap, dur + 1)[1..] == next && NoScans(cap)[1..] == NoScans(cap - 1) && next + [] == next;
    FailCounts(full, dur + 1, dur);
    if max >= 1 {
      BurstFits(1, dur + 1 + dur, cap - 1, dur + 1, [], dur, max);
    }
  }

  // ----- callers between Allow and Fail -----

  /** Callers of one key: Enter is an Allow that said yes, and the caller then
      either fails or leaves. Other is any operation of another caller or key. */
  datatype CallerOp = Enter(at: int) | FailIn(at: int) | Leave(at: int) | ResetIn(at: int) | Other(op: Op) {
    function Now(): int {
      if Other? then op.now else at
    }
  }

  function CallerStep(m: Windows, c: CallerOp, scanned: set<string>, key: string, dur: int): Windows {
    match c
    case Enter(_) => m
    case FailIn(now) => Step(m, Fail(key, now), scanned, dur)
    case Leave(_) => m
    case ResetIn(now) => Step(m, Reset(key, now), scanned, dur)
    case Other(op) => Step(m, op, scanned, dur)
  }

  function Inside(c: CallerOp, inside: int): int {
    match c
    case Enter(_) => inside + 1
    case FailIn(_) => inside - 1
    case Leave(_) => inside - 1
    case _ => inside
  }

  /** A run in which every Enter was allowed and at most `k` callers are ever inside. */
  ghost predicate AtMost(m: Windows, inside: int, cs: seq<CallerOp>, scans: seq<set<string>>, key: string, dur: int,
                         max: int, k: int)
    requires |cs| == |scans|
    decreases |cs|
  {
    cs != [] ==>
      && 0 <= Inside(cs[0], inside) <= k
      && (cs[0].Enter? ==> Allowed(m, key, cs[0].at, max))
      && (cs[0].Other? && cs[0].op.Fail? ==> cs[0].op.key != key)
      && AtMost(CallerStep(m, cs[0], scans[0], key, dur), Inside(cs[0], inside), cs[1..], scans[1..], key, dur, max, k)
  }

  function CallerSteps(m: Windows, cs: seq<CallerOp>, scans: seq<set<string>>, key: string, dur: int): Windows
    requires |cs| == |scans|
    decreases |cs|
  {
    if cs == [] then m
    else CallerSteps(CallerStep(m, cs[0], scans[0], key, dur), cs[1..], scans[1..], key, dur)
  }

  function CountOf(m: Windows, key: string): int {
    if key in m then m[key].count else 0
  }

  function LiveCount(m: Windows, key: string, now: int): int {
    if key in m && now <= m[key].reset then m[key].count else 0
  }

  /** With at most k callers between Allow and Fail, a window never counts past
      max + k - 1, however their steps interleave. */
  lemma {:induction false} ConcurrentFailuresAreBounded(m: Windows, inside: int, cs: seq<CallerOp>,
                                                        scans: seq<set<string>>, key: string, dur: int, max: int,
                                                        k: int, now: int)
    requires |cs| == |scans| && 1 <= max && 1 <= k && 0 <= inside <= k
    requires forall i :: 0 <= i < |cs| ==> now <= cs[i].Now()
    requires forall i, j :: 0 <= i < j < |cs| ==> cs[i].Now() <= cs[j].Now()
    requires AtMost(m, inside, cs, scans, key, dur, max, k)
    requires CountOf(m, key) <= max + k - 1 && LiveCount(m, key, now) + inside <= max + k - 1
    ensures CountOf(CallerSteps(m, cs, scans, key, dur), key) <= max + k - 1
    decreases |cs|
  {
    if cs != [] {
      ConcurrentFailuresAreBounded(CallerStep(m, cs[0], scans[0], key, dur), Inside(cs[0], inside),
                                   cs[1..], scans[1..], key, dur, max, k, cs[0].Now());
    }
  }

  // ----- what a caller sees of one window -----

  lemma {:induction false} FailsMore(ops: seq<Op>, op: Op, key: string)
    ensures Fails(ops + [op], key) == Fails(ops, key) + if op.Fail? && op.key == key then 1 else 0
  {
    if ops == [] {
      assert ops + [op] == [op] && [op][1..] == [];
    } else {
      assert (ops + [op])[1..] == ops[1..] + [op];
      FailsMore(ops[1..], op, key);
    }
  }

  /** The first failure opens the key's window, and while it lasts it counts every failure. */
  lemma {:induction false} WindowCounts(m: Windows, ops: seq<Op>, scans: seq<set<string>>, dur: int, key: string)
    requires |ops| == |scans| && Monotone(ops) && ops != [] && ops[0].Fail? && ops[0].key == key
    requires key in m ==> m[key].reset < ops[0].now
    requires forall i :: 0 <= i < |ops| ==> ops[i].now <= ops[0].now + dur
    requires forall i :: 0 <= i < |ops| ==> !(ops[i].Reset? && ops[i].key == key)
    ensures var t := Steps(m, ops, scans, dur); key in t && t[key] == Window(Fails(ops, key), ops[0].now + dur)
  {
    hide Step, Fails;
    var n := |ops| - 1;
    assert ops == ops[..n] + [ops[n]];
    FailsMore(ops[..n], ops[n], key);
    if n == 0 {
      assert ops[..0] == [] && scans[..0] == [];
      FailsOfNone(key);
      FirstFailOpens(m, ops[0], scans[0], dur, key);
    } else {
      WindowCounts(m, ops[..n], scans[..n], dur, key);
      WindowStep(Steps(m, ops[..n], scans[..n], dur), ops[n], scans[n], dur, key);
    }
  }

  lemma FailsOfNone(key: string)
    ensures Fails([], key) == 0
  {
  }

  lemma FirstFailOpens(m: Windows, op: Op, scanned: set<string>, dur: int, key: string)
    requires op.Fail? && op.key == key && (key in m ==> m[key].reset < op.now)
    ensures var t := Step(m, op, scanned, dur); key in t && t[key] == Window(1, op.now + dur)
  {
  }

  lemma WindowStep(m: Windows, op: Op, scanned: set<string>, dur: int, key: string)
    requires key in m && op.now <= m[key].reset && !(op.Reset? && op.key == key)
    ensures var t := Step(m, op, scanned, dur);
            key in t && t[key] == m[key].(count := m[key].count + if op.Fail? && op.key == key then 1 else 0)
  {
  }

  /** Once a failure has opened a window, the key is turned away exactly while the window
      lasts and as many failures as the budget were recorded in it, whatever was swept. */
  lemma LockedIffBudgetSpent(m: Windows, ops: seq<Op>, scans: seq<set<string>>, dur: int, max: int, key: string,
                             now: int)
    requires |ops| == |scans| && Monotone(ops) && ops != [] && ops[0].Fail? && ops[0].key == key
    requires key in m ==> m[key].reset < ops[0].now
    requires forall i :: 0 <= i < |ops| ==> ops[i].now <= ops[0].now + dur
    requires forall i :: 0 <= i < |ops| ==> !(ops[i].Reset? && ops[i].key == key)
    ensures !Allowed(Steps(m, ops, scans, dur), key, now, max) <==> now <= ops[0].now + dur && Fails(ops, key) >= max
  {
    WindowCounts(m, ops, scans, dur, key);
  }
}
