/** internal/auth/webauthn.go: the bounded store of half-finished WebAuthn ceremonies. */
module Ceremonies {
  import opened BoundedSweep
  import opened Options

  const TTL: int := 120 // seconds

  /** `serial` stands for the library's session data: each begin makes its own. */
  datatype Ceremony = Ceremony(serial: int, expires: int, stepUp: bool)

  type Open = map<string, Ceremony>

  const ExpiresOf: Ceremony -> int := (c: Ceremony) => c.expires

  class CeremonyStore {
    var open: Open
    const limit: nat

    ghost predicate Valid()
      reads this
    {
      |open| <= limit
    }

    constructor (limit: nat)
      ensures Valid() && open == map[] && this.limit == limit
    {
      open := map[];
      this.limit := limit;
    }

    /** `now` and `later` are the two clock readings of one put. */
    method Put(key: string, serial: int, stepUp: bool, now: int, later: int)
      returns (ok: bool, ghost scanned: set<string>)
      requires Valid()
      modifies this`open
      ensures Valid()
      ensures scanned <= old(open).Keys && |scanned| == ScanLimit(|old(open)|)
      ensures (ok, open) == AfterPut(old(open), limit, key, Ceremony(serial, later + TTL, stepUp), now, scanned)
    {
      open, scanned := Sweep(open, ExpiresOf, now);
      SweptSize(old(open), now, scanned);
      if key !in open && |open| >= limit {
        return false, scanned;
      }
      assert open[key := Ceremony(serial, later + TTL, stepUp)].Keys == open.Keys + {key};
      open := open[key := Ceremony(serial, later + TTL, stepUp)];
      ok := true;
    }

    method Take(key: string, now: int) returns (found: Option<Ceremony>)
      requires Valid()
      modifies this`open
      ensures Valid()
      ensures found == At(old(open), ExpiresOf, key, now) && open == old(open) - {key}
    {
      assert (open - {key}).Keys <= open.Keys;
      SubsetSize((open - {key}).Keys, open.Keys);
      found := if key in open && !(open[key].expires < now) then Some(open[key]) else None;
      open := open - {key};
    }
  }

  function AfterPut(m: Open, limit: nat, key: string, c: Ceremony, now: int, scanned: set<string>): (bool, Open) {
    var swept := Swept(m, ExpiresOf, now, scanned);
    if key !in swept && |swept| >= limit then (false, swept) else (true, swept[key := c])
  }

  lemma SubsetSize<T>(a: set<T>, b: set<T>)
    requires a <= b
    ensures |a| <= |b|
    ensures |a| == |b| ==> a == b
  {
    assert b == a + (b - a);
  }

  lemma SweptSize(m: Open, now: int, scanned: set<string>)
    ensures |Swept(m, ExpiresOf, now, scanned)| <= |m|
    ensures |Swept(m, ExpiresOf, now, scanned)| == |m| ==> Swept(m, ExpiresOf, now, scanned) == m
  {
    var s := Swept(m, ExpiresOf, now, scanned);
    assert s.Keys <= m.Keys;
    SubsetSize(s.Keys, m.Keys);
  }

  /** A begin is turned away only under real load: the store then holds at least
      min(128, limit) ceremonies that are still answerable. */
  lemma RefusedPutMeansFull(m: Open, limit: nat, key: string, c: Ceremony, now: int, scanned: set<string>)
    requires |m| <= limit && scanned <= m.Keys && |scanned| == ScanLimit(|m|)
    requires !AfterPut(m, limit, key, c, now, scanned).0
    ensures forall k :: k in scanned ==> At(m, ExpiresOf, k, now).Some?
    ensures |scanned| == ScanLimit(limit)
    ensures |set k | k in m && At(m, ExpiresOf, k, now).Some?| >= ScanLimit(limit)
  {
    SweptSize(m, now, scanned);
    var live := set k | k in m && At(m, ExpiresOf, k, now).Some?;
    assert Swept(m, ExpiresOf, now, scanned) == m;
    assert forall k :: k in scanned ==> k in Swept(m, ExpiresOf, now, scanned);
    SubsetSize(scanned, live);
  }

  /** A put is refused exactly when the store is full of other ceremonies after the sweep, a
      key that is still held being replaced whatever the load; it changes nothing but the
      key's own ceremony and what the sweep dropped. */
  lemma PutIsRefusedIff(m: Open, limit: nat, key: string, c: Ceremony, now: int, scanned: set<string>)
    ensures var (ok, m') := AfterPut(m, limit, key, c, now, scanned);
            var held := set k | k in m && (k in scanned ==> now <= m[k].expires);
            && (!ok <==> key !in held && |held| >= limit)
            && (ok ==> key in m' && m'[key] == c)
            && (forall k :: k != key || !ok ==> (k in m' <==> k in held) && (k in held ==> k in m' && m'[k] == m[k]))
  {
    var swept := Swept(m, ExpiresOf, now, scanned);
    assert swept.Keys == set k | k in m && (k in scanned ==> now <= m[k].expires);
    assert |swept| == |swept.Keys|;
  }

  // ----- whole runs -----

  datatype Op =
    | Put(key: string, c: Ceremony, now: int)
    | Take(key: string, now: int)

  /** What the callers saw. */
  datatype Event =
    | Opened(key: string, c: Ceremony)
    | Refused(key: string)
    | Took(key: string, found: Option<Ceremony>)

  function Step(m: Open, limit: nat, op: Op, scanned: set<string>): (Open, Event) {
    match op
    case Put(key, c, now) =>
      var (ok, m') := AfterPut(m, limit, key, c, now, scanned);
      (m', if ok then Opened(key, c) else Refused(key))
    case Take(key, now) => (m - {key}, Took(key, At(m, ExpiresOf, key, now)))
  }

  function Run(limit: nat, ops: seq<Op>, scans: seq<set<string>>): (r: (Open, seq<Event>))
    requires |ops| == |scans|
    ensures |r.1| == |ops|
  {
    if ops == [] then (map[], [])
    else
      var n := |ops| - 1;
      var (m, log) := Run(limit, ops[..n], scans[..n]);
      var (m', e) := Step(m, limit, ops[n], scans[n]);
      (m', log + [e])
  }

  ghost predicate Monotone(ops: seq<Op>) {
    forall i, j :: 0 <= i < j < |ops| ==> ops[i].now <= ops[j].now
  }

  /** Read off the log alone: the data of the last accepted begin for `key`, unless a
      finish has come for it since. */
  function Latest(log: seq<Event>, key: string): Option<Ceremony> {
    if log == [] then None
    else
      var e := log[|log| - 1];
      if e.Opened? && e.key == key then Some(e.c)
      else if e.Took? && e.key == key then None
      else Latest(log[..|log| - 1], key)
  }

  function Unexpired(c: Option<Ceremony>, now: int): Option<Ceremony> {
    if c.Some? && now <= c.value.expires then c else None
  }

  ghost predicate Agrees(m: Open, log: seq<Event>, now: int) {
    forall key :: At(m, ExpiresOf, key, now) == Unexpired(Latest(log, key), now)
  }

  lemma StepAgrees(m: Open, log: seq<Event>, limit: nat, op: Op, scanned: set<string>)
    requires Agrees(m, log, op.now)
    ensures var (m', e) := Step(m, limit, op, scanned);
            Agrees(m', log + [e], op.now)
  {
    var (m', e) := Step(m, limit, op, scanned);
    assert (log + [e])[..|log|] == log;
    forall key ensures At(m', ExpiresOf, key, op.now) == Unexpired(Latest(log + [e], key), op.now) {
      assert At(m, ExpiresOf, key, op.now) == Unexpired(Latest(log, key), op.now);
    }
  }

  lemma AgreesLater(m: Open, log: seq<Event>, now: int, later: int)
    requires Agrees(m, log, now) && now <= later
    ensures Agrees(m, log, later)
  {
    forall key ensures At(m, ExpiresOf, key, later) == Unexpired(Latest(log, key), later) {
      assert At(m, ExpiresOf, key, now) == Unexpired(Latest(log, key), now);
    }
  }

  /** At every moment of every run a finish finds the latest accepted begin of its key,
      if that is neither finished nor outlived, and nothing else: the sweeps cannot
      be noticed. */
  lemma {:induction false} TakeFindsLatestPut(limit: nat, ops: seq<Op>, scans: seq<set<string>>, now: int)
    requires |ops| == |scans| && Monotone(ops)
    requires forall i :: 0 <= i < |ops| ==> ops[i].now <= now
    ensures var (m, log) := Run(limit, ops, scans); Agrees(m, log, now)
  {
    if ops != [] {
      var n := |ops| - 1;
      TakeFindsLatestPut(limit, ops[..n], scans[..n], ops[n].now);
      var (m, log) := Run(limit, ops[..n], scans[..n]);
      StepAgrees(m, log, limit, ops[n], scans[n]);
      var (m', e) := Step(m, limit, ops[n], scans[n]);
      AgreesLater(m', log + [e], ops[n].now, now);
    }
  }

  function Puts(log: seq<Event>, key: string, serial: int): nat {
    if log == [] then 0
    else
      var e := log[|log| - 1];
      Puts(log[..|log| - 1], key, serial) + (if e.Opened? && e.key == key && e.c.serial == serial then 1 else 0)
  }

  function Takes(log: seq<Event>, key: string, serial: int): nat {
    if log == [] then 0
    else
      var e := log[|log| - 1];
      Takes(log[..|log| - 1], key, serial)
      + (if e.Took? && e.key == key && e.found.Some? && e.found.value.serial == serial then 1 else 0)
  }

  ghost predicate Balanced(log: seq<Event>, key: string, serial: int) {
    var waiting := if Latest(log, key).Some? && Latest(log, key).value.serial == serial then 1 else 0;
    Takes(log, key, serial) + waiting <= Puts(log, key, serial)
  }

  lemma EventBalanced(log: seq<Event>, e: Event, key: string, serial: int)
    requires Balanced(log, key, serial)
    requires e.Took? && e.key == key && e.found.Some? ==> Latest(log, key) == e.found
    ensures Balanced(log + [e], key, serial)
  {
    assert (log + [e])[..|log|] == log;
  }

  /** One begin, one finish: in any run a ceremony is handed back at most as often as
      it was accepted, and one still waiting has not been handed back yet. */
  lemma {:induction false} OneBeginOneFinish(limit: nat, ops: seq<Op>, scans: seq<set<string>>, key: string,
                                             serial: int)
    requires |ops| == |scans| && Monotone(ops)
    ensures Balanced(Run(limit, ops, scans).1, key, serial)
  {
    hide Balanced, AfterPut, Agrees;
    if ops == [] {
      NothingBalanced(key, serial);
    } else {
      var n := |ops| - 1;
      OneBeginOneFinish(limit, ops[..n], scans[..n], key, serial);
      TakeFindsLatestPut(limit, ops[..n], scans[..n], ops[n].now);
      var (m, log) := Run(limit, ops[..n], scans[..n]);
      FindsLatest(m, log, key, ops[n].now);
      EventBalanced(log, Step(m, limit, ops[n], scans[n]).1, key, serial);
    }
  }

  lemma NothingBalanced(key: string, serial: int)
    ensures Balanced([], key, serial)
  {
  }

  lemma FindsLatest(m: Open, log: seq<Event>, key: string, now: int)
    requires Agrees(m, log, now)
    ensures At(m, ExpiresOf, key, now).Some? ==> Latest(log, key) == At(m, ExpiresOf, key, now)
  {
    assert At(m, ExpiresOf, key, now) == Unexpired(Latest(log, key), now);
  }

  lemma PutSize(m: Open, limit: nat, key: string, c: Ceremony, now: int, scanned: set<string>)
    requires |m| <= limit
    ensures |AfterPut(m, limit, key, c, now, scanned).1| <= limit
  {
    SweptSize(m, now, scanned);
    var swept := Swept(m, ExpiresOf, now, scanned);
    var more := swept[key := c];
    assert more.Keys == swept.Keys + {key};
    assert |more| == |more.Keys| && |swept| == |swept.Keys|;
  }

  lemma TakeSize(m: Open, key: string)
    ensures |m - {key}| <= |m|
  {
    var less := m - {key};
    SubsetSize(less.Keys, m.Keys);
    assert |less| == |less.Keys| && |m| == |m.Keys|;
  }

  /** No run ever holds more than the limit, so a flood cannot grow the store. */
  lemma {:induction false} SizeBounded(limit: nat, ops: seq<Op>, scans: seq<set<string>>)
    requires |ops| == |scans|
    ensures |Run(limit, ops, scans).0| <= limit
  {
    if ops != [] {
      var n := |ops| - 1;
      SizeBounded(limit, ops[..n], scans[..n]);
      var m, op := Run(limit, ops[..n], scans[..n]).0, ops[n];
      if op.Put? {
        PutSize(m, limit, op.key, op.c, op.now, scans[n]);
      } else {
        TakeSize(m, op.key);
      }
    }
  }
}
