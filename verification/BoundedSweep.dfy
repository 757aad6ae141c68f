/** The bounded expiry sweep shared by the three in-memory stores of internal/auth:
    the login limiter, the spent-challenge store and the ceremony store. Each one
    walks its map in whatever order the runtime picks, drops the entries that have
    expired and stops after 128 entries.

    Times are integers (a clock reading); "now is after e" is e < now. */
module BoundedSweep {
  import opened Options

  const MAX_SCAN: nat := 128

  function ScanLimit(size: nat): nat {
    if size <= MAX_SCAN then size else MAX_SCAN
  }

  /** The entry a reader at time `now` still honours for `k`. */
  function At<V>(m: map<string, V>, expires: V -> int, k: string, now: int): Option<V> {
    if k in m && now <= expires(m[k]) then Some(m[k]) else None
  }

  /** Two tables no reader can tell apart from time `now` on. */
  ghost predicate SameFrom<V>(a: map<string, V>, b: map<string, V>, expires: V -> int, now: int) {
    forall k :: At(a, expires, k, now) == At(b, expires, k, now)
  }

  /** What is left after looking at the keys in `scanned`. */
  function Swept<V>(m: map<string, V>, expires: V -> int, now: int, scanned: set<string>): map<string, V> {
    map k | k in m && !(k in scanned && expires(m[k]) < now) :: m[k]
  }

  method Sweep<V>(m: map<string, V>, expires: V -> int, now: int)
    returns (kept: map<string, V>, ghost scanned: set<string>)
    ensures scanned <= m.Keys && |scanned| == ScanLimit(|m|)
    ensures kept == Swept(m, expires, now, scanned)
  {
    kept, scanned := m, {};
    var todo := m.Keys;
    var looked := 0;
    while todo != {} && looked < MAX_SCAN
      invariant todo <= m.Keys && scanned == m.Keys - todo
      invariant looked == |scanned| <= MAX_SCAN
      invariant kept == Swept(m, expires, now, scanned)
      decreases |todo|
    {
      var k :| k in todo; // the iteration order is not specified
      if expires(m[k]) < now {
        kept := map j | j in kept && j != k :: kept[j];
      }
      todo := todo - {k};
      scanned := scanned + {k};
      looked := looked + 1;
    }
    assert |m.Keys| == |scanned| + |todo| by {
      assert m.Keys == scanned + todo && scanned !! todo;
    }
  }

  /** Sweeping never changes what a reader honours, now or later. */
  lemma SweepIsInvisible<V>(m: map<string, V>, expires: V -> int, now: int, scanned: set<string>)
    ensures SameFrom(Swept(m, expires, now, scanned), m, expires, now)
  {
  }

  lemma SameLater<V>(a: map<string, V>, b: map<string, V>, expires: V -> int, now: int, later: int)
    requires SameFrom(a, b, expires, now) && now <= later
    ensures SameFrom(a, b, expires, later)
  {
    forall k ensures At(a, expires, k, later) == At(b, expires, k, later) {
      assert At(a, expires, k, now) == At(b, expires, k, now);
    }
  }
}
