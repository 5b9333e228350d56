/** Operation statistics (`ncda/src/model.rs`) as a commutative monoid, and the
    combination of a whole table of them in no particular order. */
module Stats {
  import opened Saturating

  datatype OpKind = Open | Read | Write | Close

  datatype NodeStats = NodeStats(
    readBytes: u64, writeBytes: u64,
    readOps: u64, writeOps: u64, openOps: u64, closeOps: u64,
    totalLatency: u64, maxLatency: u64)

  const ZERO := NodeStats(0, 0, 0, 0, 0, 0, 0, 0)

  function Accumulate(a: NodeStats, b: NodeStats): NodeStats {
    NodeStats(
      SatAdd(a.readBytes, b.readBytes), SatAdd(a.writeBytes, b.writeBytes),
      SatAdd(a.readOps, b.readOps), SatAdd(a.writeOps, b.writeOps),
      SatAdd(a.openOps, b.openOps), SatAdd(a.closeOps, b.closeOps),
      SatAdd(a.totalLatency, b.totalLatency), Max(a.maxLatency, b.maxLatency))
  }

  function ForOperations(op: OpKind, bytes: u64, ops: u64, latency: u64, maxLatency: u64): NodeStats {
    match op
    case Open => ZERO.(openOps := ops)
    case Close => ZERO.(closeOps := ops)
    case Read => ZERO.(readBytes := bytes, readOps := ops, totalLatency := latency, maxLatency := maxLatency)
    case Write => ZERO.(writeBytes := bytes, writeOps := ops, totalLatency := latency, maxLatency := maxLatency)
  }

  function TotalBytes(s: NodeStats): u64 { SatAdd(s.readBytes, s.writeBytes) }

  function TotalOps(s: NodeStats): u64 {
    SatAdd(SatAdd(SatAdd(s.readOps, s.writeOps), s.openOps), s.closeOps)
  }

  function AverageLatency(s: NodeStats): u64 {
    var ops := SatAdd(s.readOps, s.writeOps);
    if ops == 0 then 0 else s.totalLatency / ops
  }

  /** The figures that are shown of statistics; the latency is averaged over reads and writes. */
  lemma Figures(s: NodeStats)
    ensures TotalBytes(s) == Min(s.readBytes + s.writeBytes, 0xFFFF_FFFF_FFFF_FFFF)
    ensures TotalOps(s) == Min(s.readOps + s.writeOps + s.openOps + s.closeOps, 0xFFFF_FFFF_FFFF_FFFF)
    ensures AverageLatency(s) == if s.readOps + s.writeOps == 0 then 0
                                 else s.totalLatency / Min(s.readOps + s.writeOps, 0xFFFF_FFFF_FFFF_FFFF)
  {
  }

  /** Componentwise order. */
  predicate AtMost(a: NodeStats, b: NodeStats) {
    && a.readBytes <= b.readBytes && a.writeBytes <= b.writeBytes
    && a.readOps <= b.readOps && a.writeOps <= b.writeOps
    && a.openOps <= b.openOps && a.closeOps <= b.closeOps
    && a.totalLatency <= b.totalLatency && a.maxLatency <= b.maxLatency
  }

  lemma AtMostTransitive(a: NodeStats, b: NodeStats, c: NodeStats)
    ensures AtMost(a, b) && AtMost(b, c) ==> AtMost(a, c)
  {
  }

  // Statistics form a commutative monoid although every counter saturates.
  lemma AccumulateMonoid(a: NodeStats, b: NodeStats, c: NodeStats)
    ensures Accumulate(a, ZERO) == a
    ensures Accumulate(a, b) == Accumulate(b, a)
    ensures Accumulate(Accumulate(a, b), c) == Accumulate(a, Accumulate(b, c))
  {
  }

  lemma AccumulateSwap(a: NodeStats, b: NodeStats, c: NodeStats)
    ensures Accumulate(Accumulate(a, b), c) == Accumulate(Accumulate(a, c), b)
    ensures Accumulate(a, Accumulate(b, c)) == Accumulate(b, Accumulate(a, c))
  {
  }

  lemma NoOps(a: NodeStats, b: NodeStats)
    ensures TotalOps(Accumulate(a, b)) == 0 <==> TotalOps(a) == 0 && TotalOps(b) == 0
  {
  }

  // --- Combination of a table of statistics ---

  /** The combination of all entries; `SumRemove` shows the order does not matter. */
  ghost function Sum<K(!new)>(m: map<K, NodeStats>): NodeStats {
    if m == map[] then ZERO
    else
      var k :| k in m;
      Accumulate(m[k], Sum(m - {k}))
  }

  lemma {:induction false} SumRemove<K(!new)>(m: map<K, NodeStats>, k: K)
    requires k in m
    ensures Sum(m) == Accumulate(m[k], Sum(m - {k}))
    decreases |m|
  {
    var j :| j in m && Sum(m) == Accumulate(m[j], Sum(m - {j}));
    if j != k {
      SumRemove(m - {j}, k);
      SumRemove(m - {k}, j);
      assert m - {j} - {k} == m - {k} - {j};
      AccumulateSwap(m[j], m[k], Sum(m - {j} - {k}));
    }
  }

  lemma {:induction false} SumUpdate<K(!new)>(m: map<K, NodeStats>, k: K, s: NodeStats)
    ensures Sum(m[k := s]) == Accumulate(s, Sum(m - {k}))
  {
    SumRemove(m[k := s], k);
    assert m[k := s] - {k} == m - {k};
  }

  /** Growing one entry by a delta grows the combination by that delta. */
  lemma {:induction false} SumGrow<K(!new)>(m: map<K, NodeStats>, k: K, d: NodeStats)
    ensures k in m ==> Sum(m[k := Accumulate(m[k], d)]) == Accumulate(Sum(m), d)
    ensures k !in m ==> Sum(m[k := d]) == Accumulate(Sum(m), d)
  {
    if k in m {
      SumUpdate(m, k, Accumulate(m[k], d));
      SumRemove(m, k);
      AccumulateSwap(m[k], d, Sum(m - {k}));
    } else {
      SumUpdate(m, k, d);
      assert m - {k} == m;
      AccumulateMonoid(d, Sum(m), ZERO);
    }
  }

  /** A table split into two parts combines to the combination of the parts. */
  lemma {:induction false} SumSplit<K(!new)>(m: map<K, NodeStats>, a: map<K, NodeStats>, b: map<K, NodeStats>)
    requires forall k :: k in m <==> k in a || k in b
    requires forall k :: k in a ==> k !in b && m[k] == a[k]
    requires forall k :: k in b ==> m[k] == b[k]
    ensures Sum(m) == Accumulate(Sum(a), Sum(b))
    decreases |b|
  {
    if b == map[] {
      assert m == a;
      AccumulateMonoid(Sum(a), ZERO, ZERO);
    } else {
      var k :| k in b;
      SumRemove(b, k);
      SumRemove(m, k);
      SumSplit(m - {k}, a, b - {k});
      AccumulateSwap(b[k], Sum(a), Sum(b - {k}));
    }
  }

  /** Fewer or smaller entries combine to at most as much. */
  lemma {:induction false} SumMonotone<K(!new)>(a: map<K, NodeStats>, b: map<K, NodeStats>)
    requires a.Keys <= b.Keys
    requires forall k :: k in a ==> AtMost(a[k], b[k])
    ensures AtMost(Sum(a), Sum(b))
    decreases |b|
  {
    if b != map[] {
      var k :| k in b;
      SumRemove(b, k);
      SumMonotone(a - {k}, b - {k});
      if k in a {
        SumRemove(a, k);
      } else {
        assert a - {k} == a;
      }
    }
  }

  /** The combination counts no operation exactly when no entry does. */
  lemma {:induction false} SumCountsOps<K(!new)>(m: map<K, NodeStats>)
    ensures TotalOps(Sum(m)) == 0 <==> forall k :: k in m ==> TotalOps(m[k]) == 0
    decreases |m|
  {
    if m != map[] {
      var k :| k in m;
      SumRemove(m, k);
      SumCountsOps(m - {k});
      NoOps(m[k], Sum(m - {k}));
      var rest := m - {k};
      assert forall j :: j in m && j != k ==> j in rest && rest[j] == m[j];
    }
  }
}
