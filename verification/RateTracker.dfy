/** The global rolling rate (`RateTracker` in `ncda/src/rate.rs`). */
module RateTracking {
  import opened Saturating
  import opened Buckets

  datatype RateState = RateState(buckets: seq<Bucket<u64>>, windowSum: u64)

  const IDLE := RateState([], 0)

  function PopFront(s: RateState): RateState
    requires |s.buckets| > 0
  {
    RateState(s.buckets[1..], SatSub(s.windowSum, s.buckets[0].load))
  }

  function ExpireRate(s: RateState, cutoff: int): RateState
    decreases |s.buckets|
  {
    if |s.buckets| > 0 && s.buckets[0].latestAt < cutoff then ExpireRate(PopFront(s), cutoff) else s
  }

  function TrimRate(s: RateState): RateState
    decreases |s.buckets|
  {
    if |s.buckets| > MAX_TIME_BUCKETS then TrimRate(PopFront(s)) else s
  }

  function AddRate(s: RateState, width: nat, now: int, bytes: u64): RateState {
    var load := SatAdd(Pending(s.buckets, now, width, 0), bytes);
    RateState(Put(s.buckets, now, width, load), SatAdd(s.windowSum, bytes))
  }

  function RecordRate(s: RateState, window: nat, now: int, bytes: u64): RateState {
    var live := ExpireRate(s, now - window);
    if window == 0 || bytes == 0 then live
    else TrimRate(AddRate(live, BucketWidth(window), now, bytes))
  }

  /** The state after a query: a zero window keeps nothing. */
  function QueryRate(s: RateState, window: nat, now: int): RateState {
    if window == 0 then IDLE else ExpireRate(s, now - window)
  }

  lemma ExpireRateBuckets(s: RateState, cutoff: int)
    ensures ExpireRate(s, cutoff).buckets == Fresh(s.buckets, cutoff)
    ensures Expired(s.buckets, cutoff) == 0 ==> ExpireRate(s, cutoff) == s
    decreases |s.buckets|
  {
    if |s.buckets| > 0 && s.buckets[0].latestAt < cutoff { ExpireRateBuckets(PopFront(s), cutoff); }
  }

  lemma AddRateReady(live: RateState, window: nat, now: int, bytes: u64)
    requires Ready(live.buckets, window, now) && Expired(live.buckets, now - window) == 0 && window > 0
    ensures var next := AddRate(live, BucketWidth(window), now, bytes);
            && Ready(next.buckets, window, now) && Expired(next.buckets, now - window) == 0
            && TrimRate(next) == next
  {
    PutReady(live.buckets, window, now, SatAdd(Pending(live.buckets, now, BucketWidth(window), 0), bytes));
  }

  /** Recording keeps the discipline, and never loses a live bucket to the cap. */
  lemma RecordRateReady(s: RateState, window: nat, earlier: int, now: int, bytes: u64)
    requires Ready(s.buckets, window, earlier) && earlier <= now
    ensures var live, next := ExpireRate(s, now - window), RecordRate(s, window, now, bytes);
            && Ready(next.buckets, window, now) && Expired(next.buckets, now - window) == 0
            && next == if window == 0 || bytes == 0 then live else AddRate(live, BucketWidth(window), now, bytes)
  {
    hide BucketWidth, AddRate, Fresh;
    ExpireRateBuckets(s, now - window);
    FreshReady(s.buckets, window, earlier, now);
    if window > 0 { AddRateReady(ExpireRate(s, now - window), window, now, bytes); }
  }

  lemma AddRateMerges(live: RateState, width: nat, now: int, a: u64, b: u64)
    requires width > 0
    ensures AddRate(AddRate(live, width, now, a), width, now, b) == AddRate(live, width, now, SatAdd(a, b))
  {
    var load := SatAdd(Pending(live.buckets, now, width, 0), a);
    PutTwice(live.buckets, now, width, load, SatAdd(load, b), 0);
  }

  /** Two amounts recorded at one instant count as their sum. */
  lemma RecordRateMerges(s: RateState, window: nat, now: int, a: u64, b: u64)
    requires Ready(s.buckets, window, now)
    ensures RecordRate(RecordRate(s, window, now, a), window, now, b) == RecordRate(s, window, now, SatAdd(a, b))
  {
    hide BucketWidth, AddRate, RecordRate;
    var once := RecordRate(s, window, now, a);
    RecordRateReady(s, window, now, now, a);
    RecordRateReady(s, window, now, now, SatAdd(a, b));
    RecordRateReady(once, window, now, now, b);
    ExpireRateBuckets(once, now - window);
    if window > 0 {
      WidthCovers(window);
      AddRateMerges(ExpireRate(s, now - window), BucketWidth(window), now, a, b);
    }
  }

  class RateTracker {
    const window: nat
    const bucketWidth: nat
    var buckets: seq<Bucket<u64>>
    var windowSum: u64

    ghost function State(): RateState
      reads this
    {
      RateState(buckets, windowSum)
    }

    ghost predicate Valid()
      reads this
    {
      bucketWidth == BucketWidth(window)
    }

    constructor (window: nat)
      ensures Valid() && this.window == window && State() == IDLE
    {
      this.window, bucketWidth := window, BucketWidth(window);
      buckets, windowSum := [], 0;
    }

    method Reset()
      modifies this
      ensures State() == IDLE && (old(Valid()) ==> Valid())
    {
      buckets, windowSum := [], 0;
    }

    method ExpireBuckets(now: int)
      modifies this
      ensures State() == ExpireRate(old(State()), now - window)
    {
      var cutoff := now - window;
      while |buckets| > 0 && buckets[0].latestAt < cutoff
        invariant ExpireRate(State(), cutoff) == ExpireRate(old(State()), cutoff)
        decreases |buckets|
      {
        windowSum := SatSub(windowSum, buckets[0].load);
        buckets := buckets[1..];
      }
    }

    method TrimBuckets()
      modifies this
      ensures State() == TrimRate(old(State()))
    {
      while |buckets| > MAX_TIME_BUCKETS
        invariant TrimRate(State()) == TrimRate(old(State()))
        decreases |buckets|
      {
        windowSum := SatSub(windowSum, buckets[0].load);
        buckets := buckets[1..];
      }
    }

    method RecordAt(now: int, bytes: u64)
      requires Valid()
      modifies this
      ensures Valid() && State() == RecordRate(old(State()), window, now, bytes)
    {
      ExpireBuckets(now);
      if window == 0 || bytes == 0 {
        return;
      }
      var last := |buckets| - 1;
      if last >= 0 && buckets[last].startedAt <= now && now - buckets[last].startedAt < bucketWidth {
        buckets := buckets[last := buckets[last].(latestAt := now, load := SatAdd(buckets[last].load, bytes))];
      } else {
        buckets := buckets + [Bucket(now, now, bytes)];
      }
      windowSum := SatAdd(windowSum, bytes);
      TrimBuckets();
    }

    /** The numerator of `rate_bps_at`. */
    method BytesAt(now: int) returns (bytes: u64)
      requires Valid()
      modifies this
      ensures Valid() && State() == QueryRate(old(State()), window, now) && bytes == State().windowSum
    {
      if window == 0 {
        buckets, windowSum := [], 0;
        return 0;
      }
      ExpireBuckets(now);
      bytes := windowSum;
    }
  }
}
