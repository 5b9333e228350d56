/** The bucketing discipline shared by the two rate structures of `ncda/src/rate.rs`:
    time buckets with a payload, lazy expiry from the front, insertion at the back.
    Times are integer nanoseconds. */
module Buckets {
  import opened Saturating

  const MAX_TIME_BUCKETS := 64

  datatype Bucket<P> = Bucket(startedAt: int, latestAt: int, load: P)

  /** `bucket_width`: a 63rd of the window, rounded up, clamped to `u64` nanoseconds. */
  function BucketWidth(window: nat): nat {
    if window == 0 then 0
    else Max(Min((window + MAX_TIME_BUCKETS - 2) / (MAX_TIME_BUCKETS - 1), U64_MAX), 1)
  }

  /** How many buckets at the front hold nothing at or after `cutoff`. */
  function Expired<P>(buckets: seq<Bucket<P>>, cutoff: int): (n: nat)
    ensures n <= |buckets|
  {
    if |buckets| > 0 && buckets[0].latestAt < cutoff then 1 + Expired(buckets[1..], cutoff) else 0
  }

  function Fresh<P>(buckets: seq<Bucket<P>>, cutoff: int): seq<Bucket<P>> {
    buckets[Expired(buckets, cutoff)..]
  }

  /** The newest bucket still accepts activity at `now`. */
  predicate Accepts<P>(buckets: seq<Bucket<P>>, now: int, width: nat) {
    |buckets| > 0 && 0 <= now - buckets[|buckets| - 1].startedAt < width
  }

  /** The payload that activity at `now` adds to. */
  function Pending<P>(buckets: seq<Bucket<P>>, now: int, width: nat, none: P): P {
    if Accepts(buckets, now, width) then buckets[|buckets| - 1].load else none
  }

  /** Stores the payload for `now`, in the newest bucket or in a new one. */
  function Put<P>(buckets: seq<Bucket<P>>, now: int, width: nat, load: P): seq<Bucket<P>> {
    if Accepts(buckets, now, width) then
      buckets[|buckets| - 1 := buckets[|buckets| - 1].(latestAt := now, load := load)]
    else
      buckets + [Bucket(now, now, load)]
  }

  /** What a monotone clock keeps: buckets span less than a width and start at least a
      width apart, none later than `now`. */
  ghost predicate Chain<P>(buckets: seq<Bucket<P>>, width: nat, now: int) {
    && (forall i :: 0 <= i < |buckets| ==>
          buckets[i].startedAt <= buckets[i].latestAt <= now
          && buckets[i].latestAt - buckets[i].startedAt < width)
    && (forall i :: 0 < i < |buckets| ==> buckets[i - 1].startedAt + width <= buckets[i].startedAt)
  }

  lemma PutTwice<P>(buckets: seq<Bucket<P>>, now: int, width: nat, first: P, second: P, none: P)
    requires width > 0
    ensures Pending(Put(buckets, now, width, first), now, width, none) == first
    ensures Put(Put(buckets, now, width, first), now, width, second) == Put(buckets, now, width, second)
  {
  }

  lemma FreshIsFresh<P>(buckets: seq<Bucket<P>>, cutoff: int)
    ensures Expired(Fresh(buckets, cutoff), cutoff) == 0
  {
    if |buckets| > 0 && buckets[0].latestAt < cutoff {
      FreshIsFresh(buckets[1..], cutoff);
      assert Fresh(buckets, cutoff) == Fresh(buckets[1..], cutoff);
    }
  }

  /** Activity at `now` leaves nothing to expire that was not there before. */
  lemma PutExpired<P>(buckets: seq<Bucket<P>>, now: int, width: nat, load: P, cutoff: int)
    requires Expired(buckets, cutoff) == 0 && cutoff <= now
    ensures Expired(Put(buckets, now, width, load), cutoff) == 0
  {
  }

  lemma PutChain<P>(buckets: seq<Bucket<P>>, width: nat, earlier: int, now: int, load: P)
    requires width > 0 && Chain(buckets, width, earlier) && earlier <= now
    ensures Chain(Put(buckets, now, width, load), width, now)
  {
  }

  lemma {:induction false} ChainSpread<P>(buckets: seq<Bucket<P>>, width: nat, now: int, i: nat, j: nat)
    requires Chain(buckets, width, now) && i <= j < |buckets|
    ensures buckets[i].startedAt + (j - i) * width <= buckets[j].startedAt
    ensures buckets[i].latestAt <= buckets[j].latestAt
    decreases j
  {
    if i < j {
      ChainSpread(buckets, width, now, i, j - 1);
      assert (j - i) * width == (j - 1 - i) * width + width;
      assert 0 <= (j - 1 - i) * width;
    }
  }

  lemma WidthCovers(window: nat)
    requires 0 < window <= (MAX_TIME_BUCKETS - 1) * U64_MAX
    ensures 0 < BucketWidth(window) <= window <= (MAX_TIME_BUCKETS - 1) * BucketWidth(window)
  {
  }

  /** The width is too small for 63 buckets to span the window exactly when it was clamped. */
  lemma WidthClamped(window: nat)
    requires window > (MAX_TIME_BUCKETS - 1) * U64_MAX
    ensures BucketWidth(window) == U64_MAX
  {
  }

  lemma ProductOrder(n: nat, m: nat, width: nat)
    ensures n >= m ==> n * width >= m * width
  {
    if n >= m { assert n * width == m * width + (n - m) * width; }
  }

  /** Counting starts that lie a width apart within less than 64 widths. */
  lemma SpreadFits(n: nat, width: nat, elapsed: int, sinceLast: int)
    requires n > 0 && (n - 1) * width <= elapsed - sinceLast && 0 <= sinceLast
    requires elapsed < MAX_TIME_BUCKETS * width
    ensures n <= MAX_TIME_BUCKETS
    ensures sinceLast >= width ==> n < MAX_TIME_BUCKETS
  {
    ProductOrder(n - 1, MAX_TIME_BUCKETS, width);
    ProductOrder(n - 1, MAX_TIME_BUCKETS - 1, width);
  }

  /** After expiry there is room for one more bucket, or none is needed. */
  lemma RoomForOne<P>(buckets: seq<Bucket<P>>, window: nat, now: int)
    requires 0 < window <= (MAX_TIME_BUCKETS - 1) * U64_MAX
    requires Chain(buckets, BucketWidth(window), now)
    requires Expired(buckets, now - window) == 0
    ensures |buckets| <= MAX_TIME_BUCKETS
    ensures |buckets| < MAX_TIME_BUCKETS || Accepts(buckets, now, BucketWidth(window))
  {
    var width, n := BucketWidth(window), |buckets|;
    if n > 0 {
      WidthCovers(window);
      ChainSpread(buckets, width, now, 0, n - 1);
      SpreadFits(n, width, now - buckets[0].startedAt, now - buckets[n - 1].startedAt);
    }
  }

  /** What a monotone clock maintains for a window whose width is not clamped. */
  ghost predicate Ready<P>(buckets: seq<Bucket<P>>, window: nat, now: int) {
    && window <= (MAX_TIME_BUCKETS - 1) * U64_MAX
    && Chain(buckets, BucketWidth(window), now)
  }

  lemma FreshReady<P>(buckets: seq<Bucket<P>>, window: nat, earlier: int, now: int)
    requires Ready(buckets, window, earlier) && earlier <= now
    ensures Ready(Fresh(buckets, now - window), window, now)
    ensures Expired(Fresh(buckets, now - window), now - window) == 0
  {
    FreshIsFresh(buckets, now - window);
  }

  /** Activity after expiry keeps the discipline and never exceeds the cap, so no live
      bucket is ever discarded. */
  lemma PutReady<P>(live: seq<Bucket<P>>, window: nat, now: int, load: P)
    requires Ready(live, window, now) && window > 0
    requires Expired(live, now - window) == 0
    ensures Ready(Put(live, now, BucketWidth(window), load), window, now)
    ensures Expired(Put(live, now, BucketWidth(window), load), now - window) == 0
    ensures |Put(live, now, BucketWidth(window), load)| <= MAX_TIME_BUCKETS
  {
    WidthCovers(window);
    RoomForOne(live, window, now);
    PutChain(live, BucketWidth(window), now, now, load);
    PutExpired(live, now, BucketWidth(window), load, now - window);
  }
}
