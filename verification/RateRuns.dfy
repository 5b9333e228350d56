/** Whole runs of the rate structures: what the buckets hold in terms of everything that
    was ever recorded, however queries with their lazy expiry were interleaved. */
module RateRuns {
  import opened Saturating
  import opened Buckets
  import opened RateTracking
  import opened EventLogging

  datatype Activity = Activity(time: int, key: ActivityKey, bytes: u64)

  datatype Step = Record(activity: Activity) | Query(at: int)

  /** Buckets that still carry the activity they summarise. */
  type Segments = seq<Bucket<seq<Activity>>>

  function TimeOf(step: Step): int { if step.Record? then step.activity.time else step.at }

  ghost predicate Monotone(run: seq<Step>) {
    forall i, j :: 0 <= i <= j < |run| ==> TimeOf(run[i]) <= TimeOf(run[j])
  }

  ghost predicate NotAfter(run: seq<Step>, now: int) {
    forall i :: 0 <= i < |run| ==> TimeOf(run[i]) <= now
  }

  predicate Counts(step: Step) { step.Record? && step.activity.bytes > 0 }

  /** The recorded activity of a run; zero bytes are never recorded. */
  ghost function Happened(run: seq<Step>): seq<Activity> {
    if run == [] then []
    else Happened(run[..|run| - 1]) + if Counts(run[|run| - 1]) then [run[|run| - 1].activity] else []
  }

  ghost function RecordsOnly(run: seq<Step>): seq<Step> {
    if run == [] then []
    else RecordsOnly(run[..|run| - 1]) + if run[|run| - 1].Record? then [run[|run| - 1]] else []
  }

  ghost function AddSegment(buckets: Segments, width: nat, a: Activity): Segments {
    Put(buckets, a.time, width, Pending(buckets, a.time, width, []) + [a])
  }

  /** All activity in buckets, nothing expired. */
  ghost function Bucketize(history: seq<Activity>, width: nat): Segments {
    if history == [] then []
    else AddSegment(Bucketize(history[..|history| - 1], width), width, history[|history| - 1])
  }

  /** One step with lazy expiry, and without a cap on the number of buckets. */
  ghost function Advance(buckets: Segments, window: nat, width: nat, step: Step): Segments {
    var live := Fresh(buckets, TimeOf(step) - window);
    if Counts(step) then AddSegment(live, width, step.activity) else live
  }

  /** The same step without expiry. */
  ghost function Extended(buckets: Segments, width: nat, step: Step): Segments {
    if Counts(step) then AddSegment(buckets, width, step.activity) else buckets
  }

  ghost function Windowed(run: seq<Step>, window: nat, width: nat): Segments {
    if run == [] then [] else Advance(Windowed(run[..|run| - 1], window, width), window, width, run[|run| - 1])
  }

  ghost function Live(buckets: Segments): seq<Activity> {
    if buckets == [] then [] else buckets[0].load + Live(buckets[1..])
  }

  // --- Lazy expiry only ever drops a prefix of the eagerly built buckets ---

  lemma {:induction false} ExpiredMeans<P>(buckets: seq<Bucket<P>>, cutoff: int, n: nat)
    requires n <= |buckets|
    ensures n <= Expired(buckets, cutoff) <==> forall i :: 0 <= i < n ==> buckets[i].latestAt < cutoff
  {
    if n > 0 && buckets[0].latestAt < cutoff {
      ExpiredMeans(buckets[1..], cutoff, n - 1);
      assert forall i :: 0 < i < n ==> buckets[i] == buckets[1..][i - 1];
    }
  }

  /** `part` is `all` without some of the buckets that have expired by `cutoff`. */
  ghost predicate LazySuffix<P>(all: seq<Bucket<P>>, part: seq<Bucket<P>>, cutoff: int) {
    part == all || (|all| > 0 && all[0].latestAt < cutoff && LazySuffix(all[1..], part, cutoff))
  }

  lemma {:induction false} FreshOfSuffix<P>(all: seq<Bucket<P>>, part: seq<Bucket<P>>, cutoff: int)
    requires LazySuffix(all, part, cutoff)
    ensures Fresh(part, cutoff) == Fresh(all, cutoff)
  {
    if part != all {
      FreshOfSuffix(all[1..], part, cutoff);
      assert Fresh(all, cutoff) == Fresh(all[1..], cutoff);
    }
  }

  lemma {:induction false} LaterCutoff<P>(all: seq<Bucket<P>>, part: seq<Bucket<P>>, cutoff: int, later: int)
    requires LazySuffix(all, part, cutoff) && cutoff <= later
    ensures LazySuffix(all, part, later)
  {
    if part != all { LaterCutoff(all[1..], part, cutoff, later); }
  }

  lemma {:induction false} FreshIsSuffix<P>(all: seq<Bucket<P>>, cutoff: int)
    ensures LazySuffix(all, Fresh(all, cutoff), cutoff)
  {
    if |all| > 0 && all[0].latestAt < cutoff {
      FreshIsSuffix(all[1..], cutoff);
      assert Fresh(all, cutoff) == Fresh(all[1..], cutoff);
    }
  }

  /** An expired bucket could not have been merged into. */
  lemma {:induction false} PutSuffix<P>(all: seq<Bucket<P>>, now: int, width: nat, window: nat, load: P, none: P)
    requires width <= window
    requires forall i :: 0 <= i < |all| ==> all[i].startedAt <= all[i].latestAt
    ensures Pending(Fresh(all, now - window), now, width, none) == Pending(all, now, width, none)
    ensures LazySuffix(Put(all, now, width, load), Put(Fresh(all, now - window), now, width, load), now - window)
  {
    if |all| > 0 && all[0].latestAt < now - window {
      PutSuffix(all[1..], now, width, window, load, none);
      assert Fresh(all, now - window) == Fresh(all[1..], now - window);
      assert Put(all, now, width, load)[1..] == Put(all[1..], now, width, load);
    }
  }

  // --- What the eagerly built buckets contain ---

  /** Every segment's activity lies between its bounds. */
  ghost predicate Contains(buckets: Segments) {
    forall i, a :: 0 <= i < |buckets| && a in buckets[i].load
      ==> buckets[i].startedAt <= a.time <= buckets[i].latestAt
  }

  lemma {:induction false} LiveSplit(buckets: Segments, n: nat)
    requires n <= |buckets|
    ensures Live(buckets) == Live(buckets[..n]) + Live(buckets[n..])
  {
    if n == 0 {
      assert buckets[n..] == buckets;
    } else {
      LiveSplit(buckets[1..], n - 1);
      assert buckets[..n][1..] == buckets[1..][..n - 1];
      assert buckets[1..][n - 1..] == buckets[n..];
    }
  }

  lemma LiveOne(bucket: Bucket<seq<Activity>>)
    ensures Live([bucket]) == bucket.load
  {
    assert [bucket][1..] == [];
    assert Live([]) == [];
  }

  lemma LiveAdds(buckets: Segments, width: nat, a: Activity)
    ensures Live(AddSegment(buckets, width, a)) == Live(buckets) + [a]
  {
    var after, n := AddSegment(buckets, width, a), |AddSegment(buckets, width, a)| - 1;
    LiveSplit(after, n);
    LiveSplit(buckets, n);
    assert after[..n] == buckets[..n] && after[n..] == [after[n]];
    LiveOne(after[n]);
    if |buckets| == |after| {
      assert buckets[n..] == [buckets[n]];
      LiveOne(buckets[n]);
    } else {
      assert buckets[n..] == [];
    }
  }

  /** A history recorded by a monotone clock, none of it later than `now`. */
  ghost predicate Ordered(history: seq<Activity>, now: int) {
    && (forall i :: 0 <= i < |history| ==> history[i].time <= now)
    && (forall i, j :: 0 <= i <= j < |history| ==> history[i].time <= history[j].time)
  }

  lemma ContainsAdded(buckets: Segments, width: nat, a: Activity)
    requires Contains(buckets) && forall i :: 0 <= i < |buckets| ==> buckets[i].latestAt <= a.time
    ensures Contains(AddSegment(buckets, width, a))
  {
  }

  lemma {:induction false} Bucketized(history: seq<Activity>, width: nat, now: int)
    requires width > 0 && Ordered(history, now)
    ensures Chain(Bucketize(history, width), width, now)
    ensures Contains(Bucketize(history, width))
    ensures Live(Bucketize(history, width)) == history
  {
    if history != [] {
      var rest, a := history[..|history| - 1], history[|history| - 1];
      var before := Bucketize(rest, width);
      Bucketized(rest, width, a.time);
      PutChain(before, width, a.time, a.time, Pending(before, a.time, width, []) + [a]);
      ContainsAdded(before, width, a);
      LiveAdds(before, width, a);
      assert rest + [a] == history;
    }
  }

  lemma {:induction false} HappenedOrdered(run: seq<Step>, now: int)
    requires Monotone(run) && NotAfter(run, now)
    ensures Ordered(Happened(run), now)
  {
    if run != [] {
      var rest, step := run[..|run| - 1], run[|run| - 1];
      HappenedOrdered(rest, TimeOf(step));
    }
  }

  // --- Main results ---

  lemma WidthWithin(window: nat)
    requires window > 0
    ensures 0 < BucketWidth(window) <= window
  {
  }

  lemma LazyAdvance(all: Segments, part: Segments, window: nat, width: nat, step: Step)
    requires width <= window && LazySuffix(all, part, TimeOf(step) - window)
    requires Chain(all, width, TimeOf(step))
    ensures LazySuffix(Extended(all, width, step), Advance(part, window, width, step), TimeOf(step) - window)
  {
    hide LazySuffix, Put, Fresh, Pending;
    var t := TimeOf(step);
    FreshOfSuffix(all, part, t - window);
    if Counts(step) {
      PutSuffix(all, t, width, window, Pending(all, t, width, []) + [step.activity], []);
    } else {
      FreshIsSuffix(all, t - window);
    }
  }

  lemma {:induction false} WindowedIsSuffix(run: seq<Step>, window: nat, width: nat, now: int)
    requires Monotone(run) && NotAfter(run, now) && 0 < width <= window
    ensures LazySuffix(Bucketize(Happened(run), width), Windowed(run, window, width), now - window)
  {
    if run != [] {
      var rest, step := run[..|run| - 1], run[|run| - 1];
      WindowedIsSuffix(rest, window, width, TimeOf(step));
      var all := Bucketize(Happened(rest), width);
      assert Chain(all, width, TimeOf(step)) by {
        HappenedOrdered(rest, TimeOf(step));
        Bucketized(Happened(rest), width, TimeOf(step));
      }
      LazyAdvance(all, Windowed(rest, window, width), window, width, step);
      BucketizeStep(run, width);
      LaterCutoff(Extended(all, width, step), Windowed(run, window, width), TimeOf(step) - window, now - window);
    }
  }

  lemma BucketizeStep(run: seq<Step>, width: nat)
    requires run != []
    ensures Bucketize(Happened(run), width)
         == Extended(Bucketize(Happened(run[..|run| - 1]), width), width, run[|run| - 1])
  {
    var before, step := Happened(run[..|run| - 1]), run[|run| - 1];
    if Counts(step) {
      BucketizeLast(before, width, step.activity);
    } else {
      assert before + [] == before;
    }
  }

  lemma BucketizeLast(history: seq<Activity>, width: nat, a: Activity)
    ensures Bucketize(history + [a], width) == AddSegment(Bucketize(history, width), width, a)
  {
    assert (history + [a])[..|history|] == history;
  }

  /** However expiry was interleaved, what is live at `now` is what expiring the complete
      history at `now` leaves. */
  lemma LazyIsEager(run: seq<Step>, window: nat, width: nat, now: int)
    requires Monotone(run) && NotAfter(run, now) && 0 < width <= window
    ensures Fresh(Windowed(run, window, width), now - window) == Fresh(Bucketize(Happened(run), width), now - window)
  {
    WindowedIsSuffix(run, window, width, now);
    FreshOfSuffix(Bucketize(Happened(run), width), Windowed(run, window, width), now - window);
  }

  /** Expiring a complete history keeps everything since the cutoff, and nothing as old as
      a bucket before it. */
  lemma EagerSandwich(all: Segments, width: nat, cutoff: int, now: int)
    requires Chain(all, width, now) && Contains(all)
    ensures var gone := Expired(all, cutoff);
            && (forall a :: a in Live(all[..gone]) ==> a.time < cutoff)
            && (forall a :: a in Live(all[gone..]) ==> a.time > cutoff - width)
  {
    var gone := Expired(all, cutoff);
    ExpiredMeans(all, cutoff, gone);
    forall a | a in Live(all[..gone])
      ensures a.time < cutoff
    {
      var i := LiveFrom(all[..gone], a);
      assert a in all[i].load;
    }
    forall a | a in Live(all[gone..])
      ensures a.time > cutoff - width
    {
      var i := LiveFrom(all[gone..], a);
      assert a in all[gone + i].load;
      ExpiredMeans(all, cutoff, gone + 1);
      ChainSpread(all, width, now, gone, gone + i);
      ProductOrder(i, 0, width);
    }
  }

  lemma SuffixSandwich(history: seq<Activity>, gone: seq<Activity>, live: seq<Activity>, cutoff: int, bound: int)
    requires history == gone + live
    requires forall a :: a in gone ==> a.time < cutoff
    requires forall a :: a in live ==> a.time > bound
    ensures |live| <= |history| && live == history[|history| - |live|..]
    ensures forall i :: 0 <= i < |history| - |live| ==> history[i].time < cutoff
    ensures forall i :: 0 <= i < |live| ==> live[i].time > bound
  {
    assert forall i :: 0 <= i < |gone| ==> history[i] in gone;
  }

  /** The window sandwich: live at `now` is a suffix of the history; everything recorded
      within the window is in it, and nothing older than the window and one bucket. */
  lemma WindowSandwich(run: seq<Step>, window: nat, width: nat, now: int)
    requires Monotone(run) && NotAfter(run, now) && 0 < width <= window
    ensures var history, live := Happened(run), Live(Fresh(Windowed(run, window, width), now - window));
            && |live| <= |history| && live == history[|history| - |live|..]
            && (forall i :: 0 <= i < |history| - |live| ==> history[i].time < now - window)
            && (forall i :: 0 <= i < |live| ==> live[i].time > now - window - width)
  {
    LazyIsEager(run, window, width, now);
    HappenedOrdered(run, now);
    HistorySandwich(Happened(run), width, now - window, now);
  }

  lemma HistorySandwich(history: seq<Activity>, width: nat, cutoff: int, now: int)
    requires width > 0 && Ordered(history, now)
    ensures var live := Live(Fresh(Bucketize(history, width), cutoff));
            && |live| <= |history| && live == history[|history| - |live|..]
            && (forall i :: 0 <= i < |history| - |live| ==> history[i].time < cutoff)
            && (forall i :: 0 <= i < |live| ==> live[i].time > cutoff - width)
  {
    var all := Bucketize(history, width);
    var gone := Expired(all, cutoff);
    Bucketized(history, width, now);
    LiveSplit(all, gone);
    EagerSandwich(all, width, cutoff, now);
    SuffixSandwich(history, Live(all[..gone]), Live(all[gone..]), cutoff, cutoff - width);
  }

  lemma {:induction false} LiveFrom(buckets: Segments, a: Activity) returns (i: nat)
    requires a in Live(buckets)
    ensures i < |buckets| && a in buckets[i].load
  {
    if a in buckets[0].load {
      i := 0;
    } else {
      var j := LiveFrom(buckets[1..], a);
      i := j + 1;
    }
  }
}
