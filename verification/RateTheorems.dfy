/** Theorems about every run of the rate tracker and the event log: when the bucket cap
    loses activity, that queries change no later answer, and what a query answers. */
module RateTheorems {
  import opened Saturating
  import opened Buckets
  import opened RateTracking
  import opened EventLogging
  import opened RateRuns

  // --- The cap ---

  lemma FreshShorter<P>(buckets: seq<Bucket<P>>, cutoff: int)
    ensures |Fresh(buckets, cutoff)| <= |buckets|
  {
  }

  lemma {:induction false} WindowedReady(run: seq<Step>, window: nat, now: int)
    requires Monotone(run) && NotAfter(run, now)
    requires 0 < window <= (MAX_TIME_BUCKETS - 1) * U64_MAX
    ensures Ready(Windowed(run, window, BucketWidth(window)), window, now)
    ensures |Windowed(run, window, BucketWidth(window))| <= MAX_TIME_BUCKETS
  {
    if run != [] {
      var rest, step := run[..|run| - 1], run[|run| - 1];
      WindowedReady(rest, window, TimeOf(step));
      AdvanceReady(Windowed(rest, window, BucketWidth(window)), window, step);
    }
  }

  lemma AdvanceReady(buckets: Segments, window: nat, step: Step)
    requires Ready(buckets, window, TimeOf(step)) && window > 0 && |buckets| <= MAX_TIME_BUCKETS
    ensures Ready(Advance(buckets, window, BucketWidth(window), step), window, TimeOf(step))
    ensures |Advance(buckets, window, BucketWidth(window), step)| <= MAX_TIME_BUCKETS
  {
    hide Ready, BucketWidth, Put, Pending, Fresh, Expired;
    var t := TimeOf(step);
    FreshReady(buckets, window, t, t);
    FreshShorter(buckets, t - window);
    if Counts(step) {
      var live := Fresh(buckets, t - window);
      PutReady(live, window, t, Pending(live, t, BucketWidth(window), []) + [step.activity]);
    }
  }

  ghost function Tick(t: int): Step { Record(Activity(t, ActivityKey("/", 0), 1)) }

  /** One record at each multiple of `gap` up to `n`, after a record at `first`. */
  ghost function Comb(first: int, gap: nat, n: nat): seq<Step> {
    if n == 0 then [Tick(0), Tick(first)] else Comb(first, gap, n - 1) + [Tick(n * gap)]
  }

  lemma TickOpens(buckets: Segments, window: nat, gap: nat, t: int)
    requires |buckets| > 0 ==> buckets[0].latestAt >= t - window
    requires |buckets| > 0 ==> t - buckets[|buckets| - 1].startedAt >= gap
    ensures Advance(buckets, window, gap, Tick(t)) == buckets + [Bucket(t, t, [Tick(t).activity])]
  {
    assert [] + [Tick(t).activity] == [Tick(t).activity];
  }

  lemma LastTick(run: seq<Step>, window: nat, gap: nat, t: int)
    ensures Windowed(run + [Tick(t)], window, gap) == Advance(Windowed(run, window, gap), window, gap, Tick(t))
  {
    assert (run + [Tick(t)])[..|run|] == run;
  }

  lemma {:induction false} CombMonotone(first: int, gap: nat, n: nat)
    requires 0 <= first < gap
    ensures Monotone(Comb(first, gap, n)) && NotAfter(Comb(first, gap, n), if n == 0 then first else n * gap)
  {
    if n > 0 {
      assert n * gap == (n - 1) * gap + gap;
      CombMonotone(first, gap, n - 1);
      ProductOrder(n - 1, 0, gap);
    }
  }

  lemma CombStarts(first: int, gap: nat, window: nat)
    requires 0 <= first < gap <= window
    ensures Windowed(Comb(first, gap, 0), window, gap)
         == [Bucket(0, first, [Tick(0).activity, Tick(first).activity])]
  {
    LastTick([], window, gap, 0);
    TickOpens([], window, gap, 0);
    LastTick([Tick(0)], window, gap, first);
    assert [] + [Tick(0)] == [Tick(0)] && [Tick(0)] + [Tick(first)] == Comb(first, gap, 0);
    var one := [Bucket(0, 0, [Tick(0).activity])];
    assert Windowed([Tick(0)], window, gap) == one;
    assert Advance(one, window, gap, Tick(first)) == AddSegment(one, gap, Tick(first).activity);
    assert [Tick(0).activity] + [Tick(first).activity] == [Tick(0).activity, Tick(first).activity];
  }

  ghost predicate Filled(buckets: Segments, n: nat, first: int, last: int) {
    |buckets| == n + 1 && buckets[0].latestAt == first && buckets[n].startedAt == last
  }

  lemma FilledStep(buckets: Segments, window: nat, gap: nat, n: nat, first: int, last: int)
    requires Filled(buckets, n, first, last) && first >= last + gap - window
    ensures Filled(Advance(buckets, window, gap, Tick(last + gap)), n + 1, first, last + gap)
  {
    TickOpens(buckets, window, gap, last + gap);
  }

  /** Records one width apart all stay in buckets of their own while the first is live. */
  lemma {:induction false} CombFills(first: int, gap: nat, window: nat, n: nat)
    requires 0 <= first < gap <= window && n * gap <= window + first
    ensures Filled(Windowed(Comb(first, gap, n), window, gap), n, first, n * gap)
  {
    hide *;
    if n == 0 {
      CombFirst(first, gap, window);
    } else {
      var t := n * gap;
      PreviousTick(n, gap);
      CombFills(first, gap, window, n - 1);
      CombNext(first, gap, n);
      LastTick(Comb(first, gap, n - 1), window, gap, t);
      FilledStep(Windowed(Comb(first, gap, n - 1), window, gap), window, gap, n - 1, first, t - gap);
    }
  }

  lemma CombFirst(first: int, gap: nat, window: nat)
    requires 0 <= first < gap <= window
    ensures Filled(Windowed(Comb(first, gap, 0), window, gap), 0, first, 0)
  {
    CombStarts(first, gap, window);
    hide Windowed, Comb;
  }

  lemma PreviousTick(n: nat, gap: nat)
    requires n > 0
    ensures (n - 1) * gap == n * gap - gap
  {
  }

  lemma CombNext(first: int, gap: nat, n: nat)
    requires n > 0
    ensures Comb(first, gap, n) == Comb(first, gap, n - 1) + [Tick(n * gap)]
  {
  }

  /** The cap of 64 buckets never discards live activity of any run exactly when the bucket
      width is not clamped to 64 bits. */
  lemma CapIsLosslessIff(window: nat)
    requires window > 0
    ensures (forall run :: Monotone(run) ==> |Windowed(run, window, BucketWidth(window))| <= 64)
       <==> window <= 63 * 0xFFFF_FFFF_FFFF_FFFF
  {
    if window <= (MAX_TIME_BUCKETS - 1) * U64_MAX {
      forall run | Monotone(run)
        ensures |Windowed(run, window, BucketWidth(window))| <= MAX_TIME_BUCKETS
      {
        WindowedReady(run, window, if run == [] then 0 else TimeOf(run[|run| - 1]));
      }
    } else {
      WidthClamped(window);
      CombMonotone(U64_MAX - 1, U64_MAX, MAX_TIME_BUCKETS);
      CombFills(U64_MAX - 1, U64_MAX, window, MAX_TIME_BUCKETS);
    }
  }

  /** The bound is tight: runs without clamping do reach 64 live buckets. */
  lemma CapIsReached(width: nat)
    requires 0 < width <= U64_MAX
    ensures BucketWidth(63 * width) == width
    ensures exists run :: Monotone(run) && |Windowed(run, 63 * width, width)| == 64
  {
    CombMonotone(0, width, MAX_TIME_BUCKETS - 1);
    CombFills(0, width, (MAX_TIME_BUCKETS - 1) * width, MAX_TIME_BUCKETS - 1);
  }

  // --- Queries are observationally pure ---

  function RateStep(s: RateState, window: nat, step: Step): RateState {
    match step
    case Record(a) => RecordRate(s, window, a.time, a.bytes)
    case Query(at) => QueryRate(s, window, at)
  }

  ghost function RateRun(run: seq<Step>, window: nat): RateState {
    if run == [] then IDLE else RateStep(RateRun(run[..|run| - 1], window), window, run[|run| - 1])
  }

  ghost function EventStep(s: EventState, window: nat, step: Step): EventState {
    match step
    case Record(a) => RecordEvent(s, window, a.time, a.key, a.bytes)
    case Query(at) => QueryEvents(s, window, at)
  }

  ghost function EventRun(run: seq<Step>, window: nat): EventState {
    if run == [] then QUIET else EventStep(EventRun(run[..|run| - 1], window), window, run[|run| - 1])
  }

  lemma {:induction false} ExpireRateTwice(s: RateState, cutoff: int, later: int)
    requires cutoff <= later
    ensures ExpireRate(ExpireRate(s, cutoff), later) == ExpireRate(s, later)
    decreases |s.buckets|
  {
    if |s.buckets| > 0 && s.buckets[0].latestAt < cutoff { ExpireRateTwice(RateTracking.PopFront(s), cutoff, later); }
  }

  lemma {:induction false} ExpireEventsTwice(s: EventState, cutoff: int, later: int)
    requires cutoff <= later
    ensures ExpireEvents(ExpireEvents(s, cutoff), later) == ExpireEvents(s, later)
    decreases |s.buckets|
  {
    if |s.buckets| > 0 && s.buckets[0].latestAt < cutoff { ExpireEventsTwice(DropFront(s), cutoff, later); }
  }

  /** Queries, with all the expiry they trigger, change no later answer. */
  lemma {:induction false} RateQueriesArePure(run: seq<Step>, window: nat, now: int)
    requires Monotone(run) && NotAfter(run, now)
    ensures QueryRate(RateRun(run, window), window, now) == QueryRate(RateRun(RecordsOnly(run), window), window, now)
  {
    if run != [] && window > 0 {
      var rest, step := run[..|run| - 1], run[|run| - 1];
      RateQueriesArePure(rest, window, if step.Record? then TimeOf(step) else now);
      if step.Record? {
        assert (RecordsOnly(rest) + [step])[..|RecordsOnly(rest)|] == RecordsOnly(rest);
      } else {
        ExpireRateTwice(RateRun(rest, window), step.at - window, now - window);
        assert RecordsOnly(rest) + [] == RecordsOnly(rest);
      }
    }
  }

  /** The state that a step with recorded activity leads to when the cap is not exceeded. */
  ghost function Added(s: EventState, window: nat, a: Activity): EventState {
    AddEvent(ExpireEvents(s, a.time - window), BucketWidth(window), a.time, a.key, a.bytes)
  }

  lemma StepAdds(s: EventState, window: nat, step: Step)
    requires window > 0 && Counts(step) && |Added(s, window, step.activity).buckets| <= MAX_TIME_BUCKETS
    ensures EventStep(s, window, step) == Added(s, window, step.activity)
  {
    hide ExpireEvents, AddEvent, TrimEvents, BucketWidth;
    TrimWithin(Added(s, window, step.activity));
  }

  lemma StepExpires(s: EventState, window: nat, step: Step)
    requires window > 0 && !Counts(step)
    ensures EventStep(s, window, step) == ExpireEvents(s, TimeOf(step) - window)
  {
  }

  lemma RecordAfterExpiry(s: EventState, s': EventState, window: nat, step: Step)
    requires step.Record? && ExpireEvents(s, TimeOf(step) - window) == ExpireEvents(s', TimeOf(step) - window)
    ensures EventStep(s, window, step) == EventStep(s', window, step)
  {
  }

  lemma {:induction false} EventQueriesArePure(run: seq<Step>, window: nat, now: int)
    requires Monotone(run) && NotAfter(run, now)
    ensures QueryEvents(EventRun(run, window), window, now)
         == QueryEvents(EventRun(RecordsOnly(run), window), window, now)
  {
    hide ExpireEvents, RecordEvent, EventStep;
    if run != [] && window > 0 {
      var rest, step := run[..|run| - 1], run[|run| - 1];
      EventQueriesArePure(rest, window, if step.Record? then TimeOf(step) else now);
      if step.Record? {
        assert (RecordsOnly(rest) + [step])[..|RecordsOnly(rest)|] == RecordsOnly(rest);
        RecordAfterExpiry(EventRun(rest, window), EventRun(RecordsOnly(rest), window), window, step);
        assert EventRun(RecordsOnly(run), window) == EventRun(run, window);
      } else {
        StepExpires(EventRun(rest, window), window, step);
        ExpireEventsTwice(EventRun(rest, window), step.at - window, now - window);
        assert RecordsOnly(rest) + [] == RecordsOnly(rest);
      }
    }
  }
}
