/** What rate queries answer, in terms of everything recorded: the incremental sums of the
    tracker and the log are sums over the live part of the history. */
module RateAnswers {
  import opened Saturating
  import opened Buckets
  import opened RateTracking
  import opened EventLogging
  import opened RateRuns
  import opened RateTheorems
  import opened Counting

  datatype Measure =
    | AllBytes
    | ByKey(key: ActivityKey)
    | ByPrefix(prefix: string)
    | Since(time: int)
    | After(time: int)
    | Keys(keys: ActivityKey -> bool)
    | KeysSince(keys: ActivityKey -> bool, time: int)
    | KeysAfter(keys: ActivityKey -> bool, time: int)

  function Weigh(m: Measure, a: Activity): nat {
    match m
    case AllBytes => a.bytes
    case ByKey(k) => if a.key == k then a.bytes else 0
    case ByPrefix(q) => Amount(VisitsOf(a.key.path, a.bytes), q)
    case Since(t) => if a.time >= t then a.bytes else 0
    case After(t) => if a.time > t then a.bytes else 0
    case Keys(keys) => if keys(a.key) then a.bytes else 0
    case KeysSince(keys, t) => if keys(a.key) && a.time >= t then a.bytes else 0
    case KeysAfter(keys, t) => if keys(a.key) && a.time > t then a.bytes else 0
  }

  function Total(m: Measure, history: seq<Activity>): nat {
    if history == [] then 0
    else Total(m, history[..|history| - 1]) + Weigh(m, history[|history| - 1])
  }

  lemma TotalLast(m: Measure, history: seq<Activity>, a: Activity)
    ensures Total(m, history + [a]) == Total(m, history) + Weigh(m, a)
  {
    assert (history + [a])[..|history|] == history;
  }

  lemma TotalNothing(m: Measure)
    ensures Total(m, []) == 0
  {
  }

  lemma {:induction false} TotalConcat(m: Measure, a: seq<Activity>, b: seq<Activity>)
    ensures Total(m, a + b) == Total(m, a) + Total(m, b)
  {
    if b == [] {
      assert a + b == a;
    } else {
      assert a + b == (a + b[..|b| - 1]) + [b[|b| - 1]];
      TotalLast(m, a + b[..|b| - 1], b[|b| - 1]);
      TotalConcat(m, a, b[..|b| - 1]);
    }
  }

  lemma {:induction false} TotalCompare(m: Measure, n: Measure, history: seq<Activity>)
    requires forall a :: a in history ==> Weigh(m, a) <= Weigh(n, a)
    ensures Total(m, history) <= Total(n, history)
  {
    if history != [] { TotalCompare(m, n, history[..|history| - 1]); }
  }

  lemma {:induction false} LoadWithinLive(m: Measure, buckets: Segments, i: nat)
    requires i < |buckets|
    ensures Total(m, buckets[i].load) <= Total(m, Live(buckets))
  {
    TotalConcat(m, buckets[0].load, Live(buckets[1..]));
    if i > 0 { LoadWithinLive(m, buckets[1..], i - 1); }
  }

  lemma RootWeighsMost(m: Measure, a: Activity)
    requires m.AllBytes? || m.ByKey? || m.ByPrefix?
    ensures Weigh(m, a) <= Weigh(ByPrefix("/"), a)
  {
    VisitsExactly(a.key.path, a.bytes, "/");
    if m.ByPrefix? { VisitsExactly(a.key.path, a.bytes, m.prefix); }
  }

  /** The live total fits into 64 bits at every point of the run. */
  ghost predicate Fits(run: seq<Step>, window: nat, m: Measure) {
    forall n :: 0 <= n <= |run| ==> Total(m, Live(Windowed(run[..n], window, BucketWidth(window)))) <= U64_MAX
  }

  lemma FitsRest(run: seq<Step>, window: nat, m: Measure)
    requires Fits(run, window, m) && run != []
    ensures Fits(run[..|run| - 1], window, m)
    ensures Total(m, Live(Windowed(run, window, BucketWidth(window)))) <= U64_MAX
  {
    hide Windowed, BucketWidth, Total;
    var rest := run[..|run| - 1];
    assert forall n :: 0 <= n <= |rest| ==> rest[..n] == run[..n];
    assert run[..|run|] == run;
  }

  ghost predicate SameSpans<P, Q>(a: seq<Bucket<P>>, b: seq<Bucket<Q>>) {
    |a| == |b|
    && forall i :: 0 <= i < |a| ==> a[i].startedAt == b[i].startedAt && a[i].latestAt == b[i].latestAt
  }

  // --- The rate tracker ---

  ghost predicate RateRefines(s: RateState, buckets: Segments) {
    && SameSpans(s.buckets, buckets)
    && (forall i :: 0 <= i < |buckets| ==> s.buckets[i].load == Total(AllBytes, buckets[i].load))
    && s.windowSum == Total(AllBytes, Live(buckets))
  }

  lemma {:induction false} RateExpiryRefines(s: RateState, buckets: Segments, cutoff: int)
    requires RateRefines(s, buckets)
    ensures RateRefines(ExpireRate(s, cutoff), Fresh(buckets, cutoff))
    decreases |buckets|
  {
    if |buckets| > 0 && buckets[0].latestAt < cutoff {
      TotalConcat(AllBytes, buckets[0].load, Live(buckets[1..]));
      RateExpiryRefines(RateTracking.PopFront(s), buckets[1..], cutoff);
      assert Fresh(buckets, cutoff) == Fresh(buckets[1..], cutoff);
    }
  }

  lemma RateAddRefines(s: RateState, buckets: Segments, width: nat, a: Activity)
    requires RateRefines(s, buckets)
    requires Total(AllBytes, Live(AddSegment(buckets, width, a))) <= U64_MAX
    ensures RateRefines(AddRate(s, width, a.time, a.bytes), AddSegment(buckets, width, a))
  {
    LiveAdds(buckets, width, a);
    TotalLast(AllBytes, Live(buckets), a);
    hide Total, Live;
    TotalNothing(AllBytes);
    var pending := Pending(buckets, a.time, width, []);
    TotalLast(AllBytes, pending, a);
    if Accepts(buckets, a.time, width) { LoadWithinLive(AllBytes, buckets, |buckets| - 1); }
  }

  lemma RateLength(s: RateState, buckets: Segments)
    requires RateRefines(s, buckets)
    ensures |s.buckets| == |buckets|
  {
  }

  lemma RateStepRefines(s: RateState, buckets: Segments, window: nat, step: Step)
    requires RateRefines(s, buckets) && window > 0
    requires var next := Advance(buckets, window, BucketWidth(window), step);
             |next| <= MAX_TIME_BUCKETS && Total(AllBytes, Live(next)) <= U64_MAX
    ensures RateRefines(RateStep(s, window, step), Advance(buckets, window, BucketWidth(window), step))
  {
    hide BucketWidth, AddRate, RateRefines, AddSegment;
    var cutoff := TimeOf(step) - window;
    RateExpiryRefines(s, buckets, cutoff);
    if Counts(step) {
      RateAddRefines(ExpireRate(s, cutoff), Fresh(buckets, cutoff), BucketWidth(window), step.activity);
      RateLength(AddRate(ExpireRate(s, cutoff), BucketWidth(window), step.activity.time, step.activity.bytes),
                 Advance(buckets, window, BucketWidth(window), step));
    }
  }

  lemma {:induction false} RateRunRefines(run: seq<Step>, window: nat, now: int)
    requires Monotone(run) && NotAfter(run, now)
    requires 0 < window <= (MAX_TIME_BUCKETS - 1) * U64_MAX && Fits(run, window, AllBytes)
    ensures RateRefines(RateRun(run, window), Windowed(run, window, BucketWidth(window)))
  {
    if run != [] {
      var rest, step := run[..|run| - 1], run[|run| - 1];
      FitsRest(run, window, AllBytes);
      RateRunRefines(rest, window, TimeOf(step));
      WindowedReady(run, window, now);
      RateStepRefines(RateRun(rest, window), Windowed(rest, window, BucketWidth(window)), window, step);
    }
  }

  // --- The event log ---

  /** The key-wise sums of a history. */
  ghost function KeySums(history: seq<Activity>): Amounts {
    if history == [] then map[]
    else
      var a := history[|history| - 1];
      Plus(KeySums(history[..|history| - 1]), a.key, a.bytes)
  }

  lemma KeySumsLast(history: seq<Activity>, a: Activity)
    ensures KeySums(history + [a]) == Plus(KeySums(history), a.key, a.bytes)
  {
    assert (history + [a])[..|history|] == history;
  }

  ghost predicate AllCount(history: seq<Activity>) { forall a :: a in history ==> a.bytes > 0 }

  lemma {:induction false} KeySumsExact(history: seq<Activity>, k: ActivityKey)
    requires Total(AllBytes, history) <= U64_MAX && AllCount(history)
    ensures Get(KeySums(history), k) == Total(ByKey(k), history) <= Total(AllBytes, history)
    ensures k in KeySums(history) ==> KeySums(history)[k] > 0
  {
    if history != [] { KeySumsExact(history[..|history| - 1], k); }
  }

  lemma VisitsAdd(path: string, a: nat, b: nat, q: string)
    ensures Amount(VisitsOf(path, a + b), q) == Amount(VisitsOf(path, a), q) + Amount(VisitsOf(path, b), q)
  {
    VisitsExactly(path, a + b, q);
    VisitsExactly(path, a, q);
    VisitsExactly(path, b, q);
  }

  lemma ChargePlus(amounts: Amounts, k: ActivityKey, bytes: u64, q: string)
    requires Get(amounts, k) + bytes <= U64_MAX
    ensures Charge(Plus(amounts, k, bytes), q) == Charge(amounts, q) + Amount(VisitsOf(k.path, bytes), q)
  {
    hide VisitsOf;
    var sum := Get(amounts, k) + bytes;
    var share := Amount(VisitsOf(k.path, sum), q);
    assert Shares(Plus(amounts, k, bytes), q) == Shares(amounts, q)[k := share];
    MapSumUpdate(Shares(amounts, q), k, share);
    VisitsAdd(k.path, Get(amounts, k), bytes, q);
    VisitsExactly(k.path, 0, q);
  }

  lemma {:induction false} ChargeExact(history: seq<Activity>, q: string)
    requires Total(AllBytes, history) <= U64_MAX && AllCount(history)
    ensures Charge(KeySums(history), q) == Total(ByPrefix(q), history)
  {
    if history == [] {
      assert Shares(map[], q) == map[];
    } else {
      var rest, a := history[..|history| - 1], history[|history| - 1];
      ChargeExact(rest, q);
      KeySumsExact(rest, a.key);
      ChargePlus(KeySums(rest), a.key, a.bytes, q);
    }
  }

  lemma WithoutFirst(whole: Amounts, first: Amounts, second: Amounts)
    requires forall k :: Get(whole, k) == Get(first, k) + Get(second, k)
    requires forall k :: (k in whole <==> Get(whole, k) > 0) && (k in second <==> Get(second, k) > 0)
    ensures Without(whole, first) == second
  {
  }

  lemma AllCountSplit(a: seq<Activity>, b: seq<Activity>)
    requires AllCount(a + b)
    ensures AllCount(a) && AllCount(b)
  {
    assert forall x :: x in a ==> x in a + b;
    assert forall x :: x in b ==> x in a + b;
  }

  lemma KeySumsSplit(a: seq<Activity>, b: seq<Activity>)
    requires Total(AllBytes, a + b) <= U64_MAX && AllCount(a + b)
    ensures Without(KeySums(a + b), KeySums(a)) == KeySums(b)
  {
    TotalConcat(AllBytes, a, b);
    AllCountSplit(a, b);
    hide *;
    var whole, first, second := KeySums(a + b), KeySums(a), KeySums(b);
    forall k
      ensures Get(whole, k) == Get(first, k) + Get(second, k)
      ensures (k in whole <==> Get(whole, k) > 0) && (k in second <==> Get(second, k) > 0)
    {
      TotalConcat(ByKey(k), a, b);
      KeySumsExact(a + b, k);
      KeySumsExact(a, k);
      KeySumsExact(b, k);
    }
    WithoutFirst(whole, first, second);
  }

  ghost predicate EventRefines(s: EventState, buckets: Segments) {
    && SameSpans(s.buckets, buckets)
    && AllCount(Live(buckets))
    && (forall i :: 0 <= i < |buckets| ==> s.buckets[i].load == KeySums(buckets[i].load))
    && s.activities == KeySums(Live(buckets))
    && (forall q :: Get(s.prefixTotals, q) == Total(ByPrefix(q), Live(buckets)))
    && Positive(s.prefixTotals)
  }

  lemma {:induction false} EventExpiryRefines(s: EventState, buckets: Segments, cutoff: int)
    requires EventRefines(s, buckets) && Total(AllBytes, Live(buckets)) <= U64_MAX
    ensures EventRefines(ExpireEvents(s, cutoff), Fresh(buckets, cutoff))
    decreases |buckets|
  {
    if |buckets| > 0 && buckets[0].latestAt < cutoff {
      DropRefines(s, buckets);
      TotalConcat(AllBytes, buckets[0].load, Live(buckets[1..]));
      EventExpiryRefines(DropFront(s), buckets[1..], cutoff);
      assert Fresh(buckets, cutoff) == Fresh(buckets[1..], cutoff);
    }
  }

  lemma DropRefines(s: EventState, buckets: Segments)
    requires EventRefines(s, buckets) && Total(AllBytes, Live(buckets)) <= U64_MAX && |buckets| > 0
    ensures EventRefines(DropFront(s), buckets[1..])
  {
    hide Total, KeySums, Without, Charge;
    var first, rest := buckets[0].load, Live(buckets[1..]);
    TotalConcat(AllBytes, first, rest);
    KeySumsSplit(first, rest);
    AllCountSplit(first, rest);
    forall q
      ensures Charge(KeySums(first), q) + Total(ByPrefix(q), rest) == Get(s.prefixTotals, q)
    {
      ChargeExact(first, q);
      TotalConcat(ByPrefix(q), first, rest);
    }
  }

  lemma BucketAddRefines(s: EventState, buckets: Segments, width: nat, a: Activity)
    requires EventRefines(s, buckets)
    ensures var after, next := AddEvent(s, width, a.time, a.key, a.bytes), AddSegment(buckets, width, a);
            && SameSpans(after.buckets, next)
            && forall i :: 0 <= i < |next| ==> after.buckets[i].load == KeySums(next[i].load)
  {
    KeySumsLast(Pending(buckets, a.time, width, []), a);
  }

  lemma TotalsAddRefines(totals: map<string, u64>, live: seq<Activity>, a: Activity)
    requires forall q :: Get(totals, q) == Total(ByPrefix(q), live)
    requires Total(ByPrefix("/"), live + [a]) <= U64_MAX
    ensures forall q :: Get(Raised(totals, VisitsOf(a.key.path, a.bytes)), q) == Total(ByPrefix(q), live + [a])
  {
    forall q
      ensures Total(ByPrefix(q), live + [a]) == Get(totals, q) + Weigh(ByPrefix(q), a) <= U64_MAX
    {
      TotalLast(ByPrefix(q), live, a);
      forall b { RootWeighsMost(ByPrefix(q), b); }
      TotalCompare(ByPrefix(q), ByPrefix("/"), live + [a]);
    }
  }

  lemma EventAddRefines(s: EventState, buckets: Segments, width: nat, a: Activity)
    requires EventRefines(s, buckets) && a.bytes > 0
    requires Total(ByPrefix("/"), Live(AddSegment(buckets, width, a))) <= U64_MAX
    ensures EventRefines(AddEvent(s, width, a.time, a.key, a.bytes), AddSegment(buckets, width, a))
  {
    BucketAddRefines(s, buckets, width, a);
    LiveAdds(buckets, width, a);
    KeySumsLast(Live(buckets), a);
    RaisedPositive(s.prefixTotals, a.key.path, a.bytes);
    TotalsAddRefines(s.prefixTotals, Live(buckets), a);
  }

  lemma BytesFit(history: seq<Activity>)
    ensures Total(AllBytes, history) <= Total(ByPrefix("/"), history)
  {
    forall a { RootWeighsMost(AllBytes, a); }
    TotalCompare(AllBytes, ByPrefix("/"), history);
  }

  lemma RefinedLength(s: EventState, buckets: Segments)
    requires EventRefines(s, buckets)
    ensures |s.buckets| == |buckets|
  {
  }

  lemma EventStepRefines(s: EventState, buckets: Segments, window: nat, step: Step)
    requires EventRefines(s, buckets) && window > 0 && Total(AllBytes, Live(buckets)) <= U64_MAX
    requires var next := Advance(buckets, window, BucketWidth(window), step);
             |next| <= MAX_TIME_BUCKETS && Total(ByPrefix("/"), Live(next)) <= U64_MAX
    ensures EventRefines(EventStep(s, window, step), Advance(buckets, window, BucketWidth(window), step))
  {
    hide EventStep, EventRefines, AddEvent, AddSegment, ExpireEvents, Fresh;
    var cutoff := TimeOf(step) - window;
    EventExpiryRefines(s, buckets, cutoff);
    if Counts(step) {
      EventAddRefines(ExpireEvents(s, cutoff), Fresh(buckets, cutoff), BucketWidth(window), step.activity);
      RefinedLength(Added(s, window, step.activity), Advance(buckets, window, BucketWidth(window), step));
      StepAdds(s, window, step);
    } else {
      StepExpires(s, window, step);
    }
  }

  lemma {:induction false} EventRunRefines(run: seq<Step>, window: nat, now: int)
    requires Monotone(run) && NotAfter(run, now)
    requires 0 < window <= (MAX_TIME_BUCKETS - 1) * U64_MAX && Fits(run, window, ByPrefix("/"))
    ensures EventRefines(EventRun(run, window), Windowed(run, window, BucketWidth(window)))
    ensures Total(AllBytes, Live(Windowed(run, window, BucketWidth(window)))) <= U64_MAX
  {
    if run != [] {
      var rest, step := run[..|run| - 1], run[|run| - 1];
      FitsRest(run, window, ByPrefix("/"));
      EventRunRefines(rest, window, TimeOf(step));
      WindowedReady(run, window, now);
      EventStepRefines(EventRun(rest, window), Windowed(rest, window, BucketWidth(window)), window, step);
      BytesFit(Live(Windowed(run, window, BucketWidth(window))));
    }
  }

  // --- Main results ---

  ghost function LiveAt(run: seq<Step>, window: nat, now: int): Segments {
    Fresh(Windowed(run, window, BucketWidth(window)), now - window)
  }

  lemma RateAnswer(run: seq<Step>, window: nat, now: int)
    requires Monotone(run) && NotAfter(run, now)
    requires 0 < window <= (MAX_TIME_BUCKETS - 1) * U64_MAX && Fits(run, window, AllBytes)
    ensures QueryRate(RateRun(run, window), window, now).windowSum == Total(AllBytes, Live(LiveAt(run, window, now)))
  {
    hide BucketWidth;
    RateRunRefines(run, window, now);
    RateExpiryRefines(RateRun(run, window), Windowed(run, window, BucketWidth(window)), now - window);
  }

  /** A query of the tracker answers at least the bytes recorded within the window and at
      most those recorded within the window and one bucket. */
  lemma RateWithinWindow(run: seq<Step>, window: nat, now: int)
    requires Monotone(run) && NotAfter(run, now)
    requires 0 < window <= (MAX_TIME_BUCKETS - 1) * U64_MAX && Fits(run, window, AllBytes)
    ensures var answer := QueryRate(RateRun(run, window), window, now).windowSum;
            Total(Since(now - window), Happened(run)) <= answer
              <= Total(After(now - window - BucketWidth(window)), Happened(run))
  {
    hide *;
    RateAnswer(run, window, now);
    LiveSandwich(run, window, now);
    SumsInside(Happened(run), Live(LiveAt(run, window, now)), now - window, now - window - BucketWidth(window));
  }

  lemma LiveSandwich(run: seq<Step>, window: nat, now: int)
    requires Monotone(run) && NotAfter(run, now) && window > 0
    ensures var history, live := Happened(run), Live(LiveAt(run, window, now));
            && |live| <= |history| && live == history[|history| - |live|..]
            && (forall i :: 0 <= i < |history| - |live| ==> history[i].time < now - window)
            && (forall i :: 0 <= i < |live| ==> live[i].time > now - window - BucketWidth(window))
  {
    hide BucketWidth;
    WidthWithin(window);
    WindowSandwich(run, window, BucketWidth(window), now);
  }

  lemma SumsInside(history: seq<Activity>, live: seq<Activity>, cutoff: int, bound: int)
    requires |live| <= |history| && live == history[|history| - |live|..]
    requires forall i :: 0 <= i < |history| - |live| ==> history[i].time < cutoff
    requires forall i :: 0 <= i < |live| ==> live[i].time > bound
    ensures Total(Since(cutoff), history) <= Total(AllBytes, live) <= Total(After(bound), history)
  {
    var gone := history[..|history| - |live|];
    assert history == gone + live;
    SumsAround(gone, live, cutoff, bound);
  }

  lemma SumsAround(gone: seq<Activity>, live: seq<Activity>, cutoff: int, bound: int)
    requires forall a :: a in gone ==> a.time < cutoff
    requires forall a :: a in live ==> a.time > bound
    ensures Total(Since(cutoff), gone + live) <= Total(AllBytes, live) <= Total(After(bound), gone + live)
  {
    TotalConcat(Since(cutoff), gone, live);
    TotalConcat(After(bound), gone, live);
    TotalCompare(Since(cutoff), AllBytes, live);
    TotalCompare(AllBytes, After(bound), live);
    NothingSince(gone, cutoff);
  }

  lemma {:induction false} NothingSince(gone: seq<Activity>, cutoff: int)
    requires forall a :: a in gone ==> a.time < cutoff
    ensures Total(Since(cutoff), gone) == 0
  {
    if gone != [] { NothingSince(gone[..|gone| - 1], cutoff); }
  }

  lemma EventQueryRefines(run: seq<Step>, window: nat, now: int)
    requires Monotone(run) && NotAfter(run, now)
    requires 0 < window <= (MAX_TIME_BUCKETS - 1) * U64_MAX && Fits(run, window, ByPrefix("/"))
    ensures EventRefines(QueryEvents(EventRun(run, window), window, now), LiveAt(run, window, now))
    ensures Total(AllBytes, Live(LiveAt(run, window, now))) <= U64_MAX
  {
    hide EventRefines, ExpireEvents, Fresh;
    EventRunRefines(run, window, now);
    EventExpiryRefines(EventRun(run, window), Windowed(run, window, BucketWidth(window)), now - window);
    FreshWeighsLess(Windowed(run, window, BucketWidth(window)), now - window);
  }

  lemma FreshWeighsLess(buckets: Segments, cutoff: int)
    ensures Total(AllBytes, Live(Fresh(buckets, cutoff))) <= Total(AllBytes, Live(buckets))
  {
    var gone := Expired(buckets, cutoff);
    LiveSplit(buckets, gone);
    TotalConcat(AllBytes, Live(buckets[..gone]), Live(buckets[gone..]));
  }

  /** The part of a table on paths that match a prefix, and on paths with a double slash. */
  ghost function Matching(activities: Amounts, q: string): map<ActivityKey, nat> {
    map k | k in activities && MatchesPrefix(k.path, q) :: activities[k]
  }

  ghost function Doubled(activities: Amounts): map<ActivityKey, nat> {
    map k | k in activities && DoubleSlash(k.path) :: activities[k]
  }

  lemma {:induction false} ChargeIsScan(activities: Amounts, q: string)
    requires q != ""
    ensures Charge(activities, q) == MapSum(Matching(activities, q)) + if q == "/" then MapSum(Doubled(activities)) else 0
    decreases |activities|
  {
    if activities == map[] {
      assert Shares(activities, q) == map[] && Matching(activities, q) == map[] && Doubled(activities) == map[];
    } else {
      var k :| k in activities;
      var rest := activities - {k};
      ChargeIsScan(rest, q);
      assert activities == rest[k := activities[k]];
      ChargeStep(rest, k, activities[k], q);
      VisitsExactly(k.path, activities[k], q);
      ScanStep(rest, k, activities[k], q);
    }
  }

  lemma ScanStep(rest: Amounts, k: ActivityKey, bytes: u64, q: string)
    requires k !in rest
    ensures MapSum(Matching(rest[k := bytes], q)) == MapSum(Matching(rest, q)) + if MatchesPrefix(k.path, q) then bytes else 0
    ensures MapSum(Doubled(rest[k := bytes])) == MapSum(Doubled(rest)) + if DoubleSlash(k.path) then bytes else 0
  {
    if MatchesPrefix(k.path, q) {
      assert Matching(rest[k := bytes], q) == Matching(rest, q)[k := bytes];
      MapSumUpdate(Matching(rest, q), k, bytes);
    } else {
      assert Matching(rest[k := bytes], q) == Matching(rest, q);
    }
    if DoubleSlash(k.path) {
      assert Doubled(rest[k := bytes]) == Doubled(rest)[k := bytes];
      MapSumUpdate(Doubled(rest), k, bytes);
    } else {
      assert Doubled(rest[k := bytes]) == Doubled(rest);
    }
  }

  /** The prefix index answers what a scan of the activities would, for every non-empty
      prefix; the root alone counts paths that start with two slashes twice. */
  lemma PrefixIndexIsScan(run: seq<Step>, window: nat, now: int, q: string)
    requires Monotone(run) && NotAfter(run, now) && q != ""
    requires 0 < window <= (MAX_TIME_BUCKETS - 1) * U64_MAX && Fits(run, window, ByPrefix("/"))
    ensures var s := QueryEvents(EventRun(run, window), window, now);
            Get(s.prefixTotals, q) == MapSum(Matching(s.activities, q)) + if q == "/" then MapSum(Doubled(s.activities)) else 0
  {
    var s, live := QueryEvents(EventRun(run, window), window, now), Live(LiveAt(run, window, now));
    EventQueryRefines(run, window, now);
    ChargeExact(live, q);
    ChargeIsScan(s.activities, q);
  }

  /** The index and the scan agree on the root exactly when no live path starts with two
      slashes. */
  lemma RootIndexExactIff(run: seq<Step>, window: nat, now: int)
    requires Monotone(run) && NotAfter(run, now)
    requires 0 < window <= (MAX_TIME_BUCKETS - 1) * U64_MAX && Fits(run, window, ByPrefix("/"))
    ensures var s := QueryEvents(EventRun(run, window), window, now);
            Get(s.prefixTotals, "/") == MapSum(Matching(s.activities, "/"))
            <==> forall k :: k in s.activities ==> !DoubleSlash(k.path)
  {
    var s, live := QueryEvents(EventRun(run, window), window, now), Live(LiveAt(run, window, now));
    PrefixIndexIsScan(run, window, now, "/");
    EventQueryRefines(run, window, now);
    forall k { KeySumsExact(live, k); }
    if k :| k in s.activities && DoubleSlash(k.path) {
      MapSumRemove(Doubled(s.activities), k);
    } else {
      assert Doubled(s.activities) == map[];
    }
  }

  lemma EventAnswer(run: seq<Step>, window: nat, now: int, q: string)
    requires Monotone(run) && NotAfter(run, now)
    requires 0 < window <= (MAX_TIME_BUCKETS - 1) * U64_MAX && Fits(run, window, ByPrefix("/"))
    ensures var s := QueryEvents(EventRun(run, window), window, now);
            && Get(s.prefixTotals, q) == Total(ByPrefix(q), Live(LiveAt(run, window, now)))
            && s.activities == KeySums(Live(LiveAt(run, window, now)))
            && Positive(s.prefixTotals) && |s.buckets| == |LiveAt(run, window, now)|
  {
    EventQueryRefines(run, window, now);
  }

  lemma LiveDependsOnHistory(run: seq<Step>, other: seq<Step>, window: nat, now: int)
    requires Monotone(run) && NotAfter(run, now) && Monotone(other) && NotAfter(other, now)
    requires Happened(run) == Happened(other) && window > 0
    ensures LiveAt(run, window, now) == LiveAt(other, window, now)
  {
    WidthWithin(window);
    LazyIsEager(run, window, BucketWidth(window), now);
    LazyIsEager(other, window, BucketWidth(window), now);
  }

  ghost predicate SingleSlashes(history: seq<Activity>) { forall a :: a in history ==> !DoubleSlash(a.key.path) }

  lemma RootCountsOnce(history: seq<Activity>)
    requires SingleSlashes(history)
    ensures Total(AllBytes, history) == Total(ByPrefix("/"), history)
  {
    forall a | a in history
      ensures Weigh(AllBytes, a) == Weigh(ByPrefix("/"), a)
    {
      VisitsExactly(a.key.path, a.bytes, "/");
    }
    TotalCompare(AllBytes, ByPrefix("/"), history);
    TotalCompare(ByPrefix("/"), AllBytes, history);
  }

  /** The global rate is the rate of the root, however the two were queried in between. */
  lemma GlobalIsRoot(tracked: seq<Step>, logged: seq<Step>, window: nat, now: int)
    requires Monotone(tracked) && NotAfter(tracked, now) && Monotone(logged) && NotAfter(logged, now)
    requires Happened(tracked) == Happened(logged)
    requires 0 < window <= (MAX_TIME_BUCKETS - 1) * U64_MAX
    requires Fits(tracked, window, AllBytes) && Fits(logged, window, ByPrefix("/"))
    requires SingleSlashes(Happened(logged))
    ensures QueryRate(RateRun(tracked, window), window, now).windowSum
         == Get(QueryEvents(EventRun(logged, window), window, now).prefixTotals, "/")
  {
    hide *;
    LiveDependsOnHistory(tracked, logged, window, now);
    RateAnswer(tracked, window, now);
    EventAnswer(logged, window, now, "/");
    LiveSlashes(logged, window, now);
    RootCountsOnce(Live(LiveAt(logged, window, now)));
  }

  lemma LiveHappened(run: seq<Step>, window: nat, now: int)
    requires Monotone(run) && NotAfter(run, now) && window > 0
    ensures forall a :: a in Live(LiveAt(run, window, now)) ==> a in Happened(run)
  {
    LiveSandwich(run, window, now);
  }

  lemma LiveSlashes(run: seq<Step>, window: nat, now: int)
    requires Monotone(run) && NotAfter(run, now) && window > 0 && SingleSlashes(Happened(run))
    ensures SingleSlashes(Live(LiveAt(run, window, now)))
  {
    hide Live, LiveAt, DoubleSlash, Happened;
    LiveHappened(run, window, now);
  }

  lemma NothingLive(run: seq<Step>, window: nat, now: int)
    requires Monotone(run) && NotAfter(run, now) && window > 0
    requires forall a :: a in Happened(run) ==> a.time < now - window
    ensures LiveAt(run, window, now) == []
  {
    var all := Bucketize(Happened(run), BucketWidth(window));
    WidthWithin(window);
    HappenedOrdered(run, now);
    Bucketized(Happened(run), BucketWidth(window), now - window - 1);
    ExpiredMeans(all, now - window, |all|);
    LazyIsEager(run, window, BucketWidth(window), now);
  }

  /** Once all activity has left the window, the log holds nothing at all. */
  lemma EventuallyQuiet(run: seq<Step>, window: nat, now: int)
    requires Monotone(run) && NotAfter(run, now)
    requires 0 < window <= (MAX_TIME_BUCKETS - 1) * U64_MAX && Fits(run, window, ByPrefix("/"))
    requires forall a :: a in Happened(run) ==> a.time < now - window
    ensures QueryEvents(EventRun(run, window), window, now) == QUIET
  {
    hide BucketWidth, Fits, LiveAt, QueryEvents;
    var s := QueryEvents(EventRun(run, window), window, now);
    NothingLive(run, window, now);
    forall q
      ensures Get(s.prefixTotals, q) == 0
    {
      EventAnswer(run, window, now, q);
    }
    EventAnswer(run, window, now, "/");
    assert forall q :: q in s.prefixTotals ==> Get(s.prefixTotals, q) > 0;
  }
}
