/** The window sandwich for everything that is asked of the event log: prefix lookups and
    filtered scans. */
module RateWindows {
  import opened Saturating
  import opened Buckets
  import opened EventLogging
  import opened RateRuns
  import opened RateTheorems
  import opened RateAnswers
  import opened Counting
  import opened Filter
  import opened Paths
  import opened Spelling
  import Processes

  lemma {:induction false} KeyHappened(history: seq<Activity>, k: ActivityKey)
    requires k in KeySums(history)
    ensures exists a :: a in history && a.key == k
    decreases |history|
  {
    hide Get;
    var rest, last := history[..|history| - 1], history[|history| - 1];
    if last.key != k { KeyHappened(rest, k); }
  }

  lemma NoneDoubled(run: seq<Step>, window: nat, now: int)
    requires Monotone(run) && NotAfter(run, now) && SingleSlashes(Happened(run))
    requires 0 < window <= (MAX_TIME_BUCKETS - 1) * U64_MAX && Fits(run, window, ByPrefix("/"))
    ensures MapSum(Doubled(QueryEvents(EventRun(run, window), window, now).activities)) == 0
  {
    var activities := QueryEvents(EventRun(run, window), window, now).activities;
    hide BucketWidth, Fits, LiveAt, QueryEvents, KeySums, DoubleSlash, Live;
    EventAnswer(run, window, now, "/");
    LiveHappened(run, window, now);
    forall k | k in activities
      ensures !DoubleSlash(k.path)
    {
      KeyHappened(Live(LiveAt(run, window, now)), k);
    }
    assert Doubled(activities) == map[];
  }

  lemma {:induction false} NoKeysSince(gone: seq<Activity>, keys: ActivityKey -> bool, cutoff: int)
    requires forall a :: a in gone ==> a.time < cutoff
    ensures Total(KeysSince(keys, cutoff), gone) == 0
  {
    if gone != [] { NoKeysSince(gone[..|gone| - 1], keys, cutoff); }
  }

  lemma KeysAround(gone: seq<Activity>, live: seq<Activity>, keys: ActivityKey -> bool, cutoff: int, bound: int)
    requires forall a :: a in gone ==> a.time < cutoff
    requires forall a :: a in live ==> a.time > bound
    ensures Total(KeysSince(keys, cutoff), gone + live) <= Total(Keys(keys), live)
    ensures Total(Keys(keys), live) <= Total(KeysAfter(keys, bound), gone + live)
  {
    TotalConcat(KeysSince(keys, cutoff), gone, live);
    TotalConcat(KeysAfter(keys, bound), gone, live);
    TotalCompare(KeysSince(keys, cutoff), Keys(keys), live);
    TotalCompare(Keys(keys), KeysAfter(keys, bound), live);
    NoKeysSince(gone, keys, cutoff);
  }

  lemma KeysInside(history: seq<Activity>, live: seq<Activity>, keys: ActivityKey -> bool, cutoff: int, bound: int)
    requires |live| <= |history| && live == history[|history| - |live|..]
    requires forall i :: 0 <= i < |history| - |live| ==> history[i].time < cutoff
    requires forall i :: 0 <= i < |live| ==> live[i].time > bound
    ensures Total(KeysSince(keys, cutoff), history) <= Total(Keys(keys), live) <= Total(KeysAfter(keys, bound), history)
  {
    var gone := history[..|history| - |live|];
    assert history == gone + live;
    KeysAround(gone, live, keys, cutoff, bound);
  }

  /** The part of a table under some keys. */
  ghost function Picked(activities: Amounts, keys: ActivityKey -> bool): map<ActivityKey, nat> {
    map k | k in activities && keys(k) :: activities[k]
  }

  lemma PickedPlus(activities: Amounts, keys: ActivityKey -> bool, k: ActivityKey, bytes: u64)
    requires Get(activities, k) + bytes <= U64_MAX
    ensures MapSum(Picked(Plus(activities, k, bytes), keys)) == MapSum(Picked(activities, keys)) + if keys(k) then bytes else 0
  {
    var before, after := Picked(activities, keys), Picked(Plus(activities, k, bytes), keys);
    if keys(k) {
      assert after == before[k := Get(activities, k) + bytes];
      MapSumUpdate(before, k, Get(activities, k) + bytes);
    } else {
      assert after == before;
    }
  }

  lemma {:induction false} PickedTotal(history: seq<Activity>, keys: ActivityKey -> bool)
    requires Total(AllBytes, history) <= U64_MAX && AllCount(history)
    ensures MapSum(Picked(KeySums(history), keys)) == Total(Keys(keys), history)
    decreases |history|
  {
    hide Picked, Plus, Get;
    if history == [] {
      NothingPicked(keys);
    } else {
      var rest, last := history[..|history| - 1], history[|history| - 1];
      assert history == rest + [last];
      AllCountSplit(rest, [last]);
      PickedTotal(rest, keys);
      KeySumsExact(rest, last.key);
      PickedPlus(KeySums(rest), keys, last.key, last.bytes);
    }
  }

  lemma NothingPicked(keys: ActivityKey -> bool)
    ensures MapSum(Picked(map[], keys)) == 0
  {
    assert Picked(map[], keys) == map[];
  }

  /** What a query of the log finds under any keys is at least what was recorded under them
      within the window, at most what was recorded within the window and one bucket, and
      never overflows. */
  lemma KeysWithinWindow(run: seq<Step>, window: nat, now: int, keys: ActivityKey -> bool)
    requires Monotone(run) && NotAfter(run, now)
    requires 0 < window <= (MAX_TIME_BUCKETS - 1) * U64_MAX && Fits(run, window, ByPrefix("/"))
    ensures var answer := MapSum(Picked(QueryEvents(EventRun(run, window), window, now).activities, keys));
            && Total(KeysSince(keys, now - window), Happened(run)) <= answer
            && answer <= Total(KeysAfter(keys, now - window - BucketWidth(window)), Happened(run))
            && answer <= U64_MAX
  {
    var live := Live(LiveAt(run, window, now));
    hide *;
    EventAnswer(run, window, now, "/");
    EventQueryRefines(run, window, now);
    LiveSandwich(run, window, now);
    LiveCounts(run, window, now);
    PickedTotal(live, keys);
    KeysInside(Happened(run), live, keys, now - window, now - window - BucketWidth(window));
    KeysWeighLess(live, keys);
  }

  lemma KeysWeighLess(history: seq<Activity>, keys: ActivityKey -> bool)
    ensures Total(Keys(keys), history) <= Total(AllBytes, history)
  {
    TotalCompare(Keys(keys), AllBytes, history);
  }

  lemma {:induction false} HappenedCounts(run: seq<Step>)
    ensures AllCount(Happened(run))
  {
    if run != [] { HappenedCounts(run[..|run| - 1]); }
  }

  lemma LiveCounts(run: seq<Step>, window: nat, now: int)
    requires Monotone(run) && NotAfter(run, now) && window > 0
    ensures AllCount(Live(LiveAt(run, window, now)))
  {
    HappenedCounts(run);
    LiveHappened(run, window, now);
    hide Live, LiveAt, Happened;
  }

  function Under(q: string): ActivityKey -> bool { (k: ActivityKey) => MatchesPrefix(k.path, q) }

  function Shown(q: string, query: Query, processes: Processes.Table): ActivityKey -> bool {
    (k: ActivityKey) => MatchesPrefix(k.path, q) && Matches(query, k.path, k.pid, Processes.Lookup(processes, k.pid))
  }

  /** A prefix in its canonical spelling stands for the subtree of its place: its rate is that
      of the activities below it. */
  lemma PrefixIsSubtree(path: string, q: string)
    requires Canonical(path) && Canonical(q)
    ensures MatchesPrefix(path, q) <==> Above(Place(q), Place(path))
  {
    AboveIffPrefix(Components(q), Components(path));
    RootAbove(Place(path));
    RootIffNone(q);
    if q != "/" { PrefixStrings(q, path); }
    hide Components, Canonical, Above;
  }

  /** The index lookup for a prefix stays within the window. */
  lemma PrefixWithinWindow(run: seq<Step>, window: nat, now: int, q: string)
    requires Monotone(run) && NotAfter(run, now) && q != "" && (q == "/" ==> SingleSlashes(Happened(run)))
    requires 0 < window <= (MAX_TIME_BUCKETS - 1) * U64_MAX && Fits(run, window, ByPrefix("/"))
    ensures var answer := Get(QueryEvents(EventRun(run, window), window, now).prefixTotals, q);
            && Total(KeysSince(Under(q), now - window), Happened(run)) <= answer
            && answer <= Total(KeysAfter(Under(q), now - window - BucketWidth(window)), Happened(run))
  {
    var s := QueryEvents(EventRun(run, window), window, now);
    assert Picked(s.activities, Under(q)) == Matching(s.activities, q);
    hide *;
    KeysWithinWindow(run, window, now, Under(q));
    PrefixIndexIsScan(run, window, now, q);
    if q == "/" { NoneDoubled(run, window, now); }
  }

  /** The scan of a filtered query stays within the window, and its sum fits into 64 bits. */
  lemma FilteredWithinWindow(run: seq<Step>, window: nat, now: int, q: string, query: Query, processes: Processes.Table)
    requires Monotone(run) && NotAfter(run, now)
    requires 0 < window <= (MAX_TIME_BUCKETS - 1) * U64_MAX && Fits(run, window, ByPrefix("/"))
    ensures var answer := MapSum(Selected(QueryEvents(EventRun(run, window), window, now).activities, q, query, processes));
            var keys := Shown(q, query, processes);
            && Total(KeysSince(keys, now - window), Happened(run)) <= answer
            && answer <= Total(KeysAfter(keys, now - window - BucketWidth(window)), Happened(run))
            && answer <= U64_MAX
  {
    var s := QueryEvents(EventRun(run, window), window, now);
    assert Picked(s.activities, Shown(q, query, processes)) == Selected(s.activities, q, query, processes);
    hide *;
    KeysWithinWindow(run, window, now, Shown(q, query, processes));
  }
}
