/** Every reachable application state: batches of events, rate queries, losses and resets in
    any order. */
module AppRuns {
  import opened Saturating
  import opened Paths
  import opened Tree
  import opened Attribution
  import opened Ledgers
  import opened Coalescing
  import opened App
  import opened AppLaws
  import opened Provenance
  import opened Spelling
  import opened Tidying
  import RateTracking
  import EventLogging
  import opened RateRuns
  import opened RateTheorems
  import opened RateAnswers
  import opened RateWindows
  import Filter
  import Buckets
  import Counting

  type Run = seq<RateRuns.Step>

  datatype Turn =
    | Batch(world: World, events: seq<Event>, now: int)
    | AskRate(at: int)
    | AskLog(at: int)
    | Lost
    | Rediscovered
    | Cleared

  const BLANK := Core(Memory(map[], map[], map[]),
                      Ledger(EMPTY, map[], RateTracking.IDLE, EventLogging.QUIET, 0, 0))

  /** One turn: a batch is ingested, a query expires old activity, losses discard cached
      attribution, rediscovery forgets container names, a reset keeps nothing but memory. */
  ghost function Turned(window: nat, c: Core, turn: Turn): Core {
    match turn
    case Batch(world, events, now) => Singles(Env(world, window, now), c, events)
    case AskRate(at) => c.(ledger := c.ledger.(rate := RateTracking.QueryRate(c.ledger.rate, window, at)))
    case AskLog(at) => c.(ledger := c.ledger.(log := EventLogging.QueryEvents(c.ledger.log, window, at)))
    case Lost => c.(memory := c.memory.(paths := map[], roots := map[]))
    case Rediscovered => c.(memory := c.memory.(names := map[]))
    case Cleared => BLANK.(memory := c.memory)
  }

  ghost function Reached(window: nat, turns: seq<Turn>): Core {
    if turns == [] then BLANK else Turned(window, Reached(window, turns[..|turns| - 1]), turns[|turns| - 1])
  }

  /** The clock never runs backwards and now shows `now`. */
  ghost predicate Clocked(turns: seq<Turn>, now: int) {
    turns == [] ||
    var rest, turn := turns[..|turns| - 1], turns[|turns| - 1];
    match turn
    case Batch(_, _, t) => t <= now && Clocked(rest, t)
    case AskRate(t) => t <= now && Clocked(rest, t)
    case AskLog(t) => t <= now && Clocked(rest, t)
    case _ => Clocked(rest, now)
  }

  // --- The rate structures follow one history ---

  ghost function StepsOf(u: Update, now: int): Run {
    if u.activity.Some? && u.activity.value.bytes.Some? then
      var a := u.activity.value;
      [Record(RateRuns.Activity(now, EventLogging.ActivityKey(a.path, a.pid), a.bytes.value))]
    else []
  }

  /** What a batch records for the rates. */
  ghost function Records(env: Env, c: Core, events: seq<Event>): Run {
    if events == [] then []
    else
      var rest := events[..|events| - 1];
      Records(env, c, rest) + StepsOf(UpdateOf(env, Singles(env, c, rest).memory, events[|events| - 1]), env.now)
  }

  /** What has happened to the rate tracker, and to the event log, since the last reset. */
  ghost function Tracked(window: nat, turns: seq<Turn>): Run {
    if turns == [] then []
    else
      var rest, turn := turns[..|turns| - 1], turns[|turns| - 1];
      match turn
      case Batch(world, events, now) =>
        Tracked(window, rest) + Records(Env(world, window, now), Reached(window, rest), events)
      case AskRate(at) => Tracked(window, rest) + [Query(at)]
      case Cleared => []
      case _ => Tracked(window, rest)
  }

  ghost function Logged(window: nat, turns: seq<Turn>): Run {
    if turns == [] then []
    else
      var rest, turn := turns[..|turns| - 1], turns[|turns| - 1];
      match turn
      case Batch(world, events, now) =>
        Logged(window, rest) + Records(Env(world, window, now), Reached(window, rest), events)
      case AskLog(at) => Logged(window, rest) + [Query(at)]
      case Cleared => []
      case _ => Logged(window, rest)
  }

  lemma RunNext(run: Run, step: RateRuns.Step, window: nat)
    ensures RateRun(run + [step], window) == RateStep(RateRun(run, window), window, step)
    ensures EventRun(run + [step], window) == RateTheorems.EventStep(EventRun(run, window), window, step)
    ensures Happened(run + [step]) == Happened(run) + if Counts(step) then [step.activity] else []
  {
    assert (run + [step])[..|run|] == run;
  }

  lemma EmitRates(env: Env, l: Ledger, u: Update, run: Run)
    ensures l.rate == RateRun(run, env.window)
        ==> Emit(env, l, u).rate == RateRun(run + StepsOf(u, env.now), env.window)
    ensures l.log == EventRun(run, env.window)
        ==> Emit(env, l, u).log == EventRun(run + StepsOf(u, env.now), env.window)
  {
    hide RateTracking.RecordRate, EventLogging.RecordEvent, RateRun, EventRun;
    if StepsOf(u, env.now) == [] {
      assert run + [] == run;
    } else {
      RunNext(run, StepsOf(u, env.now)[0], env.window);
    }
  }

  lemma SingleByUpdate(env: Env, c: Core, e: Event)
    ensures var after, emitted := Single(env, c, e).ledger, Emit(env, c.ledger, UpdateOf(env, c.memory, e));
            after.rate == emitted.rate && after.log == emitted.log
  {
    hide Activate, Attribution.EventStep, GroupStep;
  }

  lemma {:induction false} BatchRates(env: Env, c: Core, events: seq<Event>, run: Run)
    ensures c.ledger.rate == RateRun(run, env.window)
        ==> Singles(env, c, events).ledger.rate == RateRun(run + Records(env, c, events), env.window)
    ensures c.ledger.log == EventRun(run, env.window)
        ==> Singles(env, c, events).ledger.log == EventRun(run + Records(env, c, events), env.window)
    decreases |events|
  {
    hide Single, RateRun, EventRun, UpdateOf, StepsOf, Emit;
    if events == [] {
      assert run + [] == run;
    } else {
      var rest, e := events[..|events| - 1], events[|events| - 1];
      var before := Singles(env, c, rest);
      var steps := StepsOf(UpdateOf(env, before.memory, e), env.now);
      BatchRates(env, c, rest, run);
      SingleByUpdate(env, before, e);
      EmitRates(env, before.ledger, UpdateOf(env, before.memory, e), run + Records(env, c, rest));
      assert run + Records(env, c, rest) + steps == run + (Records(env, c, rest) + steps);
    }
  }

  /** Both rate structures are what their histories make of them. */
  lemma {:induction false} RatesFollow(window: nat, turns: seq<Turn>)
    ensures Reached(window, turns).ledger.rate == RateRun(Tracked(window, turns), window)
    ensures Reached(window, turns).ledger.log == EventRun(Logged(window, turns), window)
    decreases |turns|
  {
    hide Singles, Records;
    if turns != [] {
      var rest, turn := turns[..|turns| - 1], turns[|turns| - 1];
      RatesFollow(window, rest);
      match turn {
        case Batch(world, events, now) =>
          BatchRates(Env(world, window, now), Reached(window, rest), events, Tracked(window, rest));
          BatchRates(Env(world, window, now), Reached(window, rest), events, Logged(window, rest));
        case AskRate(at) => RunNext(Tracked(window, rest), Query(at), window);
        case AskLog(at) => RunNext(Logged(window, rest), Query(at), window);
        case _ =>
      }
    }
  }

  lemma {:induction false} HappenedConcat(a: Run, b: Run)
    ensures Happened(a + b) == Happened(a) + Happened(b)
    decreases |b|
  {
    if b == [] {
      assert a + b == a;
    } else {
      assert (a + b)[..|a + b| - 1] == a + b[..|b| - 1];
      HappenedConcat(a, b[..|b| - 1]);
    }
  }

  /** The same activity reaches both structures. */
  lemma {:induction false} SameHistory(window: nat, turns: seq<Turn>)
    ensures Happened(Tracked(window, turns)) == Happened(Logged(window, turns))
    decreases |turns|
  {
    hide Records, Reached;
    if turns != [] {
      var rest, turn := turns[..|turns| - 1], turns[|turns| - 1];
      SameHistory(window, rest);
      match turn {
        case Batch(world, events, now) =>
          var records := Records(Env(world, window, now), Reached(window, rest), events);
          HappenedConcat(Tracked(window, rest), records);
          HappenedConcat(Logged(window, rest), records);
        case AskRate(at) => RunNext(Tracked(window, rest), Query(at), window);
        case AskLog(at) => RunNext(Logged(window, rest), Query(at), window);
        case _ =>
      }
    }
  }

  // --- Time ---

  lemma {:induction false} RecordsAt(env: Env, c: Core, events: seq<Event>)
    ensures forall i :: 0 <= i < |Records(env, c, events)| ==> TimeOf(Records(env, c, events)[i]) == env.now
    decreases |events|
  {
    hide UpdateOf, Singles;
    if events != [] { RecordsAt(env, c, events[..|events| - 1]); }
  }

  lemma LaterSteps(run: Run, more: Run, t: int, now: int)
    requires Monotone(run) && NotAfter(run, t) && t <= now
    requires forall i :: 0 <= i < |more| ==> TimeOf(more[i]) == t
    ensures Monotone(run + more) && NotAfter(run + more, now)
  {
  }

  lemma {:induction false} HistoriesOrdered(window: nat, turns: seq<Turn>, now: int)
    requires Clocked(turns, now)
    ensures Monotone(Tracked(window, turns)) && NotAfter(Tracked(window, turns), now)
    ensures Monotone(Logged(window, turns)) && NotAfter(Logged(window, turns), now)
    decreases |turns|
  {
    hide Records, Reached, Monotone, NotAfter;
    if turns == [] {
      NoSteps(now);
    } else {
      var rest, turn := turns[..|turns| - 1], turns[|turns| - 1];
      var t := if turn.Batch? then turn.now else if turn.AskRate? || turn.AskLog? then turn.at else now;
      HistoriesOrdered(window, rest, t);
      NoSteps(now);
      LaterSteps(Tracked(window, rest), [], t, now);
      LaterSteps(Logged(window, rest), [], t, now);
      assert Tracked(window, rest) + [] == Tracked(window, rest) && Logged(window, rest) + [] == Logged(window, rest);
      match turn {
        case Batch(world, events, _) =>
          var env, c := Env(world, window, t), Reached(window, rest);
          RecordsAt(env, c, events);
          LaterSteps(Tracked(window, rest), Records(env, c, events), t, now);
          LaterSteps(Logged(window, rest), Records(env, c, events), t, now);
        case AskRate(_) => LaterSteps(Tracked(window, rest), [Query(t)], t, now);
        case AskLog(_) => LaterSteps(Logged(window, rest), [Query(t)], t, now);
        case _ =>
      }
    }
  }

  lemma NoSteps(now: int)
    ensures Monotone([]) && NotAfter([], now)
  {
  }

  // --- Spellings ---

  ghost predicate TidyTurns(turns: seq<Turn>) {
    forall i :: 0 <= i < |turns| && turns[i].Batch? ==> TidyWorld(turns[i].world)
  }

  lemma EmittedSlashes(u: Update, now: int)
    requires Emits(Canonical, u)
    ensures SingleSlashes(Happened(StepsOf(u, now)))
  {
    hide *;
    EmittedSteps(u, now);
    if StepsOf(u, now) == [] {
      NoSlashes();
    } else {
      var a := u.activity.value;
      EmittedPath(u);
      OneSlashes(StepsOf(u, now)[0], a.path);
    }
  }

  lemma EmittedSteps(u: Update, now: int)
    ensures var steps := StepsOf(u, now);
            steps == [] || (u.activity.Some? && |steps| == 1 && steps == [steps[0]] && steps[0].Record?
                            && steps[0].activity.key.path == u.activity.value.path)
  {
  }

  lemma EmittedPath(u: Update)
    requires Emits(Canonical, u) && u.activity.Some?
    ensures !EventLogging.DoubleSlash(u.activity.value.path)
  {
    var a := u.activity.value;
    hide Canonical, Decorate, Paths.Components;
    var p :| Canonical(p) && a.path == Decorate(a.container, p);
    DecoratedComponents(a.container, p);
  }

  lemma OneSlashes(step: RateRuns.Step, path: string)
    requires step.Record? && step.activity.key.path == path && !EventLogging.DoubleSlash(path)
    ensures SingleSlashes(Happened([step]))
  {
    hide EventLogging.DoubleSlash;
    RunNext([], step, 0);
    assert [] + [step] == [step];
    assert Happened([]) == [];
  }

  lemma SlashesConcat(a: Run, b: Run)
    requires SingleSlashes(Happened(a)) && SingleSlashes(Happened(b))
    ensures SingleSlashes(Happened(a + b))
  {
    HappenedConcat(a, b);
  }

  lemma SingleTidy(env: Env, c: Core, e: Event)
    requires TidyWorld(env.world) && TidyPaths(c.memory.paths)
    ensures TidyPaths(Single(env, c, e).memory.paths) && Emits(Canonical, UpdateOf(env, c.memory, e))
  {
    hide Canonical, Emit, Gives, Remembers, Decorates, Attribution.EventStep, GroupStep;
    if e.LifecycleEvent? {
      EventKeeps(Canonical, env.world, c.memory, e.event);
    } else if e.result > 0 {
      GroupKeeps(Canonical, env.world, c.memory, NewGroup(KeyOf(e), e.bytes, e.latency));
    }
  }

  lemma {:induction false} BatchTidy(env: Env, c: Core, events: seq<Event>)
    requires TidyWorld(env.world) && TidyPaths(c.memory.paths)
    ensures TidyPaths(Singles(env, c, events).memory.paths) && SingleSlashes(Happened(Records(env, c, events)))
    decreases |events|
  {
    hide Single, UpdateOf, StepsOf, TidyWorld, TidyPaths, SingleSlashes, Happened, Emits;
    if events == [] {
      NoSlashes();
    } else {
      var rest, e := events[..|events| - 1], events[|events| - 1];
      BatchTidy(env, c, rest);
      var before := Singles(env, c, rest);
      SingleTidy(env, before, e);
      EmittedSlashes(UpdateOf(env, before.memory, e), env.now);
      SlashesConcat(Records(env, c, rest), StepsOf(UpdateOf(env, before.memory, e), env.now));
    }
  }

  lemma NoSlashes()
    ensures SingleSlashes(Happened([])) && TidyPaths(map[])
  {
  }

  /** No recorded path ever starts with two slashes. */
  lemma {:induction false} ReachedTidy(window: nat, turns: seq<Turn>)
    requires TidyTurns(turns)
    ensures TidyPaths(Reached(window, turns).memory.paths)
    ensures SingleSlashes(Happened(Tracked(window, turns))) && SingleSlashes(Happened(Logged(window, turns)))
    decreases |turns|
  {
    hide Singles, Records, TidyWorld, TidyPaths, SingleSlashes, Happened;
    NoSlashes();
    if turns != [] {
      var rest, turn := turns[..|turns| - 1], turns[|turns| - 1];
      ReachedTidy(window, rest);
      match turn {
        case Batch(world, events, now) =>
          var env, c := Env(world, window, now), Reached(window, rest);
          BatchTidy(env, c, events);
          SlashesConcat(Tracked(window, rest), Records(env, c, events));
          SlashesConcat(Logged(window, rest), Records(env, c, events));
        case AskRate(at) => QuerySlashes(Tracked(window, rest), at);
        case AskLog(at) => QuerySlashes(Logged(window, rest), at);
        case _ =>
      }
    }
  }

  lemma QuerySlashes(run: Run, at: int)
    requires SingleSlashes(Happened(run))
    ensures SingleSlashes(Happened(run + [Query(at)]))
  {
    RunNext(run, Query(at), 0);
  }

  // --- Invariants of every reachable state ---

  lemma {:induction false} BatchCalm(env: Env, c: Core, events: seq<Event>)
    requires Calm(env, c)
    ensures Calm(env, Singles(env, c, events))
    decreases |events|
  {
    hide Calm, RecordGroup, ApplyEvent;
    if events != [] {
      var rest, e := events[..|events| - 1], events[|events| - 1];
      BatchCalm(env, c, rest);
      var before := Singles(env, c, rest);
      if e.LifecycleEvent? {
        ApplyEventCalm(env, before, e.event);
      } else if e.result > 0 {
        RecordGroupCalm(env, before, NewGroup(KeyOf(e), e.bytes, e.latency));
      }
    }
  }

  lemma CalmAtRest(env: Env, c: Core)
    requires c.ledger.rate == RateTracking.IDLE && c.ledger.log == EventLogging.QUIET
    requires env.window <= (Buckets.MAX_TIME_BUCKETS - 1) * U64_MAX
    ensures Calm(env, c)
  {
  }

  lemma CalmIs(env: Env, c: Core)
    ensures Calm(env, c)
       <==> Buckets.Ready(c.ledger.rate.buckets, env.window, env.now) && Buckets.Ready(c.ledger.log.buckets, env.window, env.now)
  {
  }

  /** The next batch always finds the rate structures as ingestion expects them. */
  lemma {:induction false} ReachedCalm(window: nat, turns: seq<Turn>, env: Env)
    requires Clocked(turns, env.now) && env.window == window <= (Buckets.MAX_TIME_BUCKETS - 1) * U64_MAX
    ensures Calm(env, Reached(window, turns))
    decreases |turns|
  {
    hide Singles, Calm, Buckets.Ready, RateTracking.ExpireRate, EventLogging.ExpireEvents;
    if turns == [] {
      CalmAtRest(env, BLANK);
    } else {
      var rest, turn := turns[..|turns| - 1], turns[|turns| - 1];
      var c := Reached(window, rest);
      match turn {
        case Batch(world, events, now) =>
          var at := Env(world, window, now);
          ReachedCalm(window, rest, at);
          BatchCalm(at, c, events);
          CalmLater(at, env, Singles(at, c, events));
        case AskRate(t) =>
          ReachedCalm(window, rest, env.(now := t));
          AskedCalm(env.(now := t), env, c, turn);
        case AskLog(t) =>
          ReachedCalm(window, rest, env.(now := t));
          AskedCalm(env.(now := t), env, c, turn);
        case Lost =>
          ReachedCalm(window, rest, env);
          CalmIs(env, c);
          CalmIs(env, Turned(window, c, turn));
        case Rediscovered =>
          ReachedCalm(window, rest, env);
          CalmIs(env, c);
          CalmIs(env, Turned(window, c, turn));
        case Cleared => CalmAtRest(env, Turned(window, c, turn));
      }
    }
  }

  lemma AskedCalm(earlier: Env, env: Env, c: Core, turn: Turn)
    requires Calm(earlier, c) && env.window == earlier.window && earlier.now <= env.now
    requires turn == AskRate(earlier.now) || turn == AskLog(earlier.now)
    ensures Calm(env, Turned(env.window, c, turn))
  {
    hide Singles, Calm, Buckets.Ready;
    var asked := Turned(env.window, c, turn);
    var both := c.(ledger := c.ledger.(
      rate := RateTracking.QueryRate(c.ledger.rate, env.window, earlier.now),
      log := EventLogging.QueryEvents(c.ledger.log, env.window, earlier.now)));
    hide RateTracking.QueryRate, EventLogging.QueryEvents;
    CalmLater(earlier, earlier, c);
    CalmIs(earlier, c);
    CalmIs(earlier, both);
    CalmIs(earlier, asked);
    CalmLater(earlier, env, asked);
  }

  /** The tree and the process table are sound in every reachable state. */
  lemma {:induction false} ReachedSound(window: nat, turns: seq<Turn>)
    ensures Sound(Reached(window, turns).ledger)
    decreases |turns|
  {
    hide Singles, Sound;
    if turns == [] {
      EmptyState(RateTracking.IDLE, EventLogging.QUIET);
    } else {
      var rest, turn := turns[..|turns| - 1], turns[|turns| - 1];
      ReachedSound(window, rest);
      match turn {
        case Batch(world, events, now) => RunSound(Env(world, window, now), Reached(window, rest), events);
        case Cleared => EmptyState(RateTracking.IDLE, EventLogging.QUIET);
        case _ => SameSound(Reached(window, rest).ledger, Reached(window, turns).ledger);
      }
    }
  }

  /** In every reachable tree exactly the root and the nodes that have children are
      directories. */
  lemma ReachedDirectories(window: nat, turns: seq<Turn>, p: Path)
    ensures var nodes := Reached(window, turns).ledger.nodes;
            p in nodes ==> (nodes[p].isDir <==> p == Root || exists q :: q in nodes && q.Child? && q.parent == p)
  {
    ReachedSound(window, turns);
    hide Reached, WellFormed;
  }

  lemma SameSound(l: Ledger, l': Ledger)
    requires l.nodes == l'.nodes && l.processes == l'.processes
    ensures Sound(l) == Sound(l') && Exact(l) == Exact(l')
  {
    assert forall pid :: Agrees(l, pid) == Agrees(l', pid);
  }

  // --- Main results ---

  /** In every reachable state the global rate is the rate of the root directory, however
      queries of the two were interleaved. */
  lemma GlobalRateIsRootRate(window: nat, turns: seq<Turn>, now: int)
    requires Clocked(turns, now) && TidyTurns(turns)
    requires 0 < window <= (Buckets.MAX_TIME_BUCKETS - 1) * U64_MAX
    requires Fits(Tracked(window, turns), window, AllBytes) && Fits(Logged(window, turns), window, ByPrefix("/"))
    ensures var l := Reached(window, turns).ledger;
            RateTracking.QueryRate(l.rate, window, now).windowSum
            == EventLogging.Get(EventLogging.QueryEvents(l.log, window, now).prefixTotals, "/")
  {
    hide *;
    RatesFollow(window, turns);
    SameHistory(window, turns);
    HistoriesOrdered(window, turns, now);
    ReachedTidy(window, turns);
    GlobalIsRoot(Tracked(window, turns), Logged(window, turns), window, now);
  }

  /** And every prefix of the log, the root included, is answered as a scan would. */
  lemma ReachedIndexIsScan(window: nat, turns: seq<Turn>, now: int, q: string)
    requires Clocked(turns, now) && TidyTurns(turns) && q != ""
    requires 0 < window <= (Buckets.MAX_TIME_BUCKETS - 1) * U64_MAX && Fits(Logged(window, turns), window, ByPrefix("/"))
    ensures var s := EventLogging.QueryEvents(Reached(window, turns).ledger.log, window, now);
            EventLogging.Get(s.prefixTotals, q) == Counting.MapSum(RateAnswers.Matching(s.activities, q))
  {
    hide *;
    RatesFollow(window, turns);
    HistoriesOrdered(window, turns, now);
    ReachedTidy(window, turns);
    PrefixIndexIsScan(Logged(window, turns), window, now, q);
    NoneDoubled(Logged(window, turns), window, now);
  }

  /** In every reachable state the global rate answers what was recorded within the window,
      give or take one bucket. */
  lemma ReachedRateWithinWindow(window: nat, turns: seq<Turn>, now: int)
    requires Clocked(turns, now)
    requires 0 < window <= (Buckets.MAX_TIME_BUCKETS - 1) * U64_MAX && Fits(Tracked(window, turns), window, AllBytes)
    ensures var answer, history := RateTracking.QueryRate(Reached(window, turns).ledger.rate, window, now).windowSum,
                                   Happened(Tracked(window, turns));
            && Total(Since(now - window), history) <= answer
            && answer <= Total(After(now - window - Buckets.BucketWidth(window)), history)
  {
    hide *;
    RatesFollow(window, turns);
    HistoriesOrdered(window, turns, now);
    RateWithinWindow(Tracked(window, turns), window, now);
  }

  /** So does the rate of every prefix. */
  lemma ReachedPrefixWithinWindow(window: nat, turns: seq<Turn>, now: int, q: string)
    requires Clocked(turns, now) && TidyTurns(turns) && q != ""
    requires 0 < window <= (Buckets.MAX_TIME_BUCKETS - 1) * U64_MAX && Fits(Logged(window, turns), window, ByPrefix("/"))
    ensures var answer, history := EventLogging.Get(EventLogging.QueryEvents(Reached(window, turns).ledger.log, window, now).prefixTotals, q),
                                   Happened(Logged(window, turns));
            && Total(KeysSince(Under(q), now - window), history) <= answer
            && answer <= Total(KeysAfter(Under(q), now - window - Buckets.BucketWidth(window)), history)
  {
    hide *;
    RatesFollow(window, turns);
    HistoriesOrdered(window, turns, now);
    ReachedTidy(window, turns);
    PrefixWithinWindow(Logged(window, turns), window, now, q);
  }

  /** And every filtered rate, whose sum fits into 64 bits. */
  lemma ReachedFilteredWithinWindow(window: nat, turns: seq<Turn>, now: int, q: string, query: Filter.Query)
    requires Clocked(turns, now)
    requires 0 < window <= (Buckets.MAX_TIME_BUCKETS - 1) * U64_MAX && Fits(Logged(window, turns), window, ByPrefix("/"))
    ensures var l, history := Reached(window, turns).ledger, Happened(Logged(window, turns));
            var keys := Shown(q, query, l.processes);
            var answer := Counting.MapSum(EventLogging.Selected(
              EventLogging.QueryEvents(l.log, window, now).activities, q, query, l.processes));
            && Total(KeysSince(keys, now - window), history) <= answer
            && answer <= Total(KeysAfter(keys, now - window - Buckets.BucketWidth(window)), history)
            && answer <= U64_MAX
  {
    hide *;
    RatesFollow(window, turns);
    HistoriesOrdered(window, turns, now);
    FilteredWithinWindow(Logged(window, turns), window, now, q, query, Reached(window, turns).ledger.processes);
  }

  /** What a view leaves out is determined by it and by the index at some earlier time: the
      reverse index of the tree, down to the spellings and the reference counts, and the
      catalogue of the event log. */
  lemma SameViewSameState(a: AppState, b: AppState, base: Index)
    requires a.Valid() && a.Spelled(base) && b.Valid() && b.Spelled(base) && a.View() == b.View()
    ensures a.tree.pathsByProcess == b.tree.pathsByProcess && a.tree.activePaths == b.tree.activePaths
    ensures a.eventLog.internedPaths == b.eventLog.internedPaths && a.eventLog.pathPidCounts == b.eventLog.pathPidCounts
  {
    hide Grown, IndexesLeaves, CountsHolders, WellFormed, EventLogging.Catalogued;
    GrownDetermined(a.tree.nodes, a.containers.pidCache, base, a.tree.pathsByProcess, a.tree.activePaths,
                    b.tree.pathsByProcess, b.tree.activePaths);
    EventLogging.CatalogueDetermined(a.eventLog.activities, a.eventLog.internedPaths, a.eventLog.pathPidCounts,
                                     b.eventLog.internedPaths, b.eventLog.pathPidCounts);
  }
}
