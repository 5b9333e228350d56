/** What every run of ingested events keeps: a sound tree, and a process table that agrees
    with it. */
module AppLaws {
  import opened Saturating
  import opened Stats
  import opened Paths
  import opened Tree
  import opened TreeLaws
  import Processes
  import Filter
  import Filtered
  import RateTracking
  import EventLogging
  import opened Attribution
  import opened Ledgers
  import opened Coalescing
  import opened App

  function TableStats(t: Processes.Table, pid: u32): NodeStats { if pid in t then t[pid].stats else ZERO }

  /** The tree is well formed with non-empty names, exactly the root and the nodes with
      children are directories, aggregates are recomputable, every entry counts, rows are kept
      under their process id, and no process did more in the tree than its row says. */
  ghost predicate Sound(l: Ledger) {
    && WellFormed(l.nodes) && ParentsAreDirectories(l.nodes) && Labelled(l.nodes)
    && Aggregated(l.nodes) && EntriesWithinStats(l.nodes) && EntriesCount(l.nodes) && Processes.Keyed(l.processes)
    && forall pid :: AtMost(Sum(EntriesOf(l.nodes, pid)), TableStats(l.processes, pid))
  }

  /** The row of a process, if there is one, is its total over the tree. */
  ghost predicate Agrees(l: Ledger, pid: u32) {
    && (pid in l.processes <==> EntriesOf(l.nodes, pid) != map[])
    && (pid in l.processes ==> l.processes[pid].stats == Sum(EntriesOf(l.nodes, pid)))
  }

  /** The process table lists exactly the processes of the tree, with their totals. */
  ghost predicate Exact(l: Ledger) { forall pid :: Agrees(l, pid) }

  lemma RecordedTotal(nodes: Nodes, target: Path, pid: u32, delta: NodeStats, q: u32)
    requires target != Root
    ensures var after := Recorded(nodes, target, pid, delta);
            && Sum(EntriesOf(after, q)) == (if q == pid then Accumulate(Sum(EntriesOf(nodes, q)), delta)
                                            else Sum(EntriesOf(nodes, q)))
            && (EntriesOf(after, q) == map[] <==> EntriesOf(nodes, q) == map[] && q != pid)
  {
    hide *;
    RecordedCredits(nodes, target, pid, delta);
    CreditedTotal(nodes, Recorded(nodes, target, pid, delta), target, pid, delta, q);
  }

  lemma TableAfter(env: Env, l: Ledger, a: Activity, q: u32)
    ensures var t := Activate(env, l, a).processes;
            && TableStats(t, q) == (if q == a.pid then Accumulate(TableStats(l.processes, q), a.stats)
                                    else TableStats(l.processes, q))
            && (q in t <==> q in l.processes || q == a.pid)
  {
  }

  lemma ActivateSound(env: Env, l: Ledger, a: Activity)
    requires Sound(l) && TotalOps(a.stats) > 0
    ensures Sound(Activate(env, l, a))
  {
    var target, after := Place(a.path), Activate(env, l, a);
    RecordedShape(l.nodes, target, a.pid, a.stats);
    RecordedDirectories(l.nodes, target, a.pid, a.stats);
    RecordedKeepsAggregates(l.nodes, target, a.pid, a.stats);
    RecordedKeepsEntries(l.nodes, target, a.pid, a.stats);
    RecordedKeepsLabels(l.nodes, a.path, a.pid, a.stats);
    Processes.RecordedKeyed(l.processes, a.pid, env.world.comm(a.pid), a.container, a.stats);
    forall pid
      ensures AtMost(Sum(EntriesOf(after.nodes, pid)), TableStats(after.processes, pid))
    {
      TableAfter(env, l, a, pid);
      if target != Root { RecordedTotal(l.nodes, target, a.pid, a.stats, pid); }
      AccumulateBounds(Sum(EntriesOf(l.nodes, pid)), TableStats(l.processes, pid), a.stats);
      AccumulateBounds(TableStats(l.processes, pid), ZERO, a.stats);
      AtMostTransitive(Sum(EntriesOf(l.nodes, pid)), TableStats(l.processes, pid),
                       Accumulate(TableStats(l.processes, pid), a.stats));
    }
  }

  lemma ZeroLeast(s: NodeStats)
    ensures AtMost(ZERO, s) && Accumulate(ZERO, s) == s
  {
  }

  lemma EndSound(l: Ledger, pid: u32)
    requires Sound(l)
    ensures Sound(EndProcess(l, pid))
  {
    hide EntriesWithinStats, EntriesCount, Aggregated, WellFormed;
    RemovedShape(l.nodes, pid);
    RemovedDirectories(l.nodes, pid);
    RemovedKeepsAggregates(l.nodes, pid);
    RemovedKeepsEntries(l.nodes, pid);
    Processes.RecordedKeyed(l.processes, pid, "", None, ZERO);
    var after := EndProcess(l, pid);
    forall q
      ensures AtMost(Sum(EntriesOf(after.nodes, q)), TableStats(after.processes, q))
    {
      RemovedTotal(l.nodes, pid, q);
      ZeroLeast(TableStats(after.processes, q));
    }
  }

  lemma AgreesAfter(env: Env, l: Ledger, a: Activity, q: u32)
    requires Agrees(l, q)
    ensures Agrees(Activate(env, l, a), q)
       <==> q != a.pid || Place(a.path) != Root
            || (q in l.processes && Accumulate(l.processes[q].stats, a.stats) == l.processes[q].stats)
  {
    TableAfter(env, l, a, q);
    ZeroLeast(a.stats);
    if Place(a.path) != Root {
      RecordedTotal(l.nodes, Place(a.path), a.pid, a.stats, q);
      EmptyTotal(l.nodes, q);
    }
    hide Sum, EntriesOf, Accumulate;
  }

  lemma EmptyTotal(nodes: Nodes, pid: u32)
    ensures EntriesOf(nodes, pid) == map[] ==> Sum(EntriesOf(nodes, pid)) == ZERO
  {
  }

  /** Recording keeps table and tree in agreement exactly when the path names something
      below the root, which the tree skips, or when the row is saturated anyway. */
  lemma ExactIff(env: Env, l: Ledger, a: Activity)
    requires Exact(l)
    ensures Exact(Activate(env, l, a))
       <==> Place(a.path) != Root
            || (a.pid in l.processes && Accumulate(l.processes[a.pid].stats, a.stats) == l.processes[a.pid].stats)
  {
    forall q
      ensures Agrees(l, q)
      ensures Agrees(Activate(env, l, a), q)
         <==> q != a.pid || Place(a.path) != Root
              || (q in l.processes && Accumulate(l.processes[q].stats, a.stats) == l.processes[q].stats)
    {
      assert Agrees(l, q);
      AgreesAfter(env, l, a, q);
    }
    hide Agrees, Activate, Accumulate;
  }

  // --- Runs ---

  lemma GroupSound(env: Env, c: Core, g: IoGroup)
    requires Sound(c.ledger) && g.operations > 0 && (g.key.op == Read || g.key.op == Write)
    ensures Sound(RecordGroup(env, c, g).ledger)
  {
    GroupCounts(env.world, c.memory, g);
    EmitSound(env, c.ledger, GroupStep(env.world, c.memory, g).update);
    hide Sound, Emit, GroupStep;
  }

  lemma GroupCounts(w: World, m: Memory, g: IoGroup)
    requires g.operations > 0 && (g.key.op == Read || g.key.op == Write)
    ensures var u := GroupStep(w, m, g).update; u.activity.Some? ==> TotalOps(u.activity.value.stats) > 0
  {
    hide Filled, SightOf, Decorate, LookUp;
  }

  lemma EventCounts(w: World, m: Memory, e: Lifecycle)
    ensures var u := EventStep(w, m, e).update; u.activity.Some? ==> TotalOps(u.activity.value.stats) > 0
  {
    hide Filled, Kept;
  }

  lemma EventSound(env: Env, c: Core, e: Lifecycle)
    requires Sound(c.ledger)
    ensures Sound(ApplyEvent(env, c, e).ledger)
  {
    hide Sound, Emit, EndProcess, EventStep;
    EventCounts(env.world, c.memory, e);
    EmitSound(env, c.ledger, EventStep(env.world, c.memory, e).update);
    if Ends(e) { EndSound(Emit(env, c.ledger, EventStep(env.world, c.memory, e).update), ProcessOf(e)); }
  }

  lemma EmitSound(env: Env, l: Ledger, u: Update)
    requires Sound(l) && (u.activity.Some? ==> TotalOps(u.activity.value.stats) > 0)
    ensures Sound(Emit(env, l, u))
  {
    var counted := Ledgers.Counted(l, u);
    assert Sound(counted);
    if u.activity.Some? { ActivateSound(env, counted, u.activity.value); }
    hide Sound, Activate;
  }

  /** The tree and the process table are sound after every run. */
  lemma {:induction false} RunSound(env: Env, c: Core, events: seq<Event>)
    requires Sound(c.ledger)
    ensures Sound(Singles(env, c, events).ledger)
    decreases |events|
  {
    if events != [] {
      var e := events[|events| - 1];
      RunSound(env, c, events[..|events| - 1]);
      var before := Singles(env, c, events[..|events| - 1]);
      if e.LifecycleEvent? {
        EventSound(env, before, e.event);
      } else if e.result > 0 {
        GroupSound(env, before, NewGroup(KeyOf(e), e.bytes, e.latency));
      }
      hide Sound, RecordGroup, ApplyEvent;
    }
  }

  /** The empty state starts all of these invariants. */
  lemma EmptyState(rate: RateTracking.RateState, log: EventLogging.EventState)
    ensures var l := Ledger(EMPTY, map[], rate, log, 0, 0); Sound(l) && Exact(l)
  {
    EmptyAggregated();
    assert forall pid :: EntriesOf(EMPTY, pid) == map[];
    ZeroLeast(ZERO);
  }

  /** What filtering the whole tree by a process shows. */
  ghost function ByPid(l: Ledger, pid: u32, lower: string -> string): Option<NodeStats> {
    Filtered.Answer(Sum(Filtered.Matching(l.nodes, Root, Filter.Query([Filter.PidField(pid)], lower), l.processes)))
  }

  /** What the process panel shows. */
  function RowOf(l: Ledger, pid: u32): Option<NodeStats> {
    if pid in l.processes then Some(l.processes[pid].stats) else None
  }

  /** The two are the same exactly when tree and process table agree about the process. */
  lemma PidFilterIsRowIff(l: Ledger, pid: u32, lower: string -> string)
    requires EntriesCount(l.nodes)
    ensures ByPid(l, pid, lower) == RowOf(l, pid) <==> Agrees(l, pid)
  {
    var entries := EntriesOf(l.nodes, pid);
    Filtered.PidFilterIsTotal(l.nodes, pid, lower, l.processes);
    SumCountsOps(entries);
    if p :| p in entries { assert Holds(l.nodes, p, pid); } else { assert entries == map[]; }
    hide Sum, EntriesOf, Filtered.Matching;
  }
}
