/** Everything that recorded activity changes: the tree, the process table, both rate
    structures and the diagnostic counters, and the laws by which updates combine. */
module Ledgers {
  import opened Saturating
  import opened Stats
  import opened Paths
  import opened Buckets
  import Tree
  import Processes
  import RateTracking
  import EventLogging
  import opened Attribution

  datatype Ledger = Ledger(
    nodes: Tree.Nodes,
    processes: Processes.Table,
    rate: RateTracking.RateState,
    log: EventLogging.EventState,
    failures: u64,
    ignored: u64)

  /** Settings and the outside world during one batch. */
  datatype Env = Env(world: World, window: nat, now: int)

  function ProcessesWith(env: Env, t: Processes.Table, a: Activity): Processes.Table {
    Processes.Recorded(t, a.pid, env.world.comm(a.pid), a.container, a.stats)
  }

  ghost function Activate(env: Env, l: Ledger, a: Activity): Ledger {
    l.(nodes := Tree.Recorded(l.nodes, Place(a.path), a.pid, a.stats),
       processes := ProcessesWith(env, l.processes, a),
       rate := if a.bytes.Some? then RateTracking.RecordRate(l.rate, env.window, env.now, a.bytes.value) else l.rate,
       log := if a.bytes.Some?
              then EventLogging.RecordEvent(l.log, env.window, env.now, EventLogging.ActivityKey(a.path, a.pid), a.bytes.value)
              else l.log)
  }

  ghost function Emit(env: Env, l: Ledger, u: Update): Ledger {
    var counted := l.(failures := SatAdd(l.failures, u.failures), ignored := SatAdd(l.ignored, u.ignored));
    if u.activity.Some? then Activate(env, counted, u.activity.value) else counted
  }

  ghost function EndProcess(l: Ledger, pid: u32): Ledger {
    l.(nodes := Tree.Removed(l.nodes, pid), processes := l.processes - {pid})
  }

  /** The rate structures are in the shape that a monotone clock maintains. */
  ghost predicate Steady(env: Env, l: Ledger) {
    Ready(l.rate.buckets, env.window, env.now) && Ready(l.log.buckets, env.window, env.now)
  }

  // --- The tree ---

  /** What one recording makes of the node at `r`. */
  function NodeAfter(d: Tree.NodeData, r: Path, target: Path, pid: u32, delta: NodeStats): Tree.NodeData {
    if target == Root || !Above(r, target) then d
    else if r == target then Tree.Landed(Tree.Touched(d, false, delta), pid, delta)
    else Tree.Touched(d, true, delta)
  }

  lemma RecordedNode(nodes: Tree.Nodes, target: Path, pid: u32, delta: NodeStats, r: Path)
    ensures var after := Tree.Recorded(nodes, target, pid, delta);
            && (r in after <==> r in nodes || (target != Root && Above(r, target)))
            && Tree.Existing(after, r) == NodeAfter(Tree.Existing(nodes, r), r, target, pid, delta)
  {
    hide Tree.Landed, Tree.Touched;
  }

  lemma CreditLaws(per: map<u32, NodeStats>, i: u32, j: u32, a: NodeStats, b: NodeStats)
    ensures Tree.Credit(Tree.Credit(per, i, a), j, b) == Tree.Credit(Tree.Credit(per, j, b), i, a)
    ensures Tree.Credit(Tree.Credit(per, i, a), i, b) == Tree.Credit(per, i, Accumulate(a, b))
  {
    if i in per {
      AccumulateSwap(per[i], a, b);
      AccumulateMonoid(per[i], a, b);
    }
    AccumulateMonoid(a, b, ZERO);
  }

  lemma NodeLaws(d: Tree.NodeData, r: Path, p: Path, q: Path, i: u32, j: u32, a: NodeStats, b: NodeStats)
    ensures NodeAfter(NodeAfter(d, r, p, i, a), r, q, j, b) == NodeAfter(NodeAfter(d, r, q, j, b), r, p, i, a)
    ensures NodeAfter(NodeAfter(d, r, p, i, a), r, p, i, b) == NodeAfter(d, r, p, i, Accumulate(a, b))
  {
    CreditLaws(d.per, i, j, a, b);
    AccumulateSwap(d.agg, a, b);
    AccumulateSwap(d.stats, a, b);
    AccumulateMonoid(d.agg, a, b);
    AccumulateMonoid(d.stats, a, b);
    hide Accumulate, Tree.Credit;
  }

  lemma SameNodes(x: Tree.Nodes, y: Tree.Nodes)
    requires forall r :: (r in x <==> r in y) && Tree.Existing(x, r) == Tree.Existing(y, r)
    ensures x == y
  {
    assert forall r :: r in x ==> x[r] == Tree.Existing(x, r) && y[r] == Tree.Existing(y, r);
  }

  lemma TreeSwap(nodes: Tree.Nodes, p: Path, q: Path, i: u32, j: u32, a: NodeStats, b: NodeStats)
    ensures Tree.Recorded(Tree.Recorded(nodes, p, i, a), q, j, b) == Tree.Recorded(Tree.Recorded(nodes, q, j, b), p, i, a)
  {
    var x, y := Tree.Recorded(nodes, p, i, a), Tree.Recorded(nodes, q, j, b);
    hide *;
    forall r
      ensures (r in Tree.Recorded(x, q, j, b) <==> r in Tree.Recorded(y, p, i, a))
      ensures Tree.Existing(Tree.Recorded(x, q, j, b), r) == Tree.Existing(Tree.Recorded(y, p, i, a), r)
    {
      RecordedNode(nodes, p, i, a, r);
      RecordedNode(nodes, q, j, b, r);
      RecordedNode(x, q, j, b, r);
      RecordedNode(y, p, i, a, r);
      NodeLaws(Tree.Existing(nodes, r), r, p, q, i, j, a, b);
    }
    SameNodes(Tree.Recorded(x, q, j, b), Tree.Recorded(y, p, i, a));
  }

  lemma TreeMerge(nodes: Tree.Nodes, p: Path, i: u32, a: NodeStats, b: NodeStats)
    ensures Tree.Recorded(Tree.Recorded(nodes, p, i, a), p, i, b) == Tree.Recorded(nodes, p, i, Accumulate(a, b))
  {
    var x := Tree.Recorded(nodes, p, i, a);
    hide *;
    forall r
      ensures (r in Tree.Recorded(x, p, i, b) <==> r in Tree.Recorded(nodes, p, i, Accumulate(a, b)))
      ensures Tree.Existing(Tree.Recorded(x, p, i, b), r) == Tree.Existing(Tree.Recorded(nodes, p, i, Accumulate(a, b)), r)
    {
      RecordedNode(nodes, p, i, a, r);
      RecordedNode(x, p, i, b, r);
      RecordedNode(nodes, p, i, Accumulate(a, b), r);
      NodeLaws(Tree.Existing(nodes, r), r, p, p, i, i, a, b);
    }
    SameNodes(Tree.Recorded(x, p, i, b), Tree.Recorded(nodes, p, i, Accumulate(a, b)));
  }

  lemma RemovedNode(nodes: Tree.Nodes, pid: u32, r: Path)
    ensures var after := Tree.Removed(nodes, pid);
            && (r in after <==> r in nodes)
            && Tree.Existing(after, r) == Tree.Existing(nodes, r).(per := Tree.Existing(nodes, r).per - {pid})
  {
  }

  lemma NodePasses(d: Tree.NodeData, r: Path, p: Path, i: u32, pid: u32, a: NodeStats)
    requires i != pid
    ensures NodeAfter(d.(per := d.per - {pid}), r, p, i, a)
         == NodeAfter(d, r, p, i, a).(per := NodeAfter(d, r, p, i, a).per - {pid})
  {
    assert Tree.Credit(d.per - {pid}, i, a) == Tree.Credit(d.per, i, a) - {pid};
    hide Accumulate, Tree.Credit;
  }

  lemma TreePasses(nodes: Tree.Nodes, p: Path, i: u32, pid: u32, a: NodeStats)
    requires i != pid
    ensures Tree.Recorded(Tree.Removed(nodes, pid), p, i, a) == Tree.Removed(Tree.Recorded(nodes, p, i, a), pid)
  {
    var x, y := Tree.Recorded(Tree.Removed(nodes, pid), p, i, a), Tree.Removed(Tree.Recorded(nodes, p, i, a), pid);
    hide *;
    forall r
      ensures (r in x <==> r in y) && Tree.Existing(x, r) == Tree.Existing(y, r)
    {
      RecordedNode(nodes, p, i, a, r);
      RemovedNode(nodes, pid, r);
      RecordedNode(Tree.Removed(nodes, pid), p, i, a, r);
      RemovedNode(Tree.Recorded(nodes, p, i, a), pid, r);
      NodePasses(Tree.Existing(nodes, r), r, p, i, pid, a);
    }
    SameNodes(x, y);
  }

  // --- Activity ---

  lemma ActivateSteady(env: Env, l: Ledger, a: Activity)
    requires Steady(env, l)
    ensures Steady(env, Activate(env, l, a))
  {
    if a.bytes.Some? {
      RateTracking.RecordRateReady(l.rate, env.window, env.now, env.now, a.bytes.value);
      EventLogging.RecordEventReady(l.log, env.window, env.now, env.now, EventLogging.ActivityKey(a.path, a.pid), a.bytes.value);
    }
  }

  lemma ProcessesSwap(env: Env, t: Processes.Table, a: Activity, b: Activity)
    requires a.pid == b.pid ==> a.container == b.container
    ensures ProcessesWith(env, ProcessesWith(env, t, a), b) == ProcessesWith(env, ProcessesWith(env, t, b), a)
  {
    var comm := env.world.comm;
    if a.pid == b.pid {
      Processes.RecordedLaws(t, a.pid, comm(a.pid), a.container, a.stats, b.stats);
    } else {
      Processes.RecordedApart(t, a.pid, b.pid, comm(a.pid), comm(b.pid), a.container, b.container, a.stats, b.stats);
    }
  }

  lemma RatesSwap(env: Env, l: Ledger, a: Activity, b: Activity)
    requires Steady(env, l)
    ensures var ab, ba := Activate(env, Activate(env, l, a), b), Activate(env, Activate(env, l, b), a);
            ab.rate == ba.rate && ab.log == ba.log
  {
    if a.bytes.Some? && b.bytes.Some? {
      var x, y := a.bytes.value, b.bytes.value;
      RateTracking.RecordRateMerges(l.rate, env.window, env.now, x, y);
      RateTracking.RecordRateMerges(l.rate, env.window, env.now, y, x);
      EventLogging.RecordEventLaws(l.log, env.window, env.now, EventLogging.ActivityKey(a.path, a.pid),
                                   EventLogging.ActivityKey(b.path, b.pid), x, y);
    }
    hide RateTracking.RecordRate, EventLogging.RecordEvent;
  }

  lemma ActivateSwap(env: Env, l: Ledger, a: Activity, b: Activity)
    requires Steady(env, l) && (a.pid == b.pid ==> a.container == b.container)
    ensures Activate(env, Activate(env, l, a), b) == Activate(env, Activate(env, l, b), a)
  {
    TreeSwap(l.nodes, Place(a.path), Place(b.path), a.pid, b.pid, a.stats, b.stats);
    ProcessesSwap(env, l.processes, a, b);
    RatesSwap(env, l, a, b);
    hide Tree.Recorded, Processes.Recorded, RateTracking.RecordRate, EventLogging.RecordEvent;
  }

  lemma ActivateMerge(env: Env, l: Ledger, a: Activity, b: Activity, c: Activity)
    requires Steady(env, l)
    requires a.path == b.path == c.path && a.pid == b.pid == c.pid && a.container == b.container == c.container
    requires c.stats == Accumulate(a.stats, b.stats)
    requires a.bytes.Some? && b.bytes.Some? && c.bytes == Some(SatAdd(a.bytes.value, b.bytes.value))
    ensures Activate(env, Activate(env, l, a), b) == Activate(env, l, c)
  {
    var key := EventLogging.ActivityKey(a.path, a.pid);
    TreeMerge(l.nodes, Place(a.path), a.pid, a.stats, b.stats);
    Processes.RecordedLaws(l.processes, a.pid, env.world.comm(a.pid), a.container, a.stats, b.stats);
    RateTracking.RecordRateMerges(l.rate, env.window, env.now, a.bytes.value, b.bytes.value);
    EventLogging.RecordEventLaws(l.log, env.window, env.now, key, key, a.bytes.value, b.bytes.value);
    hide Tree.Recorded, Processes.Recorded, RateTracking.RecordRate, EventLogging.RecordEvent, Accumulate;
  }

  lemma ActivatePasses(env: Env, l: Ledger, a: Activity, pid: u32)
    requires a.pid != pid
    ensures Activate(env, EndProcess(l, pid), a) == EndProcess(Activate(env, l, a), pid)
  {
    TreePasses(l.nodes, Place(a.path), a.pid, pid, a.stats);
    Processes.RecordedApart(l.processes, a.pid, pid, env.world.comm(a.pid), "", a.container, None, a.stats, ZERO);
    hide Tree.Recorded, Tree.Removed, Processes.Recorded, RateTracking.RecordRate, EventLogging.RecordEvent;
  }

  // --- Updates ---

  function Counted(l: Ledger, u: Update): Ledger {
    l.(failures := SatAdd(l.failures, u.failures), ignored := SatAdd(l.ignored, u.ignored))
  }

  lemma CountedActivate(env: Env, l: Ledger, a: Activity, u: Update)
    ensures Activate(env, Counted(l, u), a) == Counted(Activate(env, l, a), u)
  {
    hide Tree.Recorded, Processes.Recorded, RateTracking.RecordRate, EventLogging.RecordEvent;
  }

  lemma EmitSteady(env: Env, l: Ledger, u: Update)
    requires Steady(env, l)
    ensures Steady(env, Emit(env, l, u))
  {
    if u.activity.Some? { ActivateSteady(env, Counted(l, u), u.activity.value); }
    hide Activate;
  }

  /** The container of a process is known the same to both updates. */
  predicate Agree(u: Update, v: Update) {
    (u.activity.Some? && v.activity.Some? && u.activity.value.pid == v.activity.value.pid)
    ==> u.activity.value.container == v.activity.value.container
  }

  lemma EmitTrades(env: Env, l: Ledger, a1: Update, b2: Update, b1: Update, a2: Update)
    requires Steady(env, l) && Trade(a1, b2, b1, a2) && Agree(a1, b1)
    ensures Emit(env, Emit(env, l, a1), b2) == Emit(env, Emit(env, l, b1), a2)
  {
    var l1, l2 := Counted(Counted(l, a1), b2), Counted(Counted(l, b1), a2);
    assert l1 == l2;
    hide Activate, Counted;
    EmitTwice(env, l, a1, b2);
    EmitTwice(env, l, b1, a2);
    if a1.activity.Some? && b1.activity.Some? { ActivateSwap(env, l1, a1.activity.value, b1.activity.value); }
  }

  /** Counting first and recording afterwards is the same. */
  lemma EmitTwice(env: Env, l: Ledger, u: Update, v: Update)
    ensures var counted := Counted(Counted(l, u), v);
            var once := if u.activity.Some? then Activate(env, counted, u.activity.value) else counted;
            Emit(env, Emit(env, l, u), v) == if v.activity.Some? then Activate(env, once, v.activity.value) else once
    ensures Steady(env, l) ==> Steady(env, Counted(Counted(l, u), v))
  {
    if u.activity.Some? { CountedActivate(env, Counted(l, u), u.activity.value, v); }
    hide Activate;
  }

  lemma EmitMerges(env: Env, l: Ledger, u: Update, v: Update, w: Update)
    requires Steady(env, l) && Merge(u, v, w)
    ensures Emit(env, Emit(env, l, u), v) == Emit(env, l, w)
  {
    var counted := Counted(Counted(l, u), v);
    assert counted == Counted(l, w);
    EmitTwice(env, l, u, v);
    if w.activity.Some? { ActivateMerge(env, counted, u.activity.value, v.activity.value, w.activity.value); }
    hide Activate;
  }

  lemma EmitPasses(env: Env, l: Ledger, u: Update, pid: u32)
    requires u.activity.Some? ==> u.activity.value.pid != pid
    ensures Emit(env, EndProcess(l, pid), u) == EndProcess(Emit(env, l, u), pid)
  {
    if u.activity.Some? { ActivatePasses(env, Counted(l, u), u.activity.value, pid); }
    hide Activate, Tree.Removed;
  }
}
