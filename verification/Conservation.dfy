/** Conservation: the root of the tree has gained exactly what the attributed events did. */
module Conservation {
  import opened Saturating
  import opened Stats
  import opened Paths
  import opened Tree
  import opened Attribution
  import opened Ledgers
  import opened Coalescing
  import opened App

  datatype Counter = ReadBytes | WriteBytes | ReadOps | WriteOps | OpenOps | CloseOps | Latency

  function Value(counter: Counter, s: NodeStats): u64 {
    match counter
    case ReadBytes => s.readBytes
    case WriteBytes => s.writeBytes
    case ReadOps => s.readOps
    case WriteOps => s.writeOps
    case OpenOps => s.openOps
    case CloseOps => s.closeOps
    case Latency => s.totalLatency
  }

  /** What an event contributes by itself. */
  function Contribution(counter: Counter, e: Event): nat {
    match counter
    case ReadBytes => if e.ReadEvent? then e.bytes else 0
    case WriteBytes => if e.WriteEvent? then e.bytes else 0
    case ReadOps => if e.ReadEvent? then 1 else 0
    case WriteOps => if e.WriteEvent? then 1 else 0
    case OpenOps => if e.LifecycleEvent? && e.event.Opened? then 1 else 0
    case CloseOps => if e.LifecycleEvent? && e.event.Closed? then 1 else 0
    case Latency => if e.LifecycleEvent? then 0 else e.latency
  }

  /** The event is attributed to something below the root. */
  ghost predicate Attributed(env: Env, m: Memory, e: Event) {
    var u := UpdateOf(env, m, e);
    u.activity.Some? && Place(u.activity.value.path) != Root
  }

  /** The contributions of all attributed events of a run. */
  ghost function Contributions(env: Env, c: Core, events: seq<Event>, counter: Counter): nat {
    if events == [] then 0
    else
      var rest, e := events[..|events| - 1], events[|events| - 1];
      Contributions(env, c, rest, counter)
      + if Attributed(env, Singles(env, c, rest).memory, e) then Contribution(counter, e) else 0
  }

  lemma RootGains(nodes: Nodes, target: Path, pid: u32, delta: NodeStats)
    requires Root in nodes
    ensures var after := Recorded(nodes, target, pid, delta);
            Root in after && after[Root].agg == if target == Root then nodes[Root].agg else Accumulate(nodes[Root].agg, delta)
  {
    RootAbove(target);
    hide Accumulate, Tree.Credit;
  }

  lemma UpdateStats(env: Env, m: Memory, e: Event, counter: Counter)
    requires UpdateOf(env, m, e).activity.Some?
    ensures Value(counter, UpdateOf(env, m, e).activity.value.stats) == Contribution(counter, e)
  {
    hide Filled, Kept, Decorate, SightOf;
  }

  lemma SingleNodes(env: Env, c: Core, e: Event)
    requires Root in c.ledger.nodes
    ensures var u, after := UpdateOf(env, c.memory, e), Single(env, c, e).ledger.nodes;
            && Root in after
            && after[Root].agg == if Attributed(env, c.memory, e)
                                  then Accumulate(c.ledger.nodes[Root].agg, u.activity.value.stats)
                                  else c.ledger.nodes[Root].agg
  {
    hide Recorded, Place, Accumulate, Attribution.EventStep, GroupStep;
    var u := UpdateOf(env, c.memory, e);
    if u.activity.Some? {
      var a := u.activity.value;
      RootGains(c.ledger.nodes, Place(a.path), a.pid, a.stats);
    }
  }

  lemma ValueAdds(counter: Counter, a: NodeStats, b: NodeStats)
    ensures Value(counter, Accumulate(a, b)) == Min(Value(counter, a) + Value(counter, b), U64_MAX)
  {
  }

  /** Every counter of the root is its old value and the contributions of exactly the
      attributed events, saturated; exec and exit take nothing away. */
  lemma {:induction false} RootConserves(env: Env, c: Core, events: seq<Event>, counter: Counter)
    requires Root in c.ledger.nodes
    ensures var after := Singles(env, c, events).ledger.nodes;
            && Root in after
            && Value(counter, after[Root].agg)
               == Min(Value(counter, c.ledger.nodes[Root].agg) + Contributions(env, c, events, counter), U64_MAX)
    decreases |events|
  {
    hide Single, UpdateOf, Accumulate, Value, Contribution, Place;
    if events != [] {
      var rest, e := events[..|events| - 1], events[|events| - 1];
      RootConserves(env, c, rest, counter);
      var before := Singles(env, c, rest);
      SingleNodes(env, before, e);
      if Attributed(env, before.memory, e) {
        UpdateStats(env, before.memory, e, counter);
        ValueAdds(counter, before.ledger.nodes[Root].agg, UpdateOf(env, before.memory, e).activity.value.stats);
      }
    }
  }

  /** The largest latency among the attributed reads and writes of a run. */
  ghost function Peak(env: Env, c: Core, events: seq<Event>): nat {
    if events == [] then 0
    else
      var rest, e := events[..|events| - 1], events[|events| - 1];
      if Attributed(env, Singles(env, c, rest).memory, e) && !e.LifecycleEvent? then Max(Peak(env, c, rest), e.latency)
      else Peak(env, c, rest)
  }

  lemma UpdatePeak(env: Env, m: Memory, e: Event)
    requires UpdateOf(env, m, e).activity.Some?
    ensures UpdateOf(env, m, e).activity.value.stats.maxLatency == if e.LifecycleEvent? then 0 else e.latency
  {
    hide Filled, Kept, Decorate, SightOf;
  }

  lemma PeakAdds(a: NodeStats, b: NodeStats)
    ensures Accumulate(a, b).maxLatency == Max(a.maxLatency, b.maxLatency)
  {
  }

  /** The maximal latency of the root is that of the attributed events, or an earlier one. */
  lemma {:induction false} RootPeaks(env: Env, c: Core, events: seq<Event>)
    requires Root in c.ledger.nodes
    ensures var after := Singles(env, c, events).ledger.nodes;
            Root in after && after[Root].agg.maxLatency == Max(c.ledger.nodes[Root].agg.maxLatency, Peak(env, c, events))
    decreases |events|
  {
    hide Single, UpdateOf, Accumulate, Place;
    if events != [] {
      var rest, e := events[..|events| - 1], events[|events| - 1];
      RootPeaks(env, c, rest);
      var before := Singles(env, c, rest);
      SingleNodes(env, before, e);
      if Attributed(env, before.memory, e) {
        UpdatePeak(env, before.memory, e);
        PeakAdds(before.ledger.nodes[Root].agg, UpdateOf(env, before.memory, e).activity.value.stats);
      }
    }
  }
}
