/** What every single event comes to, read off the event, what is remembered and the outside
    world: which descriptors are known afterwards, what is attributed, and what is counted. */
module Effects {
  import opened Saturating
  import opened Stats
  import opened Attribution
  import opened Ledgers
  import opened Coalescing
  import opened App

  // --- What is known about a process and a descriptor ---

  ghost function RootKnown(env: Env, m: Memory, pid: u32): ContainerRoot {
    if pid in m.roots then m.roots[pid] else env.world.root(pid)
  }

  ghost function NameKnown(env: Env, m: Memory, pid: u32): Option<string> {
    if pid in m.names then m.names[pid] else env.world.container(pid)
  }

  /** A remembered path, or else what procfs says now. */
  ghost function Known(env: Env, m: Memory, key: FdKey): PathResolution {
    if key in m.paths then Resolved(m.paths[key]) else env.world.existing(key, RootKnown(env, m, key.pid))
  }

  ghost function Credited(env: Env, m: Memory, pid: u32, path: string, stats: NodeStats, bytes: Option<u64>)
    : Option<Activity>
  {
    if env.world.excluded(path) then None
    else
      var name := NameKnown(env, m, pid);
      Some(Activity(if name.Some? then "/[" + name.value + "]" + path else path, pid, name, stats, bytes))
  }

  // --- Which descriptors are remembered ---

  /** A closed range forgets exactly its descriptors, unless bit 2 of the flags says that
      they are only marked to be closed on exec. Nothing else changes. */
  lemma RangeForgets(env: Env, c: Core, pid: u32, first: u32, last: u32, flags: nat, k: FdKey)
    ensures var after := Single(env, c, LifecycleEvent(RangeClosed(pid, first, last, flags)));
            && (k in after.memory.paths <==>
                  k in c.memory.paths && (flags / 4 % 2 == 1 || k.pid != pid || k.fd < first || k.fd > last))
            && (k in after.memory.paths ==> after.memory.paths[k] == c.memory.paths[k])
            && after == c.(memory := c.memory.(paths := after.memory.paths))
  {
    RangeParts(env, c, pid, first, last, flags);
    hide ApplyEvent;
  }

  /** A close forgets exactly its descriptor. */
  lemma CloseForgets(env: Env, c: Core, pid: u32, fd: u32, k: FdKey)
    ensures var after := Single(env, c, LifecycleEvent(Closed(pid, fd))).memory;
            && (k in after.paths <==> k in c.memory.paths && k != FdKey(pid, fd))
            && (k in after.paths ==> after.paths[k] == c.memory.paths[k])
            && after.roots == c.memory.roots
  {
    CloseParts(env, c, pid, fd);
    hide ApplyEvent, Activate;
  }

  /** A duplicate names what its source names, and replaces whatever the new descriptor
      named before. */
  lemma DuplicateTakes(env: Env, c: Core, pid: u32, oldFd: u32, newFd: u32, k: FdKey)
    ensures var after, was := Single(env, c, LifecycleEvent(Duplicated(pid, oldFd, newFd))).memory.paths, c.memory.paths;
            var source, target := FdKey(pid, oldFd), FdKey(pid, newFd);
            var found := Known(env, c.memory, source);
            && (found.Ignored? ==> source !in after && target !in after)
            && (!found.Ignored? ==> source in after && target in after && after[source] == after[target] == found.path)
            && (k != source && k != target ==>
                  (k in after <==> k in was) && (k in after ==> after[k] == was[k]))
  {
    DupParts(env, c, pid, oldFd, newFd);
    hide ApplyEvent;
  }

  /** Exec and exit forget the process: descriptors, root, name and row. */
  lemma EndForgets(env: Env, c: Core, pid: u32, exec: bool, k: FdKey, q: u32)
    ensures var after := Single(env, c, LifecycleEvent(if exec then Replaced(pid) else Exited(pid)));
            && (k in after.memory.paths <==> k in c.memory.paths && k.pid != pid)
            && (k in after.memory.paths ==> after.memory.paths[k] == c.memory.paths[k])
            && (q in after.memory.roots <==> q in c.memory.roots && q != pid)
            && (q in after.memory.names <==> q in c.memory.names && q != pid)
            && (q in after.ledger.processes <==> q in c.ledger.processes && q != pid)
  {
    var e := if exec then Replaced(pid) else Exited(pid);
    EndParts(env, c, e);
    KeptAtEnd(c.memory.paths, e);
    hide ApplyEvent, KeptPaths;
  }

  /** An opened file is remembered under its descriptor, however it resolved. */
  lemma OpenRemembers(env: Env, c: Core, call: OpenCall, k: FdKey)
    ensures var after, was := Single(env, c, LifecycleEvent(Opened(call))).memory.paths, c.memory.paths;
            var key, found := FdKey(call.pid, call.fd), env.world.open(call, RootKnown(env, c.memory, call.pid));
            && (found.Ignored? ==> after == was)
            && (!found.Ignored? ==> key in after && after[key] == found.path)
            && (k != key ==> (k in after <==> k in was) && (k in after ==> after[k] == was[k]))
  {
    OpenParts(env, c, call);
    hide ApplyEvent, Activate;
  }

  /** A transfer remembers what it looked up; one that moved nothing changes nothing. */
  lemma TransferRemembers(env: Env, c: Core, e: Event, k: FdKey)
    requires !e.LifecycleEvent?
    ensures var after, was, key := Single(env, c, e).memory.paths, c.memory.paths, FdKey(e.pid, e.fd);
            var found := Known(env, c.memory, key);
            && (e.result <= 0 ==> Single(env, c, e) == c)
            && (e.result > 0 && found.Ignored? ==> after == was)
            && (e.result > 0 && !found.Ignored? ==> key in after && after[key] == found.path)
            && (k != key ==> (k in after <==> k in was) && (k in after ==> after[k] == was[k]))
  {
    if e.result > 0 { GroupParts(env, c, NewGroup(KeyOf(e), e.bytes, e.latency)); }
    hide RecordGroup, Activate;
  }

  /** The name of a process is remembered exactly when activity is credited to it, and its
      root exactly when resolution had to look at it. */
  lemma ProcessRemembered(env: Env, c: Core, e: Event)
    requires !e.LifecycleEvent? && e.result > 0
    ensures var m, after, key := c.memory, Single(env, c, e).memory, FdKey(e.pid, e.fd);
            var found := Known(env, m, key);
            && after.names == (if found.Ignored? || env.world.excluded(found.path) then m.names
                               else m.names[e.pid := NameKnown(env, m, e.pid)])
            && after.roots == if key !in m.paths && env.world.existingUsesRoot(key)
                              then m.roots[e.pid := RootKnown(env, m, e.pid)] else m.roots
  {
    GroupParts(env, c, NewGroup(KeyOf(e), e.bytes, e.latency));
    hide RecordGroup, Activate;
  }

  /** The same for an open. */
  lemma OpenerRemembered(env: Env, c: Core, call: OpenCall)
    ensures var m, after := c.memory, Single(env, c, LifecycleEvent(Opened(call))).memory;
            var found := env.world.open(call, RootKnown(env, m, call.pid));
            && after.names == (if found.Ignored? || env.world.excluded(found.path) then m.names
                               else m.names[call.pid := NameKnown(env, m, call.pid)])
            && after.roots == if env.world.openUsesRoot(call) then m.roots[call.pid := RootKnown(env, m, call.pid)]
                              else m.roots
  {
    OpenParts(env, c, call);
    hide ApplyEvent, Activate;
  }

  // --- What is attributed ---

  /** Only transfers that moved something count. They are attributed to what their descriptor
      names, with their bytes, one operation and their latency, and to the rates as well. */
  lemma TransferAttributed(env: Env, m: Memory, e: Event)
    requires !e.LifecycleEvent?
    ensures var u, found := UpdateOf(env, m, e), Known(env, m, FdKey(e.pid, e.fd));
            var stats := if e.ReadEvent? then NodeStats(e.bytes, 0, 1, 0, 0, 0, e.latency, e.latency)
                         else NodeStats(0, e.bytes, 0, 1, 0, 0, e.latency, e.latency);
            u == if e.result <= 0 then Update(0, 0, None)
                 else if found.Ignored? then Update(0, 1, None)
                 else Update(if found.Unresolved? then 1 else 0, 0,
                             Credited(env, m, e.pid, found.path, stats, Some(e.bytes)))
  {
    hide Filled, Kept, EventPlan;
  }

  /** An open counts as one operation of what it opened. */
  lemma OpenAttributed(env: Env, m: Memory, call: OpenCall)
    ensures var u := UpdateOf(env, m, LifecycleEvent(Opened(call)));
            var found := env.world.open(call, RootKnown(env, m, call.pid));
            u == if found.Ignored? then Update(0, 1, None)
                 else Update(if found.Unresolved? then 1 else 0, 0,
                             Credited(env, m, call.pid, found.path, NodeStats(0, 0, 0, 0, 1, 0, 0, 0), None))
  {
  }

  /** A close counts as one operation of what the descriptor named, if that is remembered. */
  lemma CloseAttributed(env: Env, m: Memory, pid: u32, fd: u32)
    ensures var u, key := UpdateOf(env, m, LifecycleEvent(Closed(pid, fd))), FdKey(pid, fd);
            u == Update(0, 0, if key !in m.paths then None
                              else Credited(env, m, pid, m.paths[key], NodeStats(0, 0, 0, 0, 0, 1, 0, 0), None))
  {
  }

  /** All other events are attributed to nothing. */
  lemma OthersUnattributed(env: Env, m: Memory, e: Lifecycle)
    requires !e.Opened? && !e.Closed?
    ensures var u := UpdateOf(env, m, LifecycleEvent(e));
            && u.activity == None
            && (!e.Duplicated? ==> u.failures == u.ignored == 0)
            && (e.Duplicated? ==> var found := Known(env, m, FdKey(e.pid, e.oldFd));
                  u.failures == (if found.Unresolved? then 1 else 0) && u.ignored == if found.Ignored? then 1 else 0)
  {
  }

  // --- What is counted ---

  ghost function HowMany(events: seq<Event>, p: Event -> bool): nat {
    if events == [] then 0
    else HowMany(events[..|events| - 1], p) + if p(events[|events| - 1]) then 1 else 0
  }

  /** Failed transfers and transfers of nothing are counted exactly, up to saturation. */
  lemma {:induction false} TallyCounts(t: Tally, events: seq<Event>)
    ensures CountedAll(t, events)
         == Tally(Min(t.events + |events|, U64_MAX),
                  Min(t.failed + HowMany(events, (e: Event) => !e.LifecycleEvent? && e.result < 0), U64_MAX),
                  Min(t.zeroByte + HowMany(events, (e: Event) => !e.LifecycleEvent? && e.result == 0), U64_MAX))
    decreases |events|
  {
    if events != [] { TallyCounts(t, events[..|events| - 1]); }
  }

  /** What the event has to look up, if anything. */
  ghost function Wanted(env: Env, m: Memory, e: Event): Option<PathResolution> {
    match e
    case LifecycleEvent(Opened(call)) => Some(env.world.open(call, RootKnown(env, m, call.pid)))
    case LifecycleEvent(Duplicated(pid, oldFd, _)) => Some(Known(env, m, FdKey(pid, oldFd)))
    case LifecycleEvent(_) => None
    case _ => if e.result > 0 then Some(Known(env, m, FdKey(e.pid, e.fd))) else None
  }

  /** How many events of a run had to do with a descriptor that did not resolve, or that is
      no file. */
  ghost function Troubles(env: Env, c: Core, events: seq<Event>, ignored: bool): nat {
    if events == [] then 0
    else
      var rest := events[..|events| - 1];
      var found := Wanted(env, Singles(env, c, rest).memory, events[|events| - 1]);
      Troubles(env, c, rest, ignored)
      + if found.Some? && (if ignored then found.value.Ignored? else found.value.Unresolved?) then 1 else 0
  }

  lemma UpdateTroubles(env: Env, m: Memory, e: Event)
    ensures var u, found := UpdateOf(env, m, e), Wanted(env, m, e);
            && u.failures == (if found.Some? && found.value.Unresolved? then 1 else 0)
            && u.ignored == if found.Some? && found.value.Ignored? then 1 else 0
  {
    match e {
      case LifecycleEvent(Opened(call)) => OpenAttributed(env, m, call);
      case LifecycleEvent(Closed(pid, fd)) => CloseAttributed(env, m, pid, fd);
      case LifecycleEvent(event) => OthersUnattributed(env, m, event);
      case _ => TransferAttributed(env, m, e);
    }
    hide UpdateOf, Credited;
  }

  /** One event adds its update to the ledger; exec and exit then end their process. */
  lemma SingleEmits(env: Env, c: Core, e: Event)
    ensures var emitted := Emit(env, c.ledger, UpdateOf(env, c.memory, e));
            Single(env, c, e).ledger
            == if e.LifecycleEvent? && Ends(e.event) then EndProcess(emitted, ProcessOf(e.event)) else emitted
  {
    hide Activate, EndProcess, EventStep, GroupStep;
  }

  lemma EmitCounts(env: Env, l: Ledger, u: Update)
    ensures Emit(env, l, u).failures == Min(l.failures + u.failures, U64_MAX)
    ensures Emit(env, l, u).ignored == Min(l.ignored + u.ignored, U64_MAX)
  {
  }

  /** The diagnostic counters count exactly these events, up to saturation. */
  lemma {:induction false} TroublesCounted(env: Env, c: Core, events: seq<Event>)
    ensures var after := Singles(env, c, events).ledger;
            && after.failures == Min(c.ledger.failures + Troubles(env, c, events, false), U64_MAX)
            && after.ignored == Min(c.ledger.ignored + Troubles(env, c, events, true), U64_MAX)
    decreases |events|
  {
    hide Single, UpdateOf, Wanted, Emit;
    if events != [] {
      var rest, e := events[..|events| - 1], events[|events| - 1];
      var before := Singles(env, c, rest);
      TroublesCounted(env, c, rest);
      SingleEmits(env, before, e);
      UpdateTroubles(env, before.memory, e);
      EmitCounts(env, before.ledger, UpdateOf(env, before.memory, e));
    }
  }
}
