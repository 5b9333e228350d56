/** The application state of `ncda/src/tui/app.rs` and its batched ingestion, proved against
    the ingestion of one event at a time. */
module App {
  import opened Saturating
  import opened Stats
  import opened Attribution
  import opened Ledgers
  import opened Coalescing
  import opened Spelling
  import opened Tidying
  import Tree
  import Processes
  import RateTracking
  import EventLogging

  datatype Event =
    | ReadEvent(pid: u32, fd: u32, bytes: u64, result: int, latency: u64)
    | WriteEvent(pid: u32, fd: u32, bytes: u64, result: int, latency: u64)
    | LifecycleEvent(event: Lifecycle)

  // --- One event at a time ---

  function NewGroup(key: IoKey, bytes: u64, latency: u64): IoGroup { IoGroup(key, bytes, 1, latency, latency) }

  function KeyOf(e: Event): IoKey
    requires !e.LifecycleEvent?
  {
    IoKey(e.pid, e.fd, if e.ReadEvent? then Read else Write)
  }

  /** An event as a batch of its own: only I/O that transferred something is recorded. */
  ghost function Single(env: Env, c: Core, e: Event): Core {
    if e.LifecycleEvent? then ApplyEvent(env, c, e.event)
    else if e.result > 0 then RecordGroup(env, c, NewGroup(KeyOf(e), e.bytes, e.latency))
    else c
  }

  /** What an event adds to the ledger. */
  ghost function UpdateOf(env: Env, m: Memory, e: Event): Update {
    if e.LifecycleEvent? then EventStep(env.world, m, e.event).update
    else if e.result > 0 then GroupStep(env.world, m, NewGroup(KeyOf(e), e.bytes, e.latency)).update
    else NOTHING
  }

  ghost function Singles(env: Env, c: Core, events: seq<Event>): Core {
    if events == [] then c
    else Single(env, Singles(env, c, events[..|events| - 1]), events[|events| - 1])
  }

  /** Events seen, failed I/O and I/O without bytes. */
  datatype Tally = Tally(events: u64, failed: u64, zeroByte: u64)

  function Outcome(t: Tally, e: Event): Tally {
    if e.LifecycleEvent? then t
    else if e.result < 0 then t.(failed := SatAdd(t.failed, 1))
    else if e.result == 0 then t.(zeroByte := SatAdd(t.zeroByte, 1))
    else t
  }

  function Counted(t: Tally, e: Event): Tally { Outcome(t.(events := SatAdd(t.events, 1)), e) }

  function CountedAll(t: Tally, events: seq<Event>): Tally {
    if events == [] then t else Counted(CountedAll(t, events[..|events| - 1]), events[|events| - 1])
  }

  /** Ingestion of a concatenation is ingestion of its parts. */
  lemma {:induction false} SinglesConcat(env: Env, c: Core, a: seq<Event>, b: seq<Event>)
    ensures Singles(env, c, a + b) == Singles(env, Singles(env, c, a), b)
    decreases |b|
  {
    hide Single;
    if b == [] {
      assert a + b == a;
    } else {
      assert (a + b)[..|a + b| - 1] == a + b[..|b| - 1];
      SinglesConcat(env, c, a, b[..|b| - 1]);
    }
  }

  lemma {:induction false} CountedConcat(t: Tally, a: seq<Event>, b: seq<Event>)
    ensures CountedAll(t, a + b) == CountedAll(CountedAll(t, a), b)
    decreases |b|
  {
    hide Counted;
    if b == [] {
      assert a + b == a;
    } else {
      assert (a + b)[..|a + b| - 1] == a + b[..|b| - 1];
      CountedConcat(t, a, b[..|b| - 1]);
    }
  }

  /** `RecordGroup` in the order in which the program takes its decisions. */
  lemma GroupParts(env: Env, c: Core, g: IoGroup)
    ensures var w, m, key := env.world, c.memory, FdKey(g.key.pid, g.key.fd);
            var found := LookUp(w, key, SightOf(w, m, key));
            var missed, dropped := key !in m.paths, found.Ignored? || w.excluded(found.path);
            var counted := c.ledger.(
              failures := SatAdd(c.ledger.failures, if found.Unresolved? then 1 else 0),
              ignored := SatAdd(c.ledger.ignored, if found.Ignored? then 1 + SatSub(g.operations, 1) else 0));
            var name := Recall(m.names, w.container, key.pid);
            RecordGroup(env, c, g) == Core(
              Memory(if found.Ignored? then m.paths else m.paths[key := found.path],
                     Memoized(m.roots, w.root, key.pid, missed && w.existingUsesRoot(key)),
                     Memoized(m.names, w.container, key.pid, !dropped)),
              if dropped then counted
              else Activate(env, counted, Activity(Decorate(name, found.path), key.pid, name, GroupStats(g), Some(g.bytes))))
  {
    hide Activate, Recall, Memoized, GroupStats, SatSub, SatAdd, Decorate;
    var paths, key := c.memory.paths, Fd(g.key);
    if key in paths { assert paths[key := paths[key]] == paths; }
    assert paths + map[] == paths;
  }

  lemma OpenParts(env: Env, c: Core, call: OpenCall)
    ensures var w, m, key := env.world, c.memory, FdKey(call.pid, call.fd);
            var found := w.open(call, Recall(m.roots, w.root, call.pid));
            var dropped := found.Ignored? || w.excluded(found.path);
            var counted := c.ledger.(
              failures := SatAdd(c.ledger.failures, if found.Unresolved? then 1 else 0),
              ignored := SatAdd(c.ledger.ignored, if found.Ignored? then 1 else 0));
            var name := Recall(m.names, w.container, call.pid);
            ApplyEvent(env, c, Opened(call)) == Core(
              Memory(if found.Ignored? then m.paths else m.paths[key := found.path],
                     Memoized(m.roots, w.root, call.pid, w.openUsesRoot(call)),
                     Memoized(m.names, w.container, call.pid, !dropped)),
              if dropped then counted
              else Activate(env, counted,
                            Activity(Decorate(name, found.path), call.pid, name, ForOperations(Open, 0, 1, 0, 0), None)))
  {
    hide Activate, Recall, Memoized, ForOperations, SatAdd, Decorate;
    var paths := c.memory.paths;
    assert KeptPaths(paths, Opened(call)) == paths && paths + map[] == paths;
  }

  lemma CloseParts(env: Env, c: Core, pid: u32, fd: u32)
    ensures var w, m, key := env.world, c.memory, FdKey(pid, fd);
            var dropped := key !in m.paths || w.excluded(m.paths[key]);
            var name := Recall(m.names, w.container, pid);
            ApplyEvent(env, c, Closed(pid, fd)) == Core(
              Memory(m.paths - {key}, m.roots, Memoized(m.names, w.container, pid, !dropped)),
              if dropped then c.ledger
              else Activate(env, c.ledger,
                            Activity(Decorate(name, m.paths[key]), pid, name, ForOperations(Close, 0, 1, 0, 0), None)))
  {
    hide Activate, Recall, ForOperations;
    var paths := c.memory.paths;
    assert KeptPaths(paths, Closed(pid, fd)) + map[] == paths - {FdKey(pid, fd)};
  }

  lemma DupParts(env: Env, c: Core, pid: u32, oldFd: u32, newFd: u32)
    ensures var w, m, source, key := env.world, c.memory, FdKey(pid, oldFd), FdKey(pid, newFd);
            var found := LookUp(w, source, SightOf(w, m, source));
            var looked := if found.Ignored? then m.paths else m.paths[source := found.path];
            var dropped := if oldFd == newFd then looked else looked - {key};
            ApplyEvent(env, c, Duplicated(pid, oldFd, newFd)) == Core(
              Memory(if found.Ignored? then dropped else dropped[key := found.path],
                     Memoized(m.roots, w.root, pid, source !in m.paths && w.existingUsesRoot(source)), m.names),
              c.ledger.(failures := SatAdd(c.ledger.failures, if found.Unresolved? then 1 else 0),
                        ignored := SatAdd(c.ledger.ignored, if found.Ignored? then 1 else 0)))
  {
    hide Recall;
    var paths, source, key := c.memory.paths, FdKey(pid, oldFd), FdKey(pid, newFd);
    var kept := KeptPaths(paths, Duplicated(pid, oldFd, newFd));
    assert kept == if oldFd == newFd then paths else paths - {key};
    assert kept + map[] == kept;
    var found := LookUp(env.world, source, SightOf(env.world, c.memory, source));
    if !found.Ignored? {
      var stores := map[source := found.path, key := found.path];
      assert kept + stores == kept[source := found.path][key := found.path];
      assert oldFd != newFd ==> kept[source := found.path] == paths[source := found.path] - {key};
    }
  }

  lemma RangeParts(env: Env, c: Core, pid: u32, first: u32, last: u32, flags: nat)
    ensures var e := RangeClosed(pid, first, last, flags);
            ApplyEvent(env, c, e) == Core(c.memory.(paths := KeptPaths(c.memory.paths, e)), c.ledger)
  {
    hide KeptPaths;
    var paths := KeptPaths(c.memory.paths, RangeClosed(pid, first, last, flags));
    assert paths + map[] == paths;
  }

  lemma EndParts(env: Env, c: Core, e: Lifecycle)
    requires Ends(e)
    ensures ApplyEvent(env, c, e) == Core(
              Memory(KeptPaths(c.memory.paths, e), c.memory.roots - {ProcessOf(e)}, c.memory.names - {ProcessOf(e)}),
              EndProcess(c.ledger, ProcessOf(e)))
  {
    hide KeptPaths, EndProcess;
    var paths := KeptPaths(c.memory.paths, e);
    assert paths + map[] == paths;
  }

  // --- The table of waiting groups ---

  /** `positions` and the live slots of `groups` are in bijection by key. */
  ghost predicate Tabled(groups: Waiting, positions: map<IoKey, nat>) {
    && (forall k :: k in positions ==>
          positions[k] < |groups| && groups[positions[k]].Some? && groups[positions[k]].value.key == k)
    && (forall i :: 0 <= i < |groups| && groups[i].Some? ==>
          groups[i].value.operations > 0 && groups[i].value.key in positions
          && positions[groups[i].value.key] == i)
    && (forall k :: k in positions ==> k.op == Read || k.op == Write)
  }

  /** `accumulate_io_group`: the `expect` cannot fail. */
  method AccumulateIoGroup(groups: Waiting, positions: map<IoKey, nat>, key: IoKey, bytes: u64, latency: u64)
    returns (groups': Waiting, positions': map<IoKey, nat>)
    requires Tabled(groups, positions) && (key.op == Read || key.op == Write)
    ensures Tabled(groups', positions')
    ensures forall env, c :: Calm(env, c) ==>
              FlushAll(env, c, groups') == RecordGroup(env, FlushAll(env, c, groups), NewGroup(key, bytes, latency))
  {
    hide Calm, FlushAll, RecordGroup;
    if key in positions {
      var index := positions[key];
      var group := groups[index].value;
      group := IoGroup(key, SatAdd(group.bytes, bytes), SatAdd(group.operations, 1),
                       SatAdd(group.totalLatency, latency), Max(group.maxLatency, latency));
      groups', positions' := groups[index := Some(group)], positions;
      forall env, c | Calm(env, c) { JoinWaiting(env, c, groups, index, NewGroup(key, bytes, latency)); }
    } else {
      positions' := positions[key := |groups|];
      groups' := groups + [Some(NewGroup(key, bytes, latency))];
      forall env, c | Calm(env, c) { JoinLast(env, c, groups, NewGroup(key, bytes, latency)); }
    }
  }

  function KeysOf(positions: map<IoKey, nat>, pid: u32): set<IoKey> { set k | k in positions && k.pid == pid }

  lemma OnlyIo(groups: Waiting, positions: map<IoKey, nat>)
    requires Tabled(groups, positions)
    ensures forall k :: k in positions ==> k.op == Read || k.op == Write
  {
  }

  lemma NoneAffected(groups: Waiting, positions: map<IoKey, nat>, e: Lifecycle)
    requires Tabled(groups, positions) && forall k :: k in positions ==> !Affects(e, k)
    ensures Unaffected(groups, e)
  {
    hide Affects;
  }

  lemma {:induction false} CountedEvents(t: Tally, events: seq<Event>)
    ensures CountedAll(t, events).events == SatAdd(t.events, |events|)
  {
    if events != [] { CountedEvents(t, events[..|events| - 1]); }
  }

  /** What a run of events leaves of an index that was there before. */
  function Survivors(base: Index, events: seq<Event>): Index {
    if events == [] then base
    else
      var kept, e := Survivors(base, events[..|events| - 1]), events[|events| - 1];
      if e.LifecycleEvent? then BaseAfter(kept, e.event) else kept
  }

  lemma OneByOne(env: Env, c: Core, t: Tally, e: Event, base: Index)
    ensures Singles(env, c, [e]) == Single(env, c, e) && CountedAll(t, [e]) == Counted(t, e)
    ensures Survivors(base, [e]) == if e.LifecycleEvent? then BaseAfter(base, e.event) else base
  {
    hide Single, BaseAfter;
    assert [e][..0] == [];
  }

  lemma FlushNone(env: Env, c: Core)
    ensures FlushAll(env, c, []) == c && Tabled([], map[])
  {
  }

  /** The descriptors of all other processes. */
  function OfOthers(paths: map<FdKey, string>, pid: u32): map<FdKey, string> {
    map k | k in paths && k.pid != pid :: paths[k]
  }

  lemma KeptAtEnd(paths: map<FdKey, string>, e: Lifecycle)
    requires Ends(e)
    ensures KeptPaths(paths, e) == OfOthers(paths, ProcessOf(e))
  {
  }

  class FdPathCache {
    var paths: map<FdKey, string>
    var rootCache: map<u32, ContainerRoot>

    constructor ()
      ensures paths == map[] && rootCache == map[]
    {
      paths, rootCache := map[], map[];
    }

    /** The root of a process, read once and remembered. */
    method RootFor(w: World, pid: u32, used: bool) returns (root: ContainerRoot)
      modifies `rootCache
      ensures root == if pid in old(rootCache) then old(rootCache)[pid] else w.root(pid)
      ensures rootCache == if used then old(rootCache)[pid := root] else old(rootCache)
    {
      root := if pid in rootCache then rootCache[pid] else w.root(pid);
      if used {
        rootCache := rootCache[pid := root];
      }
    }

    method OnCloseRange(pid: u32, first: u32, last: u32, flags: nat)
      modifies `paths
      ensures paths == KeptPaths(old(paths), RangeClosed(pid, first, last, flags))
      ensures forall k :: k in paths <==>
                k in old(paths) && (flags / 4 % 2 == 1 || k.pid != pid || k.fd < first || k.fd > last)
      ensures forall k :: k in paths ==> paths[k] == old(paths)[k]
    {
      if KeepsDescriptors(flags) {
        assert KeptPaths(paths, RangeClosed(pid, first, last, flags)) == paths;
        return;
      }
      paths := map k | k in paths && (k.pid != pid || k.fd < first || k.fd > last) :: paths[k];
    }

    method OnProcessReset(pid: u32)
      modifies this
      ensures paths == OfOthers(old(paths), pid)
      ensures rootCache == old(rootCache) - {pid}
    {
      paths := map k | k in paths && k.pid != pid :: paths[k];
      rootCache := rootCache - {pid};
    }

    method InvalidateAll()
      modifies this
      ensures paths == map[] && rootCache == map[]
    {
      paths, rootCache := map[], map[];
    }
  }

  class ContainerResolver {
    var pidCache: map<u32, Option<string>>

    constructor ()
      ensures pidCache == map[]
    {
      pidCache := map[];
    }

    method Resolve(w: World, pid: u32) returns (name: Option<string>)
      modifies this
      ensures name == if pid in old(pidCache) then old(pidCache)[pid] else w.container(pid)
      ensures pidCache == old(pidCache)[pid := name]
    {
      if pid !in pidCache {
        pidCache := pidCache[pid := w.container(pid)];
      }
      name := pidCache[pid];
    }

    /** `replace_discovery`: newly discovered names apply to every process. */
    method ReplaceDiscovery()
      modifies this
      ensures pidCache == map[]
    {
      pidCache := map[];
    }

    method InvalidatePid(pid: u32)
      modifies this
      ensures pidCache == old(pidCache) - {pid}
    {
      pidCache := pidCache - {pid};
    }
  }

  class AppState {
    const tree: Tree.FileTree
    const fdCache: FdPathCache
    const containers: ContainerResolver
    const processTable: Processes.ProcessTable
    const eventLog: EventLogging.EventLog
    const globalRate: RateTracking.RateTracker
    var totalEvents: u64
    var droppedEvents: u64
    var dropTotal: u64
    var dropBaseline: u64
    var attributionFailures: u64
    var ignoredNonFileEvents: u64
    var failedIoEvents: u64
    var zeroByteIoEvents: u64

    /** The object and everything it owns. */
    ghost function Parts(): set<object> {
      {this, tree, fdCache, containers, processTable, eventLog, globalRate}
    }

    ghost predicate Valid()
      reads this, tree, eventLog, globalRate
    {
      tree.Valid() && eventLog.Valid() && globalRate.Valid() && eventLog.window == globalRate.window
    }

    ghost function MemoryView(): Memory
      reads fdCache, containers
    {
      Memory(fdCache.paths, fdCache.rootCache, containers.pidCache)
    }

    ghost function View(): Core
      reads this, tree, fdCache, containers, processTable, eventLog, globalRate
    {
      Core(MemoryView(),
           Ledger(tree.nodes, processTable.processes, globalRate.State(), eventLog.State(),
                  attributionFailures, ignoredNonFileEvents))
    }

    /** All cached paths are canonical, and so is what the index has beyond `base`. */
    ghost predicate Spelled(base: Index)
      reads fdCache, tree, containers
    {
      TidyPaths(fdCache.paths) && Grown(base, tree.pathsByProcess, containers.pidCache)
    }

    /** What is known about lost events. */
    function LossView(): (u64, u64, u64)
      reads this
    {
      (droppedEvents, dropTotal, dropBaseline)
    }

    function TallyView(): Tally
      reads this
    {
      Tally(totalEvents, failedIoEvents, zeroByteIoEvents)
    }

    constructor (window: nat)
      ensures Valid() && eventLog.window == window
      ensures TallyView() == Tally(0, 0, 0)
      ensures View() == Core(Memory(map[], map[], map[]), Ledger(Tree.EMPTY, map[], RateTracking.IDLE, EventLogging.QUIET, 0, 0))
    {
      tree := new Tree.FileTree();
      fdCache := new FdPathCache();
      containers := new ContainerResolver();
      processTable := new Processes.ProcessTable();
      eventLog := new EventLogging.EventLog(window);
      globalRate := new RateTracking.RateTracker(window);
      totalEvents, droppedEvents, dropTotal, dropBaseline := 0, 0, 0, 0;
      attributionFailures, ignoredNonFileEvents, failedIoEvents, zeroByteIoEvents := 0, 0, 0, 0;
    }

    method RecordIoOutcome(result: int)
      modifies `failedIoEvents, `zeroByteIoEvents
      ensures failedIoEvents == if result < 0 then SatAdd(old(failedIoEvents), 1) else old(failedIoEvents)
      ensures zeroByteIoEvents == if result == 0 then SatAdd(old(zeroByteIoEvents), 1) else old(zeroByteIoEvents)
      ensures View() == old(View()) && Valid() == old(Valid())
    {
      if result < 0 {
        failedIoEvents := SatAdd(failedIoEvents, 1);
      } else if result == 0 {
        zeroByteIoEvents := SatAdd(zeroByteIoEvents, 1);
      }
    }

    method CountEvents(n: nat)
      modifies `totalEvents
      ensures TallyView() == old(TallyView()).(events := SatAdd(old(totalEvents), n))
      ensures View() == old(View()) && Valid() == old(Valid())
    {
      totalEvents := SatAdd(totalEvents, n);
    }

    /** The cached path, or the resolution of an existing descriptor, which is then cached. */
    method ResolveFdPath(w: World, pid: u32, fd: u32) returns (path: Option<string>)
      modifies fdCache, `attributionFailures, `ignoredNonFileEvents
      ensures var key, was := FdKey(pid, fd), old(MemoryView());
              var found := LookUp(w, key, SightOf(w, was, key));
              && path == (if found.Ignored? then None else Some(found.path))
              && fdCache.paths == (if found.Ignored? then was.paths else was.paths[key := found.path])
              && fdCache.rootCache == Memoized(was.roots, w.root, pid, key !in was.paths && w.existingUsesRoot(key))
              && attributionFailures == SatAdd(old(attributionFailures), if found.Unresolved? then 1 else 0)
              && ignoredNonFileEvents == SatAdd(old(ignoredNonFileEvents), if found.Ignored? then 1 else 0)
      ensures TidyWorld(w) && TidyPaths(old(fdCache.paths))
              ==> TidyPaths(fdCache.paths) && (path.Some? ==> Canonical(path.value))
    {
      hide TidyWorld, TidyPaths, Canonical;
      if TidyWorld(w) && TidyPaths(fdCache.paths) {
        TidyLookUp(w, fdCache.paths, FdKey(pid, fd), SightOf(w, MemoryView(), FdKey(pid, fd)));
      }
      var key := FdKey(pid, fd);
      if key in fdCache.paths {
        assert fdCache.paths[key := fdCache.paths[key]] == fdCache.paths;
        return Some(fdCache.paths[key]);
      }
      var root := fdCache.RootFor(w, pid, w.existingUsesRoot(key));
      var resolved := w.existing(key, root);
      match resolved {
        case Resolved(p) =>
        case Unresolved(p) =>
          attributionFailures := SatAdd(attributionFailures, 1);
        case Ignored =>
          ignoredNonFileEvents := SatAdd(ignoredNonFileEvents, 1);
          return None;
      }
      fdCache.paths := fdCache.paths[key := resolved.path];
      return Some(resolved.path);
    }

    /** Records attributed activity everywhere; only I/O counts towards the rates. */
    method Record(env: Env, path: string, pid: u32, container: Option<string>, stats: NodeStats, bytes: Option<u64>)
      requires Valid() && env.window == eventLog.window
      modifies tree, processTable, globalRate, eventLog
      ensures Valid()
      ensures View().ledger == Activate(env, old(View()).ledger, Activity(path, pid, container, stats, bytes))
      ensures tree.pathsByProcess == Tree.Reindexed(old(tree.nodes), old(tree.pathsByProcess), path, pid)
    {
      hide Tree.Recorded, Tree.Reindexed, Processes.Recorded, RateTracking.RecordRate, EventLogging.RecordEvent;
      tree.RecordStats(path, pid, stats);
      processTable.RecordStatsWithContext(pid, env.world.comm(pid), container, stats);
      if bytes.Some? {
        globalRate.RecordAt(env.now, bytes.value);
        eventLog.RecordAt(env.now, path, pid, bytes.value);
      }
    }

    /** Drops excluded paths, decorates the others and records them. */
    method Credit(env: Env, path: string, pid: u32, stats: NodeStats, bytes: Option<u64>, ghost base: Index)
      requires Valid() && env.window == eventLog.window
      modifies tree, processTable, globalRate, eventLog, containers
      ensures Valid()
      ensures var was, excluded := old(View()), env.world.excluded(path);
              var name := Recall(was.memory.names, env.world.container, pid);
              && containers.pidCache == Memoized(was.memory.names, env.world.container, pid, !excluded)
              && View().ledger == (if excluded then was.ledger
                                   else Activate(env, was.ledger, Activity(Decorate(name, path), pid, name, stats, bytes)))
      ensures Canonical(path) && Grown(base, old(tree.pathsByProcess), old(containers.pidCache))
              ==> Grown(base, tree.pathsByProcess, containers.pidCache)
    {
      hide Activate, Canonical, Grown, Tree.Reindexed;
      if env.world.excluded(path) {
        return;
      }
      var name := containers.Resolve(env.world, pid);
      if Canonical(path) && Grown(base, old(tree.pathsByProcess), old(containers.pidCache)) {
        GrownNamed(base, tree.pathsByProcess, old(containers.pidCache), env.world.container, pid, true);
        GrownRecorded(base, tree.nodes, tree.pathsByProcess, containers.pidCache, path, pid);
      }
      Record(env, Decorate(name, path), pid, name, stats, bytes);
    }

    method RecordIoGroup(env: Env, g: IoGroup, ghost base: Index)
      requires Valid() && env.window == eventLog.window
      modifies `attributionFailures, `ignoredNonFileEvents
      modifies tree, fdCache, containers, processTable, eventLog, globalRate
      ensures Valid() && View() == RecordGroup(env, old(View()), g)
      ensures TallyView() == old(TallyView())
      ensures TidyWorld(env.world) && old(Spelled(base)) ==> Spelled(base)
    {
      GroupParts(env, View(), g);
      hide Activate, RecordGroup, LookUp, SightOf, Recall, TidyWorld, TidyPaths, Grown, Canonical;
      var path := ResolveFdPath(env.world, g.key.pid, g.key.fd);
      if path.None? {
        ignoredNonFileEvents := SatAdd(ignoredNonFileEvents, SatSub(g.operations, 1));
        return;
      }
      Credit(env, path.value, g.key.pid, GroupStats(g), Some(g.bytes), base);
    }

    /** The resolution of an opened file, which is then cached. */
    method ResolveOpened(w: World, call: OpenCall) returns (path: Option<string>)
      modifies fdCache, `attributionFailures, `ignoredNonFileEvents
      ensures var key, was := FdKey(call.pid, call.fd), old(MemoryView());
              var found := w.open(call, Recall(was.roots, w.root, call.pid));
              && path == (if found.Ignored? then None else Some(found.path))
              && fdCache.paths == (if found.Ignored? then was.paths else was.paths[key := found.path])
              && fdCache.rootCache == Memoized(was.roots, w.root, call.pid, w.openUsesRoot(call))
              && attributionFailures == SatAdd(old(attributionFailures), if found.Unresolved? then 1 else 0)
              && ignoredNonFileEvents == SatAdd(old(ignoredNonFileEvents), if found.Ignored? then 1 else 0)
      ensures TidyWorld(w) && TidyPaths(old(fdCache.paths))
              ==> TidyPaths(fdCache.paths) && (path.Some? ==> Canonical(path.value))
    {
      hide TidyWorld, TidyPaths, Canonical;
      var root := fdCache.RootFor(w, call.pid, w.openUsesRoot(call));
      var resolved := w.open(call, root);
      match resolved {
        case Resolved(p) =>
        case Unresolved(p) =>
          attributionFailures := SatAdd(attributionFailures, 1);
        case Ignored =>
          ignoredNonFileEvents := SatAdd(ignoredNonFileEvents, 1);
          return None;
      }
      if TidyWorld(w) && TidyPaths(fdCache.paths) {
        TidyOpened(w, call, root);
        TidyStored(fdCache.paths, FdKey(call.pid, call.fd), resolved.path);
      }
      fdCache.paths := fdCache.paths[FdKey(call.pid, call.fd) := resolved.path];
      return Some(resolved.path);
    }

    method IngestOpen(env: Env, call: OpenCall, ghost base: Index)
      requires Valid() && env.window == eventLog.window
      modifies `attributionFailures, `ignoredNonFileEvents
      modifies tree, fdCache, containers, processTable, eventLog, globalRate
      ensures Valid() && View() == ApplyEvent(env, old(View()), Opened(call))
      ensures TallyView() == old(TallyView())
      ensures TidyWorld(env.world) && old(Spelled(base)) ==> Spelled(base)
    {
      OpenParts(env, View(), call);
      hide Activate, ApplyEvent, Recall, TidyWorld, TidyPaths, Grown, Canonical;
      var path := ResolveOpened(env.world, call);
      if path.None? {
        return;
      }
      Credit(env, path.value, call.pid, ForOperations(Open, 0, 1, 0, 0), None, base);
    }

    method IngestClose(env: Env, pid: u32, fd: u32, ghost base: Index)
      requires Valid() && env.window == eventLog.window
      modifies `attributionFailures, `ignoredNonFileEvents
      modifies tree, fdCache, containers, processTable, eventLog, globalRate
      ensures Valid() && View() == ApplyEvent(env, old(View()), Closed(pid, fd))
      ensures TallyView() == old(TallyView())
      ensures TidyWorld(env.world) && old(Spelled(base)) ==> Spelled(base)
    {
      CloseParts(env, View(), pid, fd);
      hide Activate, ApplyEvent, Recall, TidyWorld, Grown, Canonical;
      var key := FdKey(pid, fd);
      if key in fdCache.paths {
        Credit(env, fdCache.paths[key], pid, ForOperations(Close, 0, 1, 0, 0), None, base);
      }
      fdCache.paths := fdCache.paths - {key};
    }

    /** The new descriptor is forgotten and then takes the path of the source. */
    method Redirect(pid: u32, oldFd: u32, newFd: u32, source: Option<string>)
      modifies fdCache
      ensures var target := FdKey(pid, newFd);
              var kept := if oldFd != newFd then old(fdCache.paths) - {target} else old(fdCache.paths);
              fdCache.paths == if source.Some? then kept[target := source.value] else kept
      ensures fdCache.rootCache == old(fdCache.rootCache)
      ensures TidyPaths(old(fdCache.paths)) && (source.Some? ==> Canonical(source.value)) ==> TidyPaths(fdCache.paths)
    {
      hide TidyPaths, Canonical;
      var target := FdKey(pid, newFd);
      if oldFd != newFd {
        if TidyPaths(fdCache.paths) { TidyDropped(fdCache.paths, target); }
        fdCache.paths := fdCache.paths - {target};
      }
      if source.Some? {
        if TidyPaths(fdCache.paths) && Canonical(source.value) { TidyStored(fdCache.paths, target, source.value); }
        fdCache.paths := fdCache.paths[target := source.value];
      }
    }

    method IngestDup(env: Env, pid: u32, oldFd: u32, newFd: u32, ghost base: Index)
      requires Valid()
      modifies `attributionFailures, `ignoredNonFileEvents, fdCache
      ensures Valid() && View() == ApplyEvent(env, old(View()), Duplicated(pid, oldFd, newFd))
      ensures TallyView() == old(TallyView())
      ensures TidyWorld(env.world) && old(Spelled(base)) ==> Spelled(base)
    {
      DupParts(env, View(), pid, oldFd, newFd);
      hide ApplyEvent, LookUp, SightOf, Recall, TidyWorld, TidyPaths, Grown, Canonical, Memoized, SatAdd;
      hide Tree.FileTree.Valid, EventLogging.EventLog.Valid, EventLogging.EventLog.State;
      hide RateTracking.RateTracker.Valid, RateTracking.RateTracker.State;
      var source := ResolveFdPath(env.world, pid, oldFd);
      Redirect(pid, oldFd, newFd, source);
    }

    /** Exec and exit forget the process everywhere but in the tree's node statistics. */
    method IngestEnd(env: Env, e: Lifecycle, ghost base: Index)
      requires Valid() && Ends(e)
      modifies tree, fdCache, containers, processTable
      ensures Valid() && View() == ApplyEvent(env, old(View()), e)
      ensures old(Spelled(base)) ==> Spelled(BaseAfter(base, e))
    {
      EndParts(env, View(), e);
      KeptAtEnd(fdCache.paths, e);
      hide ApplyEvent, KeptPaths, OfOthers, TidyPaths, Grown, Tree.Removed;
      hide Tree.FileTree.Valid, EventLogging.EventLog.Valid, EventLogging.EventLog.State;
      hide RateTracking.RateTracker.Valid, RateTracking.RateTracker.State;
      if Spelled(base) {
        TidyKept(fdCache.paths, e);
        GrownEnded(base, tree.pathsByProcess, containers.pidCache, ProcessOf(e));
      }
      fdCache.OnProcessReset(ProcessOf(e));
      containers.InvalidatePid(ProcessOf(e));
      ForgetActivity(ProcessOf(e));
    }

    method ForgetActivity(pid: u32)
      requires tree.Valid()
      modifies tree, processTable
      ensures tree.Valid() && tree.nodes == Tree.Removed(old(tree.nodes), pid)
      ensures tree.pathsByProcess == old(tree.pathsByProcess) - {pid}
      ensures processTable.processes == old(processTable.processes) - {pid}
    {
      hide *;
      processTable.Remove(pid);
      tree.RemoveProcess(pid);
    }

    method IngestCloseRange(env: Env, e: Lifecycle, ghost base: Index)
      requires Valid() && e.RangeClosed?
      modifies fdCache
      ensures Valid() && View() == ApplyEvent(env, old(View()), e)
      ensures forall k :: k in fdCache.paths <==>
                k in old(fdCache.paths) && (e.flags / 4 % 2 == 1 || k.pid != e.pid || k.fd < e.first || k.fd > e.last)
      ensures forall k :: k in fdCache.paths ==> fdCache.paths[k] == old(fdCache.paths)[k]
      ensures old(Spelled(base)) ==> Spelled(base)
    {
      RangeParts(env, View(), e.pid, e.first, e.last, e.flags);
      hide ApplyEvent, KeptPaths, TidyPaths, Grown, Tree.Removed;
      hide Tree.FileTree.Valid, EventLogging.EventLog.Valid, EventLogging.EventLog.State;
      hide RateTracking.RateTracker.Valid, RateTracking.RateTracker.State;
      if Spelled(base) { TidyKept(fdCache.paths, e); }
      fdCache.OnCloseRange(e.pid, e.first, e.last, e.flags);
    }

    method IngestLifecycle(env: Env, e: Lifecycle, ghost base: Index)
      requires Valid() && env.window == eventLog.window
      modifies `attributionFailures, `ignoredNonFileEvents
      modifies tree, fdCache, containers, processTable, eventLog, globalRate
      ensures Valid() && View() == ApplyEvent(env, old(View()), e)
      ensures TallyView() == old(TallyView())
      ensures TidyWorld(env.world) && old(Spelled(base)) ==> Spelled(BaseAfter(base, e))
    {
      hide View, Valid, ApplyEvent, Spelled, TidyWorld;
      match e
      case Opened(call) => IngestOpen(env, call, base);
      case Closed(pid, fd) => IngestClose(env, pid, fd, base);
      case Duplicated(pid, oldFd, newFd) => IngestDup(env, pid, oldFd, newFd, base);
      case RangeClosed(pid, first, last, flags) => IngestCloseRange(env, e, base);
      case Replaced(pid) => IngestEnd(env, e, base);
      case Exited(pid) => IngestEnd(env, e, base);
    }

    // --- Flushing ---

    /** Records one waiting group, if there is one for the key: the `expect` cannot fail. */
    method FlushIoKey(env: Env, key: IoKey, groups: Waiting, positions: map<IoKey, nat>, ghost base: Index)
      returns (groups': Waiting, positions': map<IoKey, nat>)
      requires Valid() && env.window == eventLog.window && Tabled(groups, positions) && Calm(env, View())
      modifies `attributionFailures, `ignoredNonFileEvents
      modifies tree, fdCache, containers, processTable, eventLog, globalRate
      ensures Valid() && Tabled(groups', positions') && positions' == positions - {key}
      ensures Calm(env, View()) && FlushAll(env, View(), groups') == FlushAll(env, old(View()), groups)
      ensures TallyView() == old(TallyView())
      ensures TidyWorld(env.world) && old(Spelled(base)) ==> Spelled(base)
    {
      hide Calm, FlushAll, RecordGroup, View, Valid, TallyView, Spelled, TidyWorld;
      groups', positions' := groups, positions - {key};
      if key in positions {
        var index := positions[key];
        TakeOut(env, View(), groups, index);
        RecordGroupCalm(env, View(), groups[index].value);
        groups' := groups[index := None];
        RecordIoGroup(env, groups[index].value, base);
      }
    }

    method FlushFdGroups(env: Env, pid: u32, fd: u32, groups: Waiting, positions: map<IoKey, nat>, ghost base: Index)
      returns (groups': Waiting, positions': map<IoKey, nat>)
      requires Valid() && env.window == eventLog.window && Tabled(groups, positions) && Calm(env, View())
      modifies `attributionFailures, `ignoredNonFileEvents
      modifies tree, fdCache, containers, processTable, eventLog, globalRate
      ensures Valid() && Tabled(groups', positions')
      ensures positions' == positions - {IoKey(pid, fd, Read), IoKey(pid, fd, Write)}
      ensures Calm(env, View()) && FlushAll(env, View(), groups') == FlushAll(env, old(View()), groups)
      ensures TallyView() == old(TallyView())
      ensures TidyWorld(env.world) && old(Spelled(base)) ==> Spelled(base)
    {
      hide Calm, FlushAll, Tabled, View, Valid, TallyView, Spelled, TidyWorld;
      groups', positions' := FlushIoKey(env, IoKey(pid, fd, Read), groups, positions, base);
      groups', positions' := FlushIoKey(env, IoKey(pid, fd, Write), groups', positions', base);
    }

    /** Records the waiting groups of some keys, in no particular order. */
    method FlushKeys(env: Env, keys: set<IoKey>, groups: Waiting, positions: map<IoKey, nat>, ghost base: Index)
      returns (groups': Waiting, positions': map<IoKey, nat>)
      requires Valid() && env.window == eventLog.window && Tabled(groups, positions) && Calm(env, View())
      modifies `attributionFailures, `ignoredNonFileEvents
      modifies tree, fdCache, containers, processTable, eventLog, globalRate
      ensures Valid() && Tabled(groups', positions') && positions' == positions - keys
      ensures Calm(env, View()) && FlushAll(env, View(), groups') == FlushAll(env, old(View()), groups)
      ensures TallyView() == old(TallyView())
      ensures TidyWorld(env.world) && old(Spelled(base)) ==> Spelled(base)
    {
      hide Calm, FlushAll, Tabled, View, Valid, TallyView, Spelled, TidyWorld;
      groups', positions' := groups, positions;
      var rest := keys;
      while rest != {}
        invariant rest <= keys && positions' == positions - (keys - rest)
        invariant Valid() && Tabled(groups', positions') && Calm(env, View())
        invariant FlushAll(env, View(), groups') == FlushAll(env, old(View()), groups)
        invariant TallyView() == old(TallyView())
        invariant TidyWorld(env.world) && old(Spelled(base)) ==> Spelled(base)
      {
        var key :| key in rest;
        groups', positions' := FlushIoKey(env, key, groups', positions', base);
        assert positions - (keys - rest) - {key} == positions - (keys - (rest - {key}));
        rest := rest - {key};
      }
      assert keys - {} == keys;
    }

    /** Records every waiting group that the event could affect. */
    method FlushLifecycleGroups(env: Env, e: Lifecycle, groups: Waiting, positions: map<IoKey, nat>, ghost base: Index)
      returns (groups': Waiting, positions': map<IoKey, nat>)
      requires Valid() && env.window == eventLog.window && Tabled(groups, positions) && Calm(env, View())
      modifies `attributionFailures, `ignoredNonFileEvents
      modifies tree, fdCache, containers, processTable, eventLog, globalRate
      ensures Valid() && Tabled(groups', positions') && Unaffected(groups', e)
      ensures Calm(env, View()) && FlushAll(env, View(), groups') == FlushAll(env, old(View()), groups)
      ensures TallyView() == old(TallyView())
      ensures TidyWorld(env.world) && old(Spelled(base)) ==> Spelled(base)
    {
      hide Calm, FlushAll, View, Valid, TallyView, Tabled, Unaffected, Spelled, TidyWorld;
      OnlyIo(groups, positions);
      groups', positions' := groups, positions;
      match e {
        case Opened(call) =>
          groups', positions' := FlushFdGroups(env, call.pid, call.fd, groups, positions, base);
        case Closed(pid, fd) =>
          groups', positions' := FlushFdGroups(env, pid, fd, groups, positions, base);
        case Duplicated(pid, oldFd, newFd) =>
          groups', positions' := FlushFdGroups(env, pid, oldFd, groups, positions, base);
          if oldFd != newFd {
            groups', positions' := FlushFdGroups(env, pid, newFd, groups', positions', base);
          }
        case RangeClosed(pid, first, last, flags) =>
          if !KeepsDescriptors(flags) {
            var keys := set k | k in positions && k.pid == pid && k.fd >= first && k.fd <= last;
            groups', positions' := FlushKeys(env, keys, groups, positions, base);
          }
        case Replaced(pid) =>
          groups', positions' := FlushKeys(env, KeysOf(positions, pid), groups, positions, base);
        case Exited(pid) =>
          groups', positions' := FlushKeys(env, KeysOf(positions, pid), groups, positions, base);
      }
      NoneAffected(groups', positions', e);
    }

    /** Records everything that still waits, in first-seen order. */
    method FlushIoGroups(env: Env, groups: Waiting, ghost base: Index)
      requires Valid() && env.window == eventLog.window && Calm(env, View())
      modifies `attributionFailures, `ignoredNonFileEvents
      modifies tree, fdCache, containers, processTable, eventLog, globalRate
      ensures Valid() && Calm(env, View()) && View() == FlushAll(env, old(View()), groups)
      ensures TallyView() == old(TallyView())
      ensures TidyWorld(env.world) && old(Spelled(base)) ==> Spelled(base)
    {
      hide Calm, RecordGroup, View, Valid, TallyView, Spelled, TidyWorld;
      assert groups[0..] == groups;
      for i := 0 to |groups|
        invariant Valid() && Calm(env, View()) && TallyView() == old(TallyView())
        invariant FlushAll(env, View(), groups[i..]) == FlushAll(env, old(View()), groups)
        invariant TidyWorld(env.world) && old(Spelled(base)) ==> Spelled(base)
      {
        assert groups[i..][1..] == groups[i + 1..];
        if groups[i].Some? {
          RecordGroupCalm(env, View(), groups[i].value);
          RecordIoGroup(env, groups[i].value, base);
        }
      }
    }

    /** Batched ingestion gives the state of ingesting one event at a time. */
    method Ingest(env: Env, events: seq<Event>, ghost base: Index)
      requires Valid() && env.window == eventLog.window && Calm(env, View())
      modifies `totalEvents, `failedIoEvents, `zeroByteIoEvents, `attributionFailures, `ignoredNonFileEvents
      modifies tree, fdCache, containers, processTable, eventLog, globalRate
      ensures Valid() && Calm(env, View())
      ensures View() == Singles(env, old(View()), events)
      ensures TallyView() == CountedAll(old(TallyView()), events) && LossView() == old(LossView())
      ensures TidyWorld(env.world) && old(Spelled(base)) ==> Spelled(Survivors(base, events))
    {
      hide Calm, FlushAll, RecordGroup, ApplyEvent, View, Valid, Tabled, Spelled, TidyWorld;
      ghost var start, tally := View(), TallyView();
      CountEvents(|events|);
      var groups: Waiting := [];
      var positions: map<IoKey, nat> := map[];
      FlushNone(env, start);
      for i := 0 to |events|
        invariant Valid() && Tabled(groups, positions) && Calm(env, View())
        invariant FlushAll(env, View(), groups) == Singles(env, start, events[..i])
        invariant TidyWorld(env.world) && old(Spelled(base)) ==> Spelled(Survivors(base, events[..i]))
        invariant TallyView() == CountedAll(tally, events[..i]).(events := SatAdd(tally.events, |events|))
      {
        assert events[..i + 1][..i] == events[..i];
        ghost var kept := Survivors(base, events[..i]);
        match events[i] {
          case LifecycleEvent(e) =>
            groups, positions := FlushLifecycleGroups(env, e, groups, positions, kept);
            EventFirst(env, View(), groups, e);
            ApplyEventCalm(env, View(), e);
            IngestLifecycle(env, e, kept);
          case _ =>
            var io := events[i];
            RecordIoOutcome(io.result);
            if io.result > 0 {
              groups, positions := AccumulateIoGroup(groups, positions, KeyOf(io), io.bytes, io.latency);
            }
        }
      }
      assert events[..|events|] == events;
      CountedEvents(tally, events);
      FlushIoGroups(env, groups, Survivors(base, events));
    }

    /** Ingestion of one event at a time: every event is a batch of its own. */
    method IngestEach(env: Env, events: seq<Event>, ghost base: Index)
      requires Valid() && env.window == eventLog.window && Calm(env, View())
      modifies `totalEvents, `failedIoEvents, `zeroByteIoEvents, `attributionFailures, `ignoredNonFileEvents
      modifies tree, fdCache, containers, processTable, eventLog, globalRate
      ensures Valid() && Calm(env, View())
      ensures View() == Singles(env, old(View()), events)
      ensures TallyView() == CountedAll(old(TallyView()), events) && LossView() == old(LossView())
      ensures TidyWorld(env.world) && old(Spelled(base)) ==> Spelled(Survivors(base, events))
    {
      hide Calm, Single, View, Valid, TallyView, Spelled, TidyWorld, BaseAfter;
      for i := 0 to |events|
        invariant Valid() && Calm(env, View()) && View() == Singles(env, old(View()), events[..i])
        invariant TallyView() == CountedAll(old(TallyView()), events[..i])
        invariant TidyWorld(env.world) && old(Spelled(base)) ==> Spelled(Survivors(base, events[..i]))
      {
        assert events[..i + 1][..i] == events[..i];
        OneByOne(env, View(), TallyView(), events[i], Survivors(base, events[..i]));
        Ingest(env, [events[i]], Survivors(base, events[..i]));
      }
      assert events[..|events|] == events;
    }

    // --- Losses and reset ---

    /** `dropped_events` counts losses since the last reset. */
    ghost predicate CountsDrops()
      reads this
    {
      droppedEvents == SatSub(dropTotal, dropBaseline)
    }

    /** New losses discard all cached attribution, repeated totals do not. */
    method UpdateDropTotal(total: u64)
      modifies this, fdCache
      ensures CountsDrops() && dropTotal == total && dropBaseline == old(dropBaseline)
      ensures TallyView() == old(TallyView())
      ensures View() == if total > old(dropTotal)
                        then old(View()).(memory := old(MemoryView()).(paths := map[], roots := map[]))
                        else old(View())
    {
      if total > dropTotal {
        fdCache.InvalidateAll();
      }
      dropTotal := total;
      droppedEvents := SatSub(total, dropBaseline);
    }

    method ResetCounters()
      modifies this
      ensures CountsDrops() && dropTotal == old(dropTotal) && droppedEvents == 0
      ensures TallyView() == Tally(0, 0, 0)
      ensures View() == old(View()).(ledger := old(View()).ledger.(failures := 0, ignored := 0)) && Valid() == old(Valid())
    {
      totalEvents, dropBaseline, droppedEvents := 0, dropTotal, 0;
      attributionFailures, ignoredNonFileEvents, failedIoEvents, zeroByteIoEvents := 0, 0, 0, 0;
    }

    /** Forgets all activity but keeps what is known about descriptors. */
    method Reset()
      requires Valid()
      modifies this, tree, processTable, eventLog, globalRate
      ensures Valid()
      ensures CountsDrops() && dropTotal == old(dropTotal) && droppedEvents == 0
      ensures TallyView() == Tally(0, 0, 0)
      ensures View() == Core(old(MemoryView()), Ledger(Tree.EMPTY, map[], RateTracking.IDLE, EventLogging.QUIET, 0, 0))
    {
      hide Tree.FileTree.Valid, EventLogging.EventLog.Valid, RateTracking.RateTracker.Valid;
      hide EventLogging.EventLog.State, RateTracking.RateTracker.State;
      tree.Reset();
      processTable.Reset();
      eventLog.Reset();
      globalRate.Reset();
      ResetCounters();
    }
  }
}
