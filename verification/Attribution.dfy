/** Attribution of descriptors to paths: the descriptor cache of `ncda/src/bpf.rs`, the
    container names, and what one group of I/O or one lifecycle event makes of them. */
module Attribution {
  import opened Saturating
  import opened Stats

  datatype FdKey = FdKey(pid: u32, fd: u32)

  datatype PathResolution = Resolved(path: string) | Unresolved(path: string) | Ignored

  datatype OpenCall = OpenCall(pid: u32, fd: u32, dirfd: int, path: Bytes, flags: nat)

  type ContainerRoot = Option<Bytes>

  /** The outside world during one batch: procfs and container discovery. Resolution may
      consult the root directory of the process, which is then remembered. */
  datatype World = World(
    root: u32 -> ContainerRoot,
    existingUsesRoot: FdKey -> bool,
    existing: (FdKey, ContainerRoot) -> PathResolution,
    openUsesRoot: OpenCall -> bool,
    open: (OpenCall, ContainerRoot) -> PathResolution,
    container: u32 -> Option<string>,
    comm: u32 -> string,
    excluded: string -> bool)

  /** What is remembered about descriptors, process roots and container names. */
  datatype Memory = Memory(
    paths: map<FdKey, string>,
    roots: map<u32, ContainerRoot>,
    names: map<u32, Option<string>>)

  /** A memo of an unchanging source: the remembered value wins. */
  function Recall<V>(memo: map<u32, V>, source: u32 -> V, pid: u32): V {
    if pid in memo then memo[pid] else source(pid)
  }

  function Memoized<V>(memo: map<u32, V>, source: u32 -> V, pid: u32, used: bool): map<u32, V> {
    if used then memo[pid := Recall(memo, source, pid)] else memo
  }

  /** `/[name]` in front of the paths of a container. */
  function Decorate(name: Option<string>, path: string): string {
    if name.Some? then "/[" + name.value + "]" + path else path
  }

  /** Activity to be recorded; only I/O also counts towards the rates. */
  datatype Activity = Activity(path: string, pid: u32, container: Option<string>, stats: NodeStats, bytes: Option<u64>)

  /** What attribution adds to the ledger. */
  datatype Update = Update(failures: nat, ignored: nat, activity: Option<Activity>)

  const NOTHING := Update(0, 0, None)

  /** Memory after a step together with what the step adds. */
  datatype Step = Step(memory: Memory, update: Update)

  /** All that a step may learn about one descriptor. */
  datatype Sight = Sight(path: Option<string>, root: ContainerRoot, name: Option<string>)

  function SightOf(w: World, m: Memory, key: FdKey): Sight {
    Sight(if key in m.paths then Some(m.paths[key]) else None,
          Recall(m.roots, w.root, key.pid), Recall(m.names, w.container, key.pid))
  }

  /** Paths to store, which memos are filled, and what is added. */
  datatype Plan = Plan(stores: map<FdKey, string>, usesRoot: bool, usesName: bool, update: Update)

  /** `resolve_fd_path`: the cached path, or the resolution of an existing descriptor. */
  function LookUp(w: World, key: FdKey, sight: Sight): PathResolution {
    if sight.path.Some? then Resolved(sight.path.value) else w.existing(key, sight.root)
  }

  /** The plan of a step that attributes activity to a resolved path: excluded paths are
      dropped, others are decorated. */
  function Credit(w: World, pid: u32, sight: Sight, path: string, stores: map<FdKey, string>, usesRoot: bool,
                  failures: nat, stats: NodeStats, bytes: Option<u64>): Plan {
    if w.excluded(path) then Plan(stores, usesRoot, false, Update(failures, 0, None))
    else
      Plan(stores, usesRoot, true,
           Update(failures, 0, Some(Activity(Decorate(sight.name, path), pid, sight.name, stats, bytes))))
  }

  /** Fills the memos of one process and stores paths. */
  function Filled(w: World, m: Memory, pid: u32, plan: Plan): Memory {
    Memory(m.paths + plan.stores,
           Memoized(m.roots, w.root, pid, plan.usesRoot),
           Memoized(m.names, w.container, pid, plan.usesName))
  }

  // --- Groups of I/O ---

  datatype IoKey = IoKey(pid: u32, fd: u32, op: OpKind)

  datatype IoGroup = IoGroup(key: IoKey, bytes: u64, operations: u64, totalLatency: u64, maxLatency: u64)

  function Fd(key: IoKey): FdKey { FdKey(key.pid, key.fd) }

  function GroupStats(g: IoGroup): NodeStats {
    ForOperations(g.key.op, g.bytes, g.operations, g.totalLatency, g.maxLatency)
  }

  function GroupPlan(w: World, g: IoGroup, sight: Sight): Plan {
    var key, missed := Fd(g.key), sight.path.None?;
    var found := LookUp(w, key, sight);
    var usesRoot := missed && w.existingUsesRoot(key);
    if found.Ignored? then Plan(map[], usesRoot, false, Update(0, 1 + SatSub(g.operations, 1), None))
    else
      Credit(w, g.key.pid, sight, found.path, if missed then map[key := found.path] else map[], usesRoot,
             if found.Unresolved? then 1 else 0, GroupStats(g), Some(g.bytes))
  }

  /** The attribution half of `record_io_group`. */
  function GroupStep(w: World, m: Memory, g: IoGroup): Step {
    var plan := GroupPlan(w, g, SightOf(w, m, Fd(g.key)));
    Step(Filled(w, m, g.key.pid, plan), plan.update)
  }

  // --- Lifecycle events ---

  const CLOSE_RANGE_CLOEXEC: nat := 4

  datatype Lifecycle =
    | Opened(call: OpenCall)
    | Closed(pid: u32, fd: u32)
    | Duplicated(pid: u32, oldFd: u32, newFd: u32)
    | RangeClosed(pid: u32, first: u32, last: u32, flags: nat)
    | Replaced(pid: u32)
    | Exited(pid: u32)

  function ProcessOf(e: Lifecycle): u32 { if e.Opened? then e.call.pid else e.pid }

  /** Exec and exit end the accounting of a process. */
  predicate Ends(e: Lifecycle) { e.Replaced? || e.Exited? }

  predicate KeepsDescriptors(flags: nat) { flags / CLOSE_RANGE_CLOEXEC % 2 == 1 }

  /** The descriptor an event looks at. */
  function Subject(e: Lifecycle): FdKey {
    match e
    case Opened(call) => FdKey(call.pid, call.fd)
    case Closed(pid, fd) => FdKey(pid, fd)
    case Duplicated(pid, oldFd, _) => FdKey(pid, oldFd)
    case _ => FdKey(e.pid, 0)
  }

  /** The cache entries an event removes. */
  predicate Drops(e: Lifecycle, key: FdKey) {
    match e
    case Opened(_) => false
    case Closed(pid, fd) => key == FdKey(pid, fd)
    case Duplicated(pid, oldFd, newFd) => oldFd != newFd && key == FdKey(pid, newFd)
    case RangeClosed(pid, first, last, flags) => !KeepsDescriptors(flags) && key.pid == pid && first <= key.fd <= last
    case _ => key.pid == e.pid
  }

  function EventPlan(w: World, e: Lifecycle, sight: Sight): Plan {
    match e
    case Opened(call) =>
      var found, key := w.open(call, sight.root), FdKey(call.pid, call.fd);
      if found.Ignored? then Plan(map[], w.openUsesRoot(call), false, Update(0, 1, None))
      else
        Credit(w, call.pid, sight, found.path, map[key := found.path], w.openUsesRoot(call),
               if found.Unresolved? then 1 else 0, ForOperations(Open, 0, 1, 0, 0), None)
    case Closed(pid, fd) =>
      if sight.path.None? then Plan(map[], false, false, NOTHING)
      else Credit(w, pid, sight, sight.path.value, map[], false, 0, ForOperations(Close, 0, 1, 0, 0), None)
    case Duplicated(pid, oldFd, newFd) =>
      var source, missed := FdKey(pid, oldFd), sight.path.None?;
      var found := LookUp(w, source, sight);
      var usesRoot := missed && w.existingUsesRoot(source);
      if found.Ignored? then Plan(map[], usesRoot, false, Update(0, 1, None))
      else
        Plan(map[source := found.path, FdKey(pid, newFd) := found.path], usesRoot, false,
             Update(if found.Unresolved? then 1 else 0, 0, None))
    case _ => Plan(map[], false, false, NOTHING)
  }

  function KeptPaths(paths: map<FdKey, string>, e: Lifecycle): map<FdKey, string> {
    map k | k in paths && !Drops(e, k) :: paths[k]
  }

  /** The memory an event starts from: without what it removes. */
  function Kept(m: Memory, e: Lifecycle): Memory {
    Memory(KeptPaths(m.paths, e),
           if Ends(e) then m.roots - {ProcessOf(e)} else m.roots,
           if Ends(e) then m.names - {ProcessOf(e)} else m.names)
  }

  /** The attribution half of `ingest_lifecycle`. */
  function EventStep(w: World, m: Memory, e: Lifecycle): Step {
    var plan := EventPlan(w, e, SightOf(w, m, Subject(e)));
    Step(Filled(w, Kept(m, e), ProcessOf(e), plan), plan.update)
  }

  /** The groups that `flush_lifecycle_groups` records before the event. */
  predicate Affects(e: Lifecycle, key: IoKey) {
    match e
    case Opened(call) => key.pid == call.pid && key.fd == call.fd
    case Closed(pid, fd) => key.pid == pid && key.fd == fd
    case Duplicated(pid, oldFd, newFd) => key.pid == pid && (key.fd == oldFd || key.fd == newFd)
    case RangeClosed(pid, first, last, flags) => !KeepsDescriptors(flags) && key.pid == pid && first <= key.fd <= last
    case Replaced(pid) => key.pid == pid
    case Exited(pid) => key.pid == pid
  }

  // --- What steps leave alone ---

  /** Filling memos and storing other paths is invisible. */
  lemma FilledSight(w: World, m: Memory, pid: u32, plan: Plan, key: FdKey)
    requires key !in plan.stores
    ensures SightOf(w, Filled(w, m, pid, plan), key) == SightOf(w, m, key)
  {
  }

  lemma KeptSight(w: World, m: Memory, e: Lifecycle, key: FdKey)
    requires !Drops(e, key) && (Ends(e) ==> key.pid != ProcessOf(e))
    ensures SightOf(w, Kept(m, e), key) == SightOf(w, m, key)
  {
  }

  /** An event that does not flush a group neither stores nor drops its path, and looks at
      another descriptor if it looks at any. */
  lemma UnflushedApart(w: World, e: Lifecycle, sight: Sight, key: IoKey)
    requires !Affects(e, key)
    ensures !Drops(e, Fd(key)) && Fd(key) !in EventPlan(w, e, sight).stores
    ensures Ends(e) ==> key.pid != ProcessOf(e)
    ensures Fd(key) == Subject(e) ==> forall other :: EventPlan(w, e, other) == EventPlan(w, e, sight)
  {
  }

  /** The cache frame: an event leaves what is seen of every group it does not flush. */
  lemma UnflushedUnseen(w: World, m: Memory, e: Lifecycle, key: IoKey)
    requires !Affects(e, key)
    ensures SightOf(w, EventStep(w, m, e).memory, Fd(key)) == SightOf(w, m, Fd(key))
  {
    var plan := EventPlan(w, e, SightOf(w, m, Subject(e)));
    UnflushedApart(w, e, SightOf(w, m, Subject(e)), key);
    KeptSight(w, m, e, Fd(key));
    FilledSight(w, Kept(m, e), ProcessOf(e), plan, Fd(key));
  }

  lemma StoresSwap(paths: map<FdKey, string>, a: map<FdKey, string>, b: map<FdKey, string>)
    requires forall k :: k in a ==> k !in b
    ensures paths + a + b == paths + b + a
  {
  }

  lemma MemoSwap<V>(memo: map<u32, V>, source: u32 -> V, p: u32, q: u32, a: bool, b: bool)
    ensures Memoized(Memoized(memo, source, p, a), source, q, b) == Memoized(Memoized(memo, source, q, b), source, p, a)
  {
  }

  lemma MemoWithout<V>(memo: map<u32, V>, source: u32 -> V, p: u32, q: u32, used: bool)
    requires p != q
    ensures Memoized(memo - {q}, source, p, used) == Memoized(memo, source, p, used) - {q}
  {
  }

  lemma StoresKept(paths: map<FdKey, string>, stores: map<FdKey, string>, e: Lifecycle)
    requires forall k :: k in stores ==> !Drops(e, k)
    ensures KeptPaths(paths, e) + stores == KeptPaths(paths + stores, e)
  {
    hide Drops;
  }

  lemma FilledSwap(w: World, m: Memory, p: u32, q: u32, a: Plan, b: Plan)
    requires forall k :: k in a.stores ==> k !in b.stores
    ensures Filled(w, Filled(w, m, p, a), q, b) == Filled(w, Filled(w, m, q, b), p, a)
  {
    hide Memoized;
    StoresSwap(m.paths, a.stores, b.stores);
    MemoSwap(m.roots, w.root, p, q, a.usesRoot, b.usesRoot);
    MemoSwap(m.names, w.container, p, q, a.usesName, b.usesName);
  }

  lemma FilledKept(w: World, m: Memory, e: Lifecycle, pid: u32, plan: Plan)
    requires forall k :: k in plan.stores ==> !Drops(e, k)
    requires Ends(e) ==> pid != ProcessOf(e)
    ensures Filled(w, Kept(m, e), pid, plan) == Kept(Filled(w, m, pid, plan), e)
  {
    hide Memoized, KeptPaths;
    StoresKept(m.paths, plan.stores, e);
    if Ends(e) {
      MemoWithout(m.roots, w.root, pid, ProcessOf(e), plan.usesRoot);
      MemoWithout(m.names, w.container, pid, ProcessOf(e), plan.usesName);
    }
  }

  // --- Laws of attribution ---

  lemma EventPlanStays(w: World, m: Memory, e: Lifecycle, g: IoGroup)
    requires !Affects(e, g.key)
    ensures EventPlan(w, e, SightOf(w, GroupStep(w, m, g).memory, Subject(e))) == EventPlan(w, e, SightOf(w, m, Subject(e)))
  {
    var plan := GroupPlan(w, g, SightOf(w, m, Fd(g.key)));
    UnflushedApart(w, e, SightOf(w, m, Subject(e)), g.key);
    if Subject(e) != Fd(g.key) { FilledSight(w, m, g.key.pid, plan, Subject(e)); }
  }

  /** An event that leaves a group unflushed commutes with recording the group, and neither
      changes what the other adds. */
  lemma EventPassesGroup(w: World, m: Memory, e: Lifecycle, g: IoGroup)
    requires !Affects(e, g.key)
    ensures var first, second := GroupStep(w, m, g), EventStep(w, m, e);
            && EventStep(w, first.memory, e).memory == GroupStep(w, second.memory, g).memory
            && EventStep(w, first.memory, e).update == second.update
            && GroupStep(w, second.memory, g).update == first.update
  {
    hide *;
    var sight := SightOf(w, m, Subject(e));
    var p, q := GroupPlan(w, g, SightOf(w, m, Fd(g.key))), EventPlan(w, e, sight);
    EventPlanStays(w, m, e, g);
    UnflushedUnseen(w, m, e, g.key);
    UnflushedApart(w, e, sight, g.key);
    OwnStores(w, g, SightOf(w, m, Fd(g.key)));
    StepsByPlan(w, m, e, g);
    StepsByPlan(w, GroupStep(w, m, g).memory, e, g);
    StepsByPlan(w, EventStep(w, m, e).memory, e, g);
    FilledKept(w, m, e, g.key.pid, p);
    FilledSwap(w, Kept(m, e), g.key.pid, ProcessOf(e), p, q);
  }

  lemma StepsByPlan(w: World, m: Memory, e: Lifecycle, g: IoGroup)
    ensures var p := GroupPlan(w, g, SightOf(w, m, Fd(g.key)));
            GroupStep(w, m, g) == Step(Filled(w, m, g.key.pid, p), p.update)
    ensures var q := EventPlan(w, e, SightOf(w, m, Subject(e)));
            EventStep(w, m, e) == Step(Filled(w, Kept(m, e), ProcessOf(e), q), q.update)
  {
  }

  /** What is seen of a descriptor once one of its groups has been recorded. */
  function SeenAfter(w: World, key: FdKey, sight: Sight): Sight {
    var found := LookUp(w, key, sight);
    if found.Ignored? then sight else sight.(path := Some(found.path))
  }

  lemma GroupSight(w: World, m: Memory, g: IoGroup)
    ensures SightOf(w, GroupStep(w, m, g).memory, Fd(g.key)) == SeenAfter(w, Fd(g.key), SightOf(w, m, Fd(g.key)))
  {
  }

  /** Two groups of one descriptor: the first stores the path, the second finds it. */
  lemma PlansOfOneFd(w: World, a: IoGroup, b: IoGroup, sight: Sight)
    requires Fd(a.key) == Fd(b.key)
    ensures var p, q := GroupPlan(w, a, sight), GroupPlan(w, b, SeenAfter(w, Fd(a.key), sight));
            var q', p' := GroupPlan(w, b, sight), GroupPlan(w, a, SeenAfter(w, Fd(a.key), sight));
            && p.stores == q'.stores && q.stores == p'.stores && (q.stores == map[] || q.stores == p.stores)
            && p.usesRoot == q'.usesRoot && (q.usesRoot ==> p.usesRoot) && q.usesRoot == p'.usesRoot
            && p.usesName == q'.usesName == q.usesName == p'.usesName
            && Trade(p.update, q.update, q'.update, p'.update)
  {
  }

  lemma FilledTwice(w: World, m: Memory, pid: u32, p: Plan, q: Plan)
    requires q.stores == map[] || q.stores == p.stores
    requires (q.usesRoot ==> p.usesRoot) && (q.usesName ==> p.usesName)
    ensures Filled(w, Filled(w, m, pid, p), pid, q) == Filled(w, m, pid, p)
  {
    assert m.paths + p.stores + q.stores == m.paths + p.stores;
  }

  lemma GroupByPlan(w: World, m: Memory, g: IoGroup, sight: Sight)
    requires sight == SightOf(w, m, Fd(g.key))
    ensures GroupStep(w, m, g) == Step(Filled(w, m, g.key.pid, GroupPlan(w, g, sight)), GroupPlan(w, g, sight).update)
  {
  }

  /** Recording two groups in either order remembers the same and adds the same. */
  lemma GroupsCommute(w: World, m: Memory, a: IoGroup, b: IoGroup)
    ensures var a1, b1 := GroupStep(w, m, a), GroupStep(w, m, b);
            var a2, b2 := GroupStep(w, b1.memory, a), GroupStep(w, a1.memory, b);
            && a2.memory == b2.memory
            && Trade(a1.update, b2.update, b1.update, a2.update)
  {
    hide *;
    var u, v := SightOf(w, m, Fd(a.key)), SightOf(w, m, Fd(b.key));
    var p, q := GroupPlan(w, a, u), GroupPlan(w, b, v);
    var m1, m2 := GroupStep(w, m, a).memory, GroupStep(w, m, b).memory;
    GroupByPlan(w, m, a, u);
    GroupByPlan(w, m, b, v);
    if Fd(a.key) == Fd(b.key) {
      GroupSight(w, m, a);
      GroupSight(w, m, b);
      var seen := SeenAfter(w, Fd(a.key), u);
      PlansOfOneFd(w, a, b, u);
      SamePid(a.key, b.key);
      GroupByPlan(w, m1, b, seen);
      GroupByPlan(w, m2, a, SeenAfter(w, Fd(b.key), v));
      FilledTwice(w, m, a.key.pid, p, GroupPlan(w, b, seen));
      FilledTwice(w, m, a.key.pid, q, GroupPlan(w, a, seen));
      FilledAlike(w, m, a.key.pid, p, q);
    } else {
      OwnStores(w, a, u);
      OwnStores(w, b, v);
      FilledSight(w, m, a.key.pid, p, Fd(b.key));
      FilledSight(w, m, b.key.pid, q, Fd(a.key));
      GroupByPlan(w, m1, b, v);
      GroupByPlan(w, m2, a, u);
      FilledSwap(w, m, a.key.pid, b.key.pid, p, q);
      TradeSame(p.update, q.update);
    }
  }

  lemma TradeSame(a: Update, b: Update)
    ensures Trade(a, b, b, a)
  {
  }

  lemma SamePid(a: IoKey, b: IoKey)
    requires Fd(a) == Fd(b)
    ensures a.pid == b.pid
  {
  }

  lemma OwnStores(w: World, g: IoGroup, sight: Sight)
    ensures forall k :: k in GroupPlan(w, g, sight).stores ==> k == Fd(g.key)
  {
  }

  lemma FilledAlike(w: World, m: Memory, pid: u32, p: Plan, q: Plan)
    requires p.stores == q.stores && p.usesRoot == q.usesRoot && p.usesName == q.usesName
    ensures Filled(w, m, pid, p) == Filled(w, m, pid, q)
  {
  }

  /** The accumulation of two groups with one key. */
  function Combined(a: IoGroup, b: IoGroup): IoGroup {
    IoGroup(a.key, SatAdd(a.bytes, b.bytes), SatAdd(a.operations, b.operations),
            SatAdd(a.totalLatency, b.totalLatency), Max(a.maxLatency, b.maxLatency))
  }

  /** One update adds as much as two in a row. */
  ghost predicate Merge(first: Update, second: Update, whole: Update) {
    && first.failures + second.failures == whole.failures
    && Min(first.ignored + second.ignored, U64_MAX) == whole.ignored
    && (first.activity.Some? == second.activity.Some? == whole.activity.Some?)
    && (whole.activity.Some? ==>
          var x, y, z := first.activity.value, second.activity.value, whole.activity.value;
          && x.path == y.path == z.path && x.pid == y.pid == z.pid && x.container == y.container == z.container
          && z.stats == Accumulate(x.stats, y.stats)
          && x.bytes.Some? && y.bytes.Some? && z.bytes == Some(SatAdd(x.bytes.value, y.bytes.value)))
  }

  /** Two pairs of updates add the same in either order. */
  ghost predicate Trade(a1: Update, b2: Update, b1: Update, a2: Update) {
    && a1.failures + b2.failures == b1.failures + a2.failures
    && a1.ignored == a2.ignored && b1.ignored == b2.ignored
    && a1.activity == a2.activity && b1.activity == b2.activity
  }

  /** Recording two groups with one key is recording their accumulation. */
  lemma GroupsMerge(w: World, m: Memory, a: IoGroup, b: IoGroup)
    requires a.key == b.key && a.operations > 0 && b.operations > 0
    ensures var first, whole := GroupStep(w, m, a), GroupStep(w, m, Combined(a, b));
            var second := GroupStep(w, first.memory, b);
            && second.memory == whole.memory
            && Merge(first.update, second.update, whole.update)
  {
    hide *;
    var sight, c := SightOf(w, m, Fd(a.key)), Combined(a, b);
    var seen := SeenAfter(w, Fd(a.key), sight);
    CombinedKey(a, b);
    GroupByPlan(w, m, a, sight);
    GroupByPlan(w, m, c, sight);
    GroupSight(w, m, a);
    GroupByPlan(w, GroupStep(w, m, a).memory, b, seen);
    PlansMerge(w, a, b, sight);
    FilledTwice(w, m, a.key.pid, GroupPlan(w, a, sight), GroupPlan(w, b, seen));
    FilledAlike(w, m, a.key.pid, GroupPlan(w, a, sight), GroupPlan(w, c, sight));
  }

  lemma CombinedKey(a: IoGroup, b: IoGroup)
    ensures Combined(a, b).key == a.key
  {
  }

  lemma PlansMerge(w: World, a: IoGroup, b: IoGroup, sight: Sight)
    requires a.key == b.key && a.operations > 0 && b.operations > 0
    ensures var p, r := GroupPlan(w, a, sight), GroupPlan(w, Combined(a, b), sight);
            var q := GroupPlan(w, b, SeenAfter(w, Fd(a.key), sight));
            && (q.stores == map[] || q.stores == p.stores) && p.stores == r.stores
            && (q.usesRoot ==> p.usesRoot) && p.usesRoot == r.usesRoot
            && p.usesName == q.usesName == r.usesName
            && Merge(p.update, q.update, r.update)
  {
    StatsMerge(a, b);
  }

  lemma StatsMerge(a: IoGroup, b: IoGroup)
    requires a.key == b.key
    ensures GroupStats(Combined(a, b)) == Accumulate(GroupStats(a), GroupStats(b))
  {
  }
}
