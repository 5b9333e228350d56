/** The activity tree of `ncda/src/model.rs`. The heap structure of linked nodes is
    specified by a finite map from component paths to node data. */
module Tree {
  import opened Saturating
  import opened Stats
  import opened Paths
  import Counting

  datatype NodeData = NodeData(name: string, isDir: bool, stats: NodeStats, agg: NodeStats,
                               per: map<u32, NodeStats>)

  type Nodes = map<Path, NodeData>

  const EMPTY: Nodes := map[Root := NodeData("/", true, ZERO, ZERO, map[])]

  /** Adding a delta to the entry of a process, which is created on first use. */
  function Credit(per: map<u32, NodeStats>, pid: u32, delta: NodeStats): map<u32, NodeStats> {
    per[pid := if pid in per then Accumulate(per[pid], delta) else delta]
  }

  function Fresh(name: string, isDir: bool): NodeData { NodeData(name, isDir, ZERO, ZERO, map[]) }

  function Touched(d: NodeData, passesThrough: bool, delta: NodeStats): NodeData {
    d.(isDir := d.isDir || passesThrough, agg := Accumulate(d.agg, delta))
  }

  function Landed(d: NodeData, pid: u32, delta: NodeStats): NodeData {
    d.(stats := Accumulate(d.stats, delta), per := Credit(d.per, pid, delta))
  }

  /** The node at `p`, or the one that would be created there. */
  ghost function Existing(nodes: Nodes, p: Path): NodeData {
    if p in nodes then nodes[p]
    else match p
      case Root => Fresh("/", true)
      case Child(_, name) => Fresh(name, false)
  }

  /** `record_stats` after its walk towards `target` has come as far as `reached`. */
  ghost function Walked(nodes: Nodes, reached: Path, target: Path, delta: NodeStats): Nodes {
    map p | p in nodes.Keys + Ancestors(reached) ::
      if Above(p, reached) then Touched(Existing(nodes, p), p != target, delta) else nodes[p]
  }

  /** `record_stats`: every node on the path gains the delta, the leaf also directly;
      a path without components is skipped. */
  ghost function Recorded(nodes: Nodes, target: Path, pid: u32, delta: NodeStats): Nodes {
    if target == Root then nodes
    else
      map p | p in nodes.Keys + Ancestors(target) ::
        if p == target then Landed(Touched(Existing(nodes, p), false, delta), pid, delta)
        else if Above(p, target) then Touched(Existing(nodes, p), true, delta)
        else nodes[p]
  }

  /** `remove_process` as the scan over all nodes that the reverse index avoids. */
  ghost function Removed(nodes: Nodes, pid: u32): Nodes {
    map p | p in nodes :: nodes[p].(per := nodes[p].per - {pid})
  }

  // --- The reverse index ---

  ghost predicate Holds(nodes: Nodes, p: Path, pid: u32) {
    p in nodes && pid in nodes[p].per
  }

  predicate Spells(byProcess: map<u32, set<string>>, pid: u32, s: string) {
    pid in byProcess && s in byProcess[pid]
  }

  ghost function Holders(byProcess: map<u32, set<string>>, s: string): set<u32> {
    set pid | pid in byProcess && Spells(byProcess, pid, s)
  }

  function AddedSpelling(byProcess: map<u32, set<string>>, path: string, pid: u32): map<u32, set<string>> {
    byProcess[pid := (if pid in byProcess then byProcess[pid] else {}) + {path}]
  }

  /** The index after activity of `pid` at `path`: only its first spelling of a leaf is kept. */
  ghost function Reindexed(nodes: Nodes, byProcess: map<u32, set<string>>, path: string, pid: u32)
    : map<u32, set<string>>
  {
    if Place(path) == Root || Holds(nodes, Place(path), pid) then byProcess
    else AddedSpelling(byProcess, path, pid)
  }

  /** Each process indexes exactly one spelling of each leaf that holds it. */
  ghost predicate IndexesLeaves(nodes: Nodes, byProcess: map<u32, set<string>>) {
    && (forall pid :: pid in byProcess ==> byProcess[pid] != {})
    && (forall pid, s :: Spells(byProcess, pid, s) ==> Holds(nodes, Place(s), pid))
    && (forall p, pid :: Holds(nodes, p, pid) ==> exists s :: Spells(byProcess, pid, s) && Place(s) == p)
    && (forall pid, s, s' :: Spells(byProcess, pid, s) && Spells(byProcess, pid, s') && Place(s) == Place(s')
          ==> s == s')
  }

  function References(active: map<string, u64>, s: string): u64 {
    if s in active then active[s] else 0
  }

  /** `active` counts the processes behind each indexed spelling and drops unused ones. */
  ghost predicate CountsHolders(byProcess: map<u32, set<string>>, active: map<string, u64>) {
    && (forall s :: References(active, s) == |Holders(byProcess, s)|)
    && (forall s :: s in active ==> active[s] > 0)
  }

  /** Shape of the tree: parents exist and are directories, and every node carries the
      name under which its parent keeps it. */
  ghost predicate WellFormed(nodes: Nodes) {
    && Root in nodes && nodes[Root].name == "/" && nodes[Root].isDir
    && forall p :: p in nodes && p.Child? ==>
         p.parent in nodes && nodes[p.parent].isDir && nodes[p].name == p.name
  }

  /** Exactly the root and the nodes that have children are directories. */
  ghost predicate ParentsAreDirectories(nodes: Nodes) {
    forall p :: p in nodes ==> (nodes[p].isDir <==> p == Root || exists q :: q in nodes && q.Child? && q.parent == p)
  }

  lemma WalkStart(nodes: Nodes, target: Path, delta: NodeStats)
    requires WellFormed(nodes)
    ensures Walked(nodes, Root, target, delta)
         == nodes[Root := nodes[Root].(agg := Accumulate(nodes[Root].agg, delta))]
  {
  }

  lemma WalkStep(nodes: Nodes, p: Path, name: string, target: Path, delta: NodeStats)
    ensures Walked(nodes, Child(p, name), target, delta)
         == Walked(nodes, p, target, delta)[
              Child(p, name) := Touched(Existing(nodes, Child(p, name)), Child(p, name) != target, delta)]
    ensures Child(p, name) in Walked(nodes, p, target, delta) <==> Child(p, name) in nodes
    ensures Child(p, name) in nodes ==> Walked(nodes, p, target, delta)[Child(p, name)] == nodes[Child(p, name)]
  {
    if Above(Child(p, name), p) { AboveIsShallower(Child(p, name), p); }
  }

  lemma WalkEnd(nodes: Nodes, target: Path, pid: u32, delta: NodeStats)
    requires target != Root
    ensures var end := Walked(nodes, target, target, delta);
            && target in end && (pid in end[target].per <==> Holds(nodes, target, pid))
            && end[target := Landed(end[target], pid, delta)] == Recorded(nodes, target, pid, delta)
  {
  }

  lemma OnTheWay(p: Path, target: Path)
    requires p.Child? && Above(p, target)
    ensures Above(p.parent, target) && p.parent != target && target != Root
  {
    AboveTransitive(p.parent, p, target);
    AboveIsShallower(p, target);
  }

  lemma RecordedShape(nodes: Nodes, target: Path, pid: u32, delta: NodeStats)
    requires WellFormed(nodes)
    ensures WellFormed(Recorded(nodes, target, pid, delta))
  {
    var after := Recorded(nodes, target, pid, delta);
    forall p | p in after && p.Child?
      ensures p.parent in after && after[p.parent].isDir && after[p].name == p.name
    {
      if Above(p, target) { OnTheWay(p, target); }
    }
  }

  /** Recording makes directories of the nodes that it passes through, and of no others. */
  ghost predicate PassesThrough(nodes: Nodes, after: Nodes, target: Path) {
    && (forall p :: p in after <==> p in nodes || (target != Root && Above(p, target)))
    && (forall p :: p in after ==>
          (after[p].isDir <==> (p in nodes && nodes[p].isDir) || (p != target && Above(p, target))))
  }

  lemma RecordedPasses(nodes: Nodes, target: Path, pid: u32, delta: NodeStats)
    requires WellFormed(nodes)
    ensures PassesThrough(nodes, Recorded(nodes, target, pid, delta), target)
  {
    RootAbove(target);
    hide Accumulate, Credit, Above;
    forall p { AboveRoot(p); }
  }

  lemma AboveRoot(p: Path)
    ensures Above(p, Root) <==> p == Root
    ensures Above(Root, p)
  {
    RootAbove(p);
  }

  lemma PassedDirectory(nodes: Nodes, after: Nodes, target: Path, p: Path)
    requires WellFormed(nodes) && ParentsAreDirectories(nodes) && PassesThrough(nodes, after, target) && p in after
    ensures after[p].isDir <==> p == Root || exists q :: q in after && q.Child? && q.parent == p
  {
    hide Above;
    if p != target && Above(p, target) {
      var q := NextTowards(p, target);
      assert q in after;
    } else {
      forall q | q in after && q.Child? && q !in nodes
        ensures q.parent != p
      {
        OnTheWay(q, target);
      }
    }
  }

  lemma PassedDirectories(nodes: Nodes, after: Nodes, target: Path)
    requires WellFormed(nodes) && ParentsAreDirectories(nodes) && PassesThrough(nodes, after, target)
    ensures ParentsAreDirectories(after)
  {
    forall p | p in after
      ensures after[p].isDir <==> p == Root || exists q :: q in after && q.Child? && q.parent == p
    {
      PassedDirectory(nodes, after, target, p);
    }
    hide WellFormed, PassesThrough;
  }

  /** So directories stay exactly the root and the nodes with children. */
  lemma RecordedDirectories(nodes: Nodes, target: Path, pid: u32, delta: NodeStats)
    requires WellFormed(nodes) && ParentsAreDirectories(nodes)
    ensures ParentsAreDirectories(Recorded(nodes, target, pid, delta))
  {
    hide *;
    RecordedPasses(nodes, target, pid, delta);
    PassedDirectories(nodes, Recorded(nodes, target, pid, delta), target);
  }

  /** The child of `p` on the way down to `target`. */
  lemma {:induction false} NextTowards(p: Path, target: Path) returns (q: Path)
    requires Above(p, target) && p != target
    ensures q.Child? && q.parent == p && Above(q, target)
  {
    q := target;
    if target.parent != p { q := NextTowards(p, target.parent); }
  }

  lemma RemovedDirectories(nodes: Nodes, pid: u32)
    ensures ParentsAreDirectories(nodes) ==> ParentsAreDirectories(Removed(nodes, pid))
  {
    var after := Removed(nodes, pid);
    assert after.Keys == nodes.Keys && forall p :: p in after ==> after[p].isDir == nodes[p].isDir;
    assert forall q :: q in after <==> q in nodes;
  }

  lemma RecordedHolds(nodes: Nodes, target: Path, pid: u32, delta: NodeStats, p: Path, q: u32)
    requires target != Root
    ensures Holds(Recorded(nodes, target, pid, delta), p, q) <==> Holds(nodes, p, q) || (p == target && q == pid)
  {
  }

  /** All that the shape of the tree and its index need to know of a recording. */
  lemma RecordedFacts(nodes: Nodes, target: Path, pid: u32, delta: NodeStats)
    requires WellFormed(nodes) && ParentsAreDirectories(nodes)
    ensures var after := Recorded(nodes, target, pid, delta);
            && WellFormed(after) && ParentsAreDirectories(after) && PassesThrough(nodes, after, target)
            && (target != Root ==>
                  forall p, q :: Holds(after, p, q) <==> Holds(nodes, p, q) || (p == target && q == pid))
  {
    hide *;
    RecordedShape(nodes, target, pid, delta);
    RecordedPasses(nodes, target, pid, delta);
    RecordedDirectories(nodes, target, pid, delta);
    if target != Root {
      forall p, q { RecordedHolds(nodes, target, pid, delta, p, q); }
    }
  }

  lemma RecordedNowhere(nodes: Nodes, pid: u32, delta: NodeStats)
    ensures Recorded(nodes, Root, pid, delta) == nodes
  {
  }

  lemma IndexKept(nodes: Nodes, after: Nodes, byProcess: map<u32, set<string>>)
    requires IndexesLeaves(nodes, byProcess)
    requires forall p, q :: Holds(after, p, q) <==> Holds(nodes, p, q)
    ensures IndexesLeaves(after, byProcess)
  {
  }

  lemma IndexGrows(nodes: Nodes, after: Nodes, byProcess: map<u32, set<string>>, path: string, pid: u32)
    requires IndexesLeaves(nodes, byProcess)
    requires !Holds(nodes, Place(path), pid)
    requires forall p, q :: Holds(after, p, q) <==> Holds(nodes, p, q) || (p == Place(path) && q == pid)
    ensures IndexesLeaves(after, AddedSpelling(byProcess, path, pid))
    ensures !Spells(byProcess, pid, path)
  {
    var grown := AddedSpelling(byProcess, path, pid);
    assert forall q, s :: Spells(grown, q, s) <==> Spells(byProcess, q, s) || (q == pid && s == path);
    forall p, q | Holds(after, p, q)
      ensures exists s :: Spells(grown, q, s) && Place(s) == p
    {
      if p == Place(path) && q == pid {
        assert Spells(grown, q, path);
      } else {
        var s :| Spells(byProcess, q, s) && Place(s) == p;
        assert Spells(grown, q, s);
      }
    }
  }

  lemma HoldersBound(byProcess: map<u32, set<string>>, s: string)
    ensures |Holders(byProcess, s)| <= 0x1_0000_0000
  {
    var holders := Holders(byProcess, s);
    var same: set<int> := set q: int | q in holders;
    assert same == holders;
    Counting.CardinalityBound(same, 0x1_0000_0000);
  }

  lemma HoldersGrow(byProcess: map<u32, set<string>>, path: string, pid: u32, s: string)
    ensures Holders(AddedSpelling(byProcess, path, pid), s)
         == if s == path then Holders(byProcess, s) + {pid} else Holders(byProcess, s)
  {
    var grown := AddedSpelling(byProcess, path, pid);
    assert forall q :: Spells(grown, q, s) <==> Spells(byProcess, q, s) || (q == pid && s == path);
    assert forall q: u32 :: q in Holders(grown, s) <==> Spells(grown, q, s);
    assert forall q: u32 :: q in Holders(byProcess, s) <==> Spells(byProcess, q, s);
  }

  lemma CountGrows(byProcess: map<u32, set<string>>, active: map<string, u64>, path: string, pid: u32)
    requires CountsHolders(byProcess, active)
    requires !Spells(byProcess, pid, path)
    ensures CountsHolders(AddedSpelling(byProcess, path, pid), active[path := SatAdd(References(active, path), 1)])
  {
    HoldersBound(byProcess, path);
    var grown := AddedSpelling(byProcess, path, pid);
    forall s
      ensures |Holders(grown, s)| == |Holders(byProcess, s)| + if s == path then 1 else 0
    {
      HoldersGrow(byProcess, path, pid, s);
    }
  }

  lemma {:induction false} AncestorsExist(nodes: Nodes, p: Path, q: Path)
    requires WellFormed(nodes) && q in nodes && Above(p, q)
    ensures p in nodes
    decreases q
  {
    if p != q { AncestorsExist(nodes, p, q.parent); }
  }

  // --- Removing a process through the index ---

  /** `remove_process` after it has visited `done`. */
  ghost function Cleared(nodes: Nodes, pid: u32, done: set<Path>): Nodes {
    map p | p in nodes :: if p in done then nodes[p].(per := nodes[p].per - {pid}) else nodes[p]
  }

  ghost function Places(spellings: set<string>): set<Path> { set s | s in spellings :: Place(s) }

  lemma ClearedNext(nodes: Nodes, pid: u32, done: set<string>, s: string)
    ensures Cleared(Cleared(nodes, pid, Places(done)), pid, {Place(s)}) == Cleared(nodes, pid, Places(done + {s}))
    ensures WellFormed(nodes) ==> WellFormed(Cleared(nodes, pid, Places(done)))
  {
    assert Places(done + {s}) == Places(done) + {Place(s)};
    assert forall p :: p in nodes ==> nodes[p].per - {pid} - {pid} == nodes[p].per - {pid};
  }

  lemma ClearedAll(nodes: Nodes, pid: u32, done: set<Path>)
    requires forall p :: Holds(nodes, p, pid) ==> p in done
    ensures Cleared(nodes, pid, done) == Removed(nodes, pid)
  {
    forall p | p in nodes && p !in done
      ensures nodes[p].per - {pid} == nodes[p].per
    {
      assert !Holds(nodes, p, pid);
    }
  }

  lemma RemovedShape(nodes: Nodes, pid: u32)
    ensures WellFormed(nodes) ==> WellFormed(Removed(nodes, pid))
    ensures forall p, q :: Holds(Removed(nodes, pid), p, q) <==> Holds(nodes, p, q) && q != pid
  {
  }

  lemma IndexShrinks(nodes: Nodes, after: Nodes, byProcess: map<u32, set<string>>, pid: u32)
    requires IndexesLeaves(nodes, byProcess)
    requires forall p, q :: Holds(after, p, q) <==> Holds(nodes, p, q) && q != pid
    ensures IndexesLeaves(after, byProcess - {pid})
  {
    assert forall q, s :: Spells(byProcess - {pid}, q, s) <==> Spells(byProcess, q, s) && q != pid;
  }

  lemma IndexedPlaces(nodes: Nodes, byProcess: map<u32, set<string>>, pid: u32)
    requires IndexesLeaves(nodes, byProcess) && pid in byProcess
    ensures Cleared(nodes, pid, Places(byProcess[pid])) == Removed(nodes, pid)
  {
    forall p | Holds(nodes, p, pid)
      ensures p in Places(byProcess[pid])
    {
      var s :| Spells(byProcess, pid, s) && Place(s) == p;
    }
    ClearedAll(nodes, pid, Places(byProcess[pid]));
  }

  lemma HoldersShrink(byProcess: map<u32, set<string>>, pid: u32, s: string)
    ensures |Holders(byProcess - {pid}, s)| == |Holders(byProcess, s)| - if Spells(byProcess, pid, s) then 1 else 0
  {
    assert Holders(byProcess - {pid}, s) == Holders(byProcess, s) - {pid};
  }

  /** The activity tree and its reverse index. `nodes` holds the nested tables of child
      nodes, each node under its place. */
  class FileTree {
    var nodes: Nodes
    var activePaths: map<string, u64>
    var pathsByProcess: map<u32, set<string>>

    ghost predicate Valid()
      reads this
    {
      && WellFormed(nodes) && ParentsAreDirectories(nodes)
      && IndexesLeaves(nodes, pathsByProcess)
      && CountsHolders(pathsByProcess, activePaths)
    }

    constructor ()
      ensures Valid()
      ensures nodes == EMPTY && pathsByProcess == map[] && activePaths == map[]
    {
      nodes, activePaths, pathsByProcess := EMPTY, map[], map[];
    }

    /** The walk of `record_stats`, creating missing nodes and adding to every aggregate. */
    method Walk(components: seq<string>, delta: NodeStats) returns (leaf: Path)
      requires WellFormed(nodes) && components != []
      modifies `nodes
      ensures leaf == PathOf(components)
      ensures nodes == Walked(old(nodes), leaf, leaf, delta)
      ensures forall p :: p in nodes ==>
                (nodes[p].isDir <==> (p in old(nodes) && old(nodes)[p].isDir) || (p != leaf && Above(p, leaf)))
    {
      ghost var was, target := nodes, PathOf(components);
      WalkStart(was, target, delta);
      leaf := Root;
      nodes := nodes[leaf := nodes[leaf].(agg := Accumulate(nodes[leaf].agg, delta))];
      for i := 0 to |components|
        invariant leaf == PathOf(components[..i])
        invariant nodes == Walked(was, leaf, target, delta)
      {
        var isLast := i == |components| - 1;
        WalkStep(was, leaf, components[i], target, delta);
        assert components[..i + 1][..i] == components[..i];
        leaf := Child(leaf, components[i]);
        assert leaf == PathOf(components[..i + 1]);
        assert isLast ==> components[..i + 1] == components;
        var data := if leaf in nodes then nodes[leaf] else Fresh(components[i], !isLast);
        if !isLast {
          data := data.(isDir := true);
        }
        nodes := nodes[leaf := data.(agg := Accumulate(data.agg, delta))];
      }
      assert components[..|components|] == components;
    }

    /** The leaf half of `record_stats` after its walk: `IndexActivity` follows when this
        process reaches the leaf for the first time. */
    method IndexActivity(path: string, pid: u32, ghost before: Nodes)
      requires IndexesLeaves(before, pathsByProcess) && CountsHolders(pathsByProcess, activePaths)
      requires !Holds(before, Place(path), pid)
      requires forall p, q :: Holds(nodes, p, q) <==> Holds(before, p, q) || (p == Place(path) && q == pid)
      modifies `pathsByProcess, `activePaths
      ensures IndexesLeaves(nodes, pathsByProcess) && CountsHolders(pathsByProcess, activePaths)
      ensures pathsByProcess == AddedSpelling(old(pathsByProcess), path, pid)
    {
      IndexGrows(before, nodes, pathsByProcess, path, pid);
      CountGrows(pathsByProcess, activePaths, path, pid);
      pathsByProcess := AddedSpelling(pathsByProcess, path, pid);
      activePaths := activePaths[path := SatAdd(References(activePaths, path), 1)];
    }

    method RecordStats(path: string, pid: u32, delta: NodeStats)
      requires Valid()
      modifies this
      ensures Valid()
      ensures nodes == Recorded(old(nodes), Place(path), pid, delta)
      ensures PassesThrough(old(nodes), nodes, Place(path))
      ensures pathsByProcess == Reindexed(old(nodes), old(pathsByProcess), path, pid)
    {
      var components := Components(path);
      hide Recorded, Walked, Landed, Holds, WellFormed, ParentsAreDirectories, PassesThrough;
      hide IndexesLeaves, CountsHolders, AddedSpelling;
      RecordedFacts(nodes, Place(path), pid, delta);
      if components == [] {
        RecordedNowhere(nodes, pid, delta);
        return;
      }
      var leaf := Walk(components, delta);
      WalkEnd(old(nodes), leaf, pid, delta);
      var first := pid !in nodes[leaf].per;
      nodes := nodes[leaf := Landed(nodes[leaf], pid, delta)];
      if first {
        IndexActivity(path, pid, old(nodes));
      } else {
        IndexKept(old(nodes), nodes, pathsByProcess);
      }
    }

    /** `find_node_mut`: the place named by `path`, if the tree has it. */
    method FindNode(path: string) returns (place: Option<Path>)
      requires WellFormed(nodes)
      ensures place == if Place(path) in nodes then Some(Place(path)) else None
    {
      var components := Components(path);
      var node := Root;
      for i := 0 to |components|
        invariant node == PathOf(components[..i]) && node in nodes
      {
        assert components[..i + 1][..i] == components[..i];
        node := Child(node, components[i]);
        PrefixIsAbove(components, i + 1);
        if node !in nodes {
          if Place(path) in nodes { AncestorsExist(nodes, node, Place(path)); }
          return None;
        }
      }
      assert components[..|components|] == components;
      return Some(node);
    }

    /** Lets go of one spelling, dropping it with its last process. */
    method Release(s: string)
      modifies `activePaths
      ensures forall t :: References(activePaths, t) == SatSub(References(old(activePaths), t), if t == s then 1 else 0)
      ensures (forall t :: t in old(activePaths) ==> old(activePaths)[t] > 0)
           ==> (forall t :: t in activePaths ==> activePaths[t] > 0)
    {
      if s in activePaths {
        if activePaths[s] <= 1 {
          activePaths := activePaths - {s};
        } else {
          activePaths := activePaths[s := activePaths[s] - 1];
        }
      }
    }

    /** The body of the loop of `remove_process`. */
    method RemoveOne(s: string, pid: u32)
      requires WellFormed(nodes) && Place(s) in nodes
      requires forall t :: t in activePaths ==> activePaths[t] > 0
      modifies `nodes, `activePaths
      ensures nodes == Cleared(old(nodes), pid, {Place(s)})
      ensures forall t :: References(activePaths, t) == SatSub(References(old(activePaths), t), if t == s then 1 else 0)
      ensures forall t :: t in activePaths ==> activePaths[t] > 0
    {
      var place := FindNode(s);
      if place.Some? {
        nodes := nodes[place.value := nodes[place.value].(per := nodes[place.value].per - {pid})];
      }
      Release(s);
    }

    /** The loop of `remove_process`, in no particular order. */
    method RemoveFrom(spellings: set<string>, pid: u32)
      requires WellFormed(nodes) && forall s :: s in spellings ==> Place(s) in nodes
      requires forall s :: s in activePaths ==> activePaths[s] > 0
      modifies `nodes, `activePaths
      ensures nodes == Cleared(old(nodes), pid, Places(spellings))
      ensures forall s :: References(activePaths, s)
                == SatSub(References(old(activePaths), s), if s in spellings then 1 else 0)
      ensures forall s :: s in activePaths ==> activePaths[s] > 0
    {
      ghost var was, done: set<string> := nodes, {};
      var rest := spellings;
      while rest != {}
        invariant rest !! done && spellings == rest + done
        invariant nodes == Cleared(was, pid, Places(done))
        invariant forall s :: References(activePaths, s)
                    == SatSub(References(old(activePaths), s), if s in done then 1 else 0)
        invariant forall s :: s in activePaths ==> activePaths[s] > 0
      {
        var s :| s in rest;
        ClearedNext(was, pid, done, s);
        RemoveOne(s, pid);
        rest, done := rest - {s}, done + {s};
      }
    }

    /** Visits only the places indexed for `pid`. */
    method RemoveProcess(pid: u32)
      requires Valid()
      modifies this
      ensures Valid()
      ensures nodes == Removed(old(nodes), pid)
      ensures pathsByProcess == old(pathsByProcess) - {pid}
    {
      ghost var was, indexed := nodes, pathsByProcess;
      RemovedShape(was, pid);
      RemovedDirectories(was, pid);
      IndexShrinks(was, Removed(was, pid), indexed, pid);
      forall s { HoldersShrink(indexed, pid, s); }
      if pid !in pathsByProcess {
        ClearedAll(was, pid, {});
        return;
      }
      IndexedPlaces(was, indexed, pid);
      forall s | s in indexed[pid]
        ensures Place(s) in was
      {
        assert Spells(indexed, pid, s) && Holds(was, Place(s), pid);
      }
      var spellings := pathsByProcess[pid];
      pathsByProcess := pathsByProcess - {pid};
      RemoveFrom(spellings, pid);
    }

    method Reset()
      modifies this
      ensures Valid()
      ensures nodes == EMPTY && pathsByProcess == map[] && activePaths == map[]
    {
      nodes, activePaths, pathsByProcess := EMPTY, map[], map[];
    }
  }
}
