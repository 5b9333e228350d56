/** What every history of the activity tree keeps: aggregates equal a recomputation,
    per-process entries add up, and the reverse index is determined by the tree. */
module TreeLaws {
  import opened Saturating
  import opened Stats
  import opened Paths
  import opened Tree

  // --- Aggregates ---

  ghost function ChildAggregates(nodes: Nodes, p: Path): map<Path, NodeStats> {
    map q | q in nodes && q.Child? && q.parent == p :: nodes[q].agg
  }

  /** Every aggregate is the node's own statistics combined with its children's aggregates. */
  ghost predicate Aggregated(nodes: Nodes) {
    forall p :: p in nodes ==> nodes[p].agg == Accumulate(nodes[p].stats, Sum(ChildAggregates(nodes, p)))
  }

  /** The child of `p` on the way down to `target`. */
  ghost function StepTowards(p: Path, target: Path): (c: Path)
    requires Above(p, target) && p != target
    ensures c.Child? && c.parent == p && Above(c, target)
  {
    if target.parent == p then target else StepTowards(p, target.parent)
  }

  lemma {:induction false} SiblingsApart(c: Path, d: Path, q: Path)
    requires c.Child? && d.Child? && c.parent == d.parent && Above(c, q) && Above(d, q)
    ensures c == d
    decreases q
  {
    AboveIsShallower(c, q);
    AboveIsShallower(d, q);
    if c != q && d != q { SiblingsApart(c, d, q.parent); }
  }

  /** `after` adds `delta` to the aggregates from the root down to `target` and to the
      target's own statistics, as seen from outside `record_stats`. */
  ghost predicate AddsAlong(nodes: Nodes, after: Nodes, target: Path, delta: NodeStats) {
    && (forall q :: q in after <==> q in nodes || Above(q, target))
    && (forall q :: q in after ==>
          after[q].agg == if Above(q, target) then Accumulate(Existing(nodes, q).agg, delta) else nodes[q].agg)
    && (forall q :: q in after ==>
          after[q].stats == if q == target then Accumulate(Existing(nodes, q).stats, delta) else Existing(nodes, q).stats)
  }

  lemma RecordedAddsAlong(nodes: Nodes, target: Path, pid: u32, delta: NodeStats)
    requires target != Root
    ensures AddsAlong(nodes, Recorded(nodes, target, pid, delta), target, delta)
  {
  }

  /** Among the children of `p`, only the next one towards `target` changes. */
  lemma ChildAfter(nodes: Nodes, after: Nodes, target: Path, delta: NodeStats, p: Path, q: Path)
    requires AddsAlong(nodes, after, target, delta)
    requires Above(p, target) && p != target && q.Child? && q.parent == p
    ensures q == StepTowards(p, target) ==>
              q in after && after[q].agg == if q in nodes then Accumulate(nodes[q].agg, delta) else delta
    ensures q != StepTowards(p, target) ==> (q in after <==> q in nodes) && (q in after ==> after[q].agg == nodes[q].agg)
  {
    if Above(q, target) { SiblingsApart(q, StepTowards(p, target), target); }
    AccumulateMonoid(delta, ZERO, ZERO);
    AccumulateMonoid(ZERO, delta, ZERO);
    hide Accumulate;
  }

  lemma OnlyOneChildGrows(nodes: Nodes, after: Nodes, target: Path, delta: NodeStats, p: Path)
    requires AddsAlong(nodes, after, target, delta)
    requires Above(p, target) && p != target
    ensures var before, c := ChildAggregates(nodes, p), StepTowards(p, target);
            ChildAggregates(after, p) == before[c := if c in before then Accumulate(before[c], delta) else delta]
  {
    hide Accumulate, Above, AddsAlong, StepTowards;
    forall q: Path | q.Child? && q.parent == p { ChildAfter(nodes, after, target, delta, p, q); }
  }

  lemma OtherChildrenStay(nodes: Nodes, after: Nodes, target: Path, delta: NodeStats, p: Path)
    requires AddsAlong(nodes, after, target, delta)
    requires Above(p, target) ==> p == target
    ensures ChildAggregates(after, p) == ChildAggregates(nodes, p)
  {
    forall q: Path | q.Child? && q.parent == p
      ensures !Above(q, target)
    {
      if Above(q, target) { OnTheWay(q, target); }
    }
  }

  lemma AddedKeepsAggregates(nodes: Nodes, after: Nodes, target: Path, delta: NodeStats, p: Path)
    requires WellFormed(nodes) && Aggregated(nodes) && AddsAlong(nodes, after, target, delta) && p in after
    ensures after[p].agg == Accumulate(after[p].stats, Sum(ChildAggregates(after, p)))
  {
    var before := ChildAggregates(nodes, p);
    var own := Existing(nodes, p).stats;
    assert Existing(nodes, p).agg == Accumulate(own, Sum(before)) by {
      if p !in nodes { assert before == map[]; }
    }
    if Above(p, target) && p != target {
      OnlyOneChildGrows(nodes, after, target, delta, p);
      SumGrow(before, StepTowards(p, target), delta);
      AccumulateMonoid(own, Sum(before), delta);
    } else {
      OtherChildrenStay(nodes, after, target, delta, p);
      AccumulateSwap(own, Sum(before), delta);
    }
  }

  lemma RecordedKeepsAggregates(nodes: Nodes, target: Path, pid: u32, delta: NodeStats)
    requires WellFormed(nodes) && Aggregated(nodes)
    ensures Aggregated(Recorded(nodes, target, pid, delta))
  {
    if target != Root {
      var after := Recorded(nodes, target, pid, delta);
      RecordedAddsAlong(nodes, target, pid, delta);
      forall p | p in after { AddedKeepsAggregates(nodes, after, target, delta, p); }
    }
  }

  lemma SameChildAggregates(nodes: Nodes, after: Nodes, p: Path)
    requires forall q :: q in after <==> q in nodes
    requires forall q :: q in after ==> after[q].agg == nodes[q].agg
    ensures ChildAggregates(after, p) == ChildAggregates(nodes, p)
  {
  }

  lemma SameStatsSameAggregates(nodes: Nodes, after: Nodes)
    requires Aggregated(nodes)
    requires forall p :: p in after <==> p in nodes
    requires forall p :: p in after ==> after[p].agg == nodes[p].agg && after[p].stats == nodes[p].stats
    ensures Aggregated(after)
  {
    forall p { SameChildAggregates(nodes, after, p); }
  }

  lemma RemovedKeepsAggregates(nodes: Nodes, pid: u32)
    requires Aggregated(nodes)
    ensures Aggregated(Removed(nodes, pid))
  {
    SameStatsSameAggregates(nodes, Removed(nodes, pid));
  }

  lemma EmptyAggregated()
    ensures WellFormed(EMPTY) && Aggregated(EMPTY)
  {
    assert ChildAggregates(EMPTY, Root) == map[];
    AccumulateMonoid(ZERO, ZERO, ZERO);
  }

  ghost function Below(nodes: Nodes, p: Path): set<Path> { set q | q in nodes && Above(p, q) }

  lemma ChildHasLessBelow(nodes: Nodes, p: Path, c: Path)
    requires p in nodes && c.Child? && c.parent == p
    ensures |Below(nodes, c)| < |Below(nodes, p)|
  {
    forall q | Above(c, q)
      ensures Above(p, q) && q != p
    {
      AboveTransitive(p, c, q);
      AboveIsShallower(c, q);
    }
    assert p in Below(nodes, p) && p !in Below(nodes, c);
    assert Below(nodes, c) <= Below(nodes, p);
    SmallerSet(Below(nodes, c), Below(nodes, p));
  }

  lemma SmallerSet<T>(a: set<T>, b: set<T>)
    requires a < b
    ensures |a| < |b|
  {
    assert b == a + (b - a);
  }

  /** The aggregate computed afresh from the statistics of the whole subtree. */
  ghost function Recomputed(nodes: Nodes, p: Path): NodeStats
    requires p in nodes
    decreases |Below(nodes, p)|
  {
    Accumulate(nodes[p].stats,
               Sum(map q | q in nodes && q.Child? && q.parent == p ::
                     ChildHasLessBelow(nodes, p, q); Recomputed(nodes, q)))
  }

  lemma {:induction false} AggregateIsRecomputed(nodes: Nodes, p: Path)
    requires Aggregated(nodes) && p in nodes
    ensures nodes[p].agg == Recomputed(nodes, p)
    decreases |Below(nodes, p)|
  {
    forall q | q in nodes && q.Child? && q.parent == p
      ensures nodes[q].agg == Recomputed(nodes, q)
    {
      ChildHasLessBelow(nodes, p, q);
      AggregateIsRecomputed(nodes, q);
    }
    assert ChildAggregates(nodes, p)
        == map q | q in nodes && q.Child? && q.parent == p :: Recomputed(nodes, q);
  }

  // --- Entries of processes ---

  type Entry = (Path, u32)

  /** Everything one process did, node by node. */
  ghost function EntriesOf(nodes: Nodes, pid: u32): map<Path, NodeStats> {
    map p | p in nodes && pid in nodes[p].per :: nodes[p].per[pid]
  }

  /** What is left of the processes on a node never exceeds the node's statistics. */
  ghost predicate EntriesWithinStats(nodes: Nodes) {
    forall p :: p in nodes ==> AtMost(Sum(nodes[p].per), nodes[p].stats)
  }

  /** Every entry counts at least one operation. */
  ghost predicate EntriesCount(nodes: Nodes) {
    forall p, pid :: Holds(nodes, p, pid) ==> TotalOps(nodes[p].per[pid]) > 0
  }

  ghost function PerAt(nodes: Nodes, p: Path): map<u32, NodeStats> {
    if p in nodes then nodes[p].per else map[]
  }

  /** `after` credits the entry of `pid` at `target` and changes no other entry. */
  ghost predicate Credits(nodes: Nodes, after: Nodes, target: Path, pid: u32, delta: NodeStats) {
    && (forall p :: p in nodes ==> p in after)
    && target in after && after[target].per == Credit(PerAt(nodes, target), pid, delta)
    && (forall p :: p in after && p != target ==> after[p].per == PerAt(nodes, p))
  }

  lemma RecordedCredits(nodes: Nodes, target: Path, pid: u32, delta: NodeStats)
    requires target != Root
    ensures Credits(nodes, Recorded(nodes, target, pid, delta), target, pid, delta)
  {
  }

  lemma CreditedEntries(nodes: Nodes, after: Nodes, target: Path, pid: u32, delta: NodeStats, q: u32)
    requires Credits(nodes, after, target, pid, delta)
    ensures var before := EntriesOf(nodes, q);
            EntriesOf(after, q) ==
            if q != pid then before
            else before[target := if target in before then Accumulate(before[target], delta) else delta]
  {
  }

  lemma CreditedTotal(nodes: Nodes, after: Nodes, target: Path, pid: u32, delta: NodeStats, q: u32)
    requires Credits(nodes, after, target, pid, delta)
    ensures Sum(EntriesOf(after, q))
         == if q == pid then Accumulate(Sum(EntriesOf(nodes, q)), delta) else Sum(EntriesOf(nodes, q))
    ensures (EntriesOf(after, q) == map[]) <==> (EntriesOf(nodes, q) == map[] && q != pid)
  {
    CreditedEntries(nodes, after, target, pid, delta, q);
    SumGrow(EntriesOf(nodes, q), target, delta);
    if q == pid { assert target in EntriesOf(after, q); }
  }

  lemma RemovedTotal(nodes: Nodes, pid: u32, q: u32)
    ensures EntriesOf(Removed(nodes, pid), q) == if q == pid then map[] else EntriesOf(nodes, q)
  {
  }

  lemma AccumulateBounds(a: NodeStats, b: NodeStats, delta: NodeStats)
    ensures AtMost(a, b) ==> AtMost(Accumulate(a, delta), Accumulate(b, delta))
    ensures AtMost(a, Accumulate(a, delta))
    ensures TotalOps(delta) > 0 ==> TotalOps(Accumulate(a, delta)) > 0
  {
  }

  lemma RecordedKeepsEntries(nodes: Nodes, target: Path, pid: u32, delta: NodeStats)
    requires EntriesWithinStats(nodes) && EntriesCount(nodes) && TotalOps(delta) > 0
    ensures EntriesWithinStats(Recorded(nodes, target, pid, delta))
    ensures EntriesCount(Recorded(nodes, target, pid, delta))
  {
    if target != Root {
      var after := Recorded(nodes, target, pid, delta);
      RecordedCredits(nodes, target, pid, delta);
      RecordedAddsAlong(nodes, target, pid, delta);
      CreditedCounts(nodes, after, target, pid, delta);
      CreditedWithin(Existing(nodes, target), pid, delta);
    }
  }

  lemma CreditedWithin(d: NodeData, pid: u32, delta: NodeStats)
    requires AtMost(Sum(d.per), d.stats)
    ensures AtMost(Sum(Credit(d.per, pid, delta)), Accumulate(d.stats, delta))
  {
    SumGrow(d.per, pid, delta);
    AccumulateBounds(Sum(d.per), d.stats, delta);
  }

  lemma CreditedCounts(nodes: Nodes, after: Nodes, target: Path, pid: u32, delta: NodeStats)
    requires EntriesCount(nodes) && TotalOps(delta) > 0
    requires Credits(nodes, after, target, pid, delta)
    ensures EntriesCount(after)
  {
    forall p, q | Holds(after, p, q)
      ensures TotalOps(after[p].per[q]) > 0
    {
      if p == target && q == pid {
        if Holds(nodes, p, q) { AccumulateBounds(nodes[p].per[q], ZERO, delta); }
      } else {
        assert Holds(nodes, p, q);
      }
    }
  }

  lemma RemovedKeepsEntries(nodes: Nodes, pid: u32)
    requires EntriesWithinStats(nodes) && EntriesCount(nodes)
    ensures EntriesWithinStats(Removed(nodes, pid)) && EntriesCount(Removed(nodes, pid))
  {
    forall p | p in nodes
      ensures AtMost(Sum(nodes[p].per - {pid}), nodes[p].stats)
    {
      SumMonotone(nodes[p].per - {pid}, nodes[p].per);
    }
    forall p, q | Holds(Removed(nodes, pid), p, q)
      ensures Holds(nodes, p, q)
    {
    }
  }

  // --- The reverse index ---

  /** No two spellings of one leaf are used for the same process. */
  ghost predicate SameSpellings(byProcess: map<u32, set<string>>, byProcess': map<u32, set<string>>) {
    forall pid, s, s' :: Spells(byProcess, pid, s) && Spells(byProcess', pid, s') && Place(s) == Place(s') ==> s == s'
  }

  /** The index is a function of the tree, up to the choice of spellings. */
  lemma IndexDetermined(nodes: Nodes, index: map<u32, set<string>>, active: map<string, u64>,
                        index': map<u32, set<string>>, active': map<string, u64>)
    requires IndexesLeaves(nodes, index) && CountsHolders(index, active)
    requires IndexesLeaves(nodes, index') && CountsHolders(index', active')
    ensures (index == index' && active == active') <==> SameSpellings(index, index')
    ensures index.Keys == index'.Keys && forall pid :: pid in index ==> Places(index[pid]) == Places(index'[pid])
  {
    IndexCovers(nodes, index, index');
    IndexCovers(nodes, index', index);
    if SameSpellings(index, index') {
      forall pid | pid in index
        ensures index[pid] == index'[pid]
      {
        forall s
          ensures Spells(index, pid, s) <==> Spells(index', pid, s)
        {
        }
        assert forall s :: s in index[pid] <==> Spells(index, pid, s);
        assert forall s :: s in index'[pid] <==> Spells(index', pid, s);
      }
      assert index == index';
      CountsDetermined(index, active, active');
    }
  }

  lemma CountsDetermined(index: map<u32, set<string>>, active: map<string, u64>, active': map<string, u64>)
    requires CountsHolders(index, active) && CountsHolders(index, active')
    ensures active == active'
  {
    assert forall s :: References(active, s) == References(active', s);
    assert forall s :: s in active <==> References(active, s) > 0;
    assert forall s :: s in active' <==> References(active', s) > 0;
  }

  lemma IndexCovers(nodes: Nodes, index: map<u32, set<string>>, index': map<u32, set<string>>)
    requires IndexesLeaves(nodes, index) && IndexesLeaves(nodes, index')
    ensures forall pid, s :: Spells(index, pid, s) ==> exists s' :: Spells(index', pid, s') && Place(s') == Place(s)
    ensures forall pid :: pid in index ==> pid in index' && Places(index[pid]) <= Places(index'[pid])
  {
    forall pid, s | Spells(index, pid, s)
      ensures exists s' :: Spells(index', pid, s') && Place(s') == Place(s)
    {
      assert Holds(nodes, Place(s), pid);
    }
    forall pid | pid in index
      ensures pid in index' && Places(index[pid]) <= Places(index'[pid])
    {
      var s :| s in index[pid];
      assert Spells(index, pid, s);
      forall p | p in Places(index[pid])
        ensures p in Places(index'[pid])
      {
        var t :| t in index[pid] && Place(t) == p;
        assert Spells(index, pid, t);
        var t' :| Spells(index', pid, t') && Place(t') == p;
      }
    }
  }

  /** Which spelling is indexed depends on the order of activity exactly when one leaf
      is reached under two spellings. */
  lemma SpellingOrderMatters(nodes: Nodes, index: map<u32, set<string>>, pid: u32, s: string, t: string, d: NodeStats)
    requires IndexesLeaves(nodes, index)
    requires Place(s) != Root && !Holds(nodes, Place(s), pid)
    requires Place(t) != Root && !Holds(nodes, Place(t), pid)
    ensures Reindexed(Recorded(nodes, Place(s), pid, d), Reindexed(nodes, index, s, pid), t, pid)
         == Reindexed(Recorded(nodes, Place(t), pid, d), Reindexed(nodes, index, t, pid), s, pid)
        <==> (Place(s) == Place(t) ==> s == t)
  {
    RecordedHolds(nodes, Place(s), pid, d, Place(t), pid);
    RecordedHolds(nodes, Place(t), pid, d, Place(s), pid);
    assert !Spells(index, pid, s) && !Spells(index, pid, t);
    SpellingsCompare(index, pid, s, t);
  }

  lemma SpellingsCompare(index: map<u32, set<string>>, pid: u32, s: string, t: string)
    requires !Spells(index, pid, s) && !Spells(index, pid, t)
    ensures AddedSpelling(AddedSpelling(index, s, pid), t, pid) == AddedSpelling(AddedSpelling(index, t, pid), s, pid)
    ensures AddedSpelling(index, s, pid) == AddedSpelling(index, t, pid) <==> s == t
  {
    var own := if pid in index then index[pid] else {};
    assert own + {s} + {t} == own + {t} + {s};
    if s != t {
      assert s in AddedSpelling(index, s, pid)[pid] && s !in AddedSpelling(index, t, pid)[pid];
    }
  }

  /** Every leaf has more than one spelling. */
  lemma AliasesExist(s: string)
    ensures "/" + s != s && Place("/" + s) == Place(s)
  {
    assert ("/" + s)[1..] == s;
    assert Split("/" + s, '/') == [""] + Split(s, '/');
    assert ([""] + Split(s, '/'))[1..] == Split(s, '/');
  }

  // --- Names ---

  /** Names are never empty. */
  ghost predicate Labelled(nodes: Nodes) { forall p :: p in nodes && p.Child? ==> p.name != "" }

  lemma {:induction false} NamedAlong(components: seq<string>, p: Path)
    requires "" !in components && Above(p, PathOf(components)) && p.Child?
    ensures p.name != ""
    decreases |components|
  {
    if components != [] && p != PathOf(components) { NamedAlong(components[..|components| - 1], p); }
  }

  lemma RecordedKeepsLabels(nodes: Nodes, path: string, pid: u32, delta: NodeStats)
    requires Labelled(nodes)
    ensures Labelled(Recorded(nodes, Place(path), pid, delta))
  {
    var after := Recorded(nodes, Place(path), pid, delta);
    hide Split, NonEmpty;
    forall p | p in after && p.Child?
      ensures p.name != ""
    {
      if p !in nodes { NamedAlong(Components(path), p); }
    }
  }
}
