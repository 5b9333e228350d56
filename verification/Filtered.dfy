/** Filtered statistics over the tree (`ncda/src/tui/filter.rs`): the recursive walk is
    proved to combine exactly the matching entries, in whatever order tables are visited. */
module Filtered {
  import opened Saturating
  import opened Stats
  import opened Paths
  import opened Tree
  import opened TreeLaws
  import opened Filter
  import opened Numerals
  import Processes

  function JoinPath(parent: string, child: string): string {
    if parent == "/" then "/" + child else parent + "/" + child
  }

  /** The path shown for a place. */
  function PathText(p: Path): string {
    match p
    case Root => "/"
    case Child(parent, name) => JoinPath(PathText(parent), name)
  }

  /** Entries are named by node and process. */
  predicate Selects(query: Query, table: Processes.Table, k: Entry) {
    Matches(query, PathText(k.0), k.1, Processes.Lookup(table, k.1))
  }

  ghost function EntriesUnder(nodes: Nodes, p: Path): set<Entry> {
    set q, pid | q in nodes && pid in nodes[q].per && Above(p, q) :: (q, pid)
  }

  /** The matching ones among some entries. */
  ghost function Chosen(nodes: Nodes, keys: set<Entry>, query: Query, table: Processes.Table): map<Entry, NodeStats> {
    map k | k in keys && Holds(nodes, k.0, k.1) && Selects(query, table, k) :: nodes[k.0].per[k.1]
  }

  /** Everything below `p` that matches. */
  ghost function Matching(nodes: Nodes, p: Path, query: Query, table: Processes.Table): map<Entry, NodeStats> {
    Chosen(nodes, EntriesUnder(nodes, p), query, table)
  }

  function Answer(total: NodeStats): Option<NodeStats> { if TotalOps(total) > 0 then Some(total) else None }

  lemma ChosenOne(nodes: Nodes, keys: set<Entry>, k: Entry, query: Query, table: Processes.Table)
    requires k !in keys && Holds(nodes, k.0, k.1)
    ensures Sum(Chosen(nodes, keys + {k}, query, table))
         == if Selects(query, table, k) then Accumulate(Sum(Chosen(nodes, keys, query, table)), nodes[k.0].per[k.1])
            else Sum(Chosen(nodes, keys, query, table))
  {
    hide Selects;
    var before, after := Chosen(nodes, keys, query, table), Chosen(nodes, keys + {k}, query, table);
    if Selects(query, table, k) {
      assert after == before[k := nodes[k.0].per[k.1]];
      SumGrow(before, k, nodes[k.0].per[k.1]);
    } else {
      assert after == before;
    }
  }

  lemma ChosenSplit(nodes: Nodes, a: set<Entry>, b: set<Entry>, query: Query, table: Processes.Table)
    requires forall k :: k in a ==> k !in b
    ensures Sum(Chosen(nodes, a + b, query, table))
         == Accumulate(Sum(Chosen(nodes, a, query, table)), Sum(Chosen(nodes, b, query, table)))
  {
    hide Selects, Accumulate;
    SumSplit(Chosen(nodes, a + b, query, table), Chosen(nodes, a, query, table), Chosen(nodes, b, query, table));
  }

  /** A subtree without an answer has no matching entry. */
  lemma NoAnswerNothing(nodes: Nodes, keys: set<Entry>, query: Query, table: Processes.Table)
    requires EntriesCount(nodes)
    ensures Answer(Sum(Chosen(nodes, keys, query, table))).None? <==> Chosen(nodes, keys, query, table) == map[]
  {
    hide Selects;
    var m := Chosen(nodes, keys, query, table);
    SumCountsOps(m);
    if k :| k in m { assert Holds(nodes, k.0, k.1); }
  }

  // --- The entries below a node: its own and those below its children ---

  function Children(nodes: Nodes, p: Path): set<Path> { set q | q in nodes && q.Child? && q.parent == p }

  ghost function OwnEntries(nodes: Nodes, p: Path): set<Entry> {
    set q, pid | q in nodes && q == p && pid in nodes[q].per :: (q, pid)
  }

  /** The entries of `p` and of the subtrees of some of its children. */
  ghost function EntriesWith(nodes: Nodes, p: Path, done: set<Path>): set<Entry> {
    set q, pid | q in nodes && pid in nodes[q].per && Above(p, q) && (q == p || StepTowards(p, q) in done) :: (q, pid)
  }

  lemma StepIsOnlyChild(p: Path, c: Path, q: Path)
    requires c.Child? && c.parent == p
    ensures Above(c, q) <==> Above(p, q) && q != p && StepTowards(p, q) == c
  {
    if Above(c, q) {
      AboveTransitive(p, c, q);
      AboveIsShallower(c, q);
      SiblingsApart(c, StepTowards(p, q), q);
    }
  }

  lemma EntriesSplit(nodes: Nodes, p: Path, done: set<Path>, c: Path)
    requires c.Child? && c.parent == p && c !in done
    ensures EntriesWith(nodes, p, done + {c}) == EntriesWith(nodes, p, done) + EntriesUnder(nodes, c)
    ensures forall k :: k in EntriesWith(nodes, p, done) ==> k !in EntriesUnder(nodes, c)
  {
    forall q { StepIsOnlyChild(p, c, q); }
  }

  lemma EntriesComplete(nodes: Nodes, p: Path)
    requires WellFormed(nodes)
    ensures EntriesWith(nodes, p, {}) == OwnEntries(nodes, p)
    ensures EntriesWith(nodes, p, Children(nodes, p)) == EntriesUnder(nodes, p)
  {
    forall q | q in nodes && Above(p, q) && q != p
      ensures StepTowards(p, q) in Children(nodes, p)
    {
      AncestorsExist(nodes, StepTowards(p, q), q);
    }
  }

  // --- The walk ---

  /** The matching entries of one node, visited in no particular order. */
  method OwnStats(nodes: Nodes, p: Path, path: string, query: Query, table: Processes.Table) returns (total: NodeStats)
    requires p in nodes && path == PathText(p)
    ensures total == Sum(Chosen(nodes, OwnEntries(nodes, p), query, table))
  {
    hide Matches, PathText, Accumulate, Sum;
    total := ZERO;
    var rest := nodes[p].per.Keys;
    ghost var seen: set<Entry> := {};
    NothingChosen(nodes, query, table);
    while rest != {}
      invariant rest <= nodes[p].per.Keys
      invariant forall k :: k in seen <==> k.0 == p && k.1 in nodes[p].per && k.1 !in rest
      invariant total == Sum(Chosen(nodes, seen, query, table))
    {
      var pid :| pid in rest;
      ChosenOne(nodes, seen, (p, pid), query, table);
      if Matches(query, path, pid, Processes.Lookup(table, pid)) {
        total := Accumulate(total, nodes[p].per[pid]);
      }
      seen := seen + {(p, pid)};
      rest := rest - {pid};
    }
    assert seen == OwnEntries(nodes, p);
  }

  lemma NothingChosen(nodes: Nodes, query: Query, table: Processes.Table)
    ensures Sum(Chosen(nodes, {}, query, table)) == ZERO
  {
    assert Chosen(nodes, {}, query, table) == map[];
  }

  /** `filtered_stats`: the combination of exactly the matching entries below `p`. */
  method FilteredStats(nodes: Nodes, p: Path, path: string, query: Query, table: Processes.Table)
    returns (answer: Option<NodeStats>)
    requires WellFormed(nodes) && EntriesCount(nodes) && p in nodes && path == PathText(p)
    ensures answer == if query.terms == [] then Some(nodes[p].agg) else Answer(Sum(Matching(nodes, p, query, table)))
    decreases |Below(nodes, p)|
  {
    hide Accumulate, Sum, Matches, Chosen, WellFormed, EntriesCount, EntriesWith, EntriesUnder, OwnEntries;
    if query.terms == [] {
      return Some(nodes[p].agg);
    }
    var total := OwnStats(nodes, p, path, query, table);
    EntriesComplete(nodes, p);
    var rest := Children(nodes, p);
    ghost var done: set<Path> := {};
    while rest != {}
      invariant rest + done == Children(nodes, p) && rest !! done
      invariant total == Sum(Chosen(nodes, EntriesWith(nodes, p, done), query, table))
    {
      var c :| c in rest;
      ChildHasLessBelow(nodes, p, c);
      var stats := FilteredStats(nodes, c, JoinPath(path, c.name), query, table);
      EntriesSplit(nodes, p, done, c);
      ChosenSplit(nodes, EntriesWith(nodes, p, done), EntriesUnder(nodes, c), query, table);
      if stats.Some? {
        total := Accumulate(total, stats.value);
      } else {
        NoAnswerNothing(nodes, EntriesUnder(nodes, c), query, table);
        NothingAdded(nodes, EntriesUnder(nodes, c), query, table, total);
      }
      rest, done := rest - {c}, done + {c};
    }
    answer := if TotalOps(total) > 0 then Some(total) else None;
  }

  lemma NothingAdded(nodes: Nodes, keys: set<Entry>, query: Query, table: Processes.Table, total: NodeStats)
    requires Chosen(nodes, keys, query, table) == map[]
    ensures Accumulate(total, Sum(Chosen(nodes, keys, query, table))) == total
  {
    AccumulateMonoid(total, ZERO, ZERO);
  }

  // --- Matching processes ---

  ghost function PidsOf(entries: map<Entry, NodeStats>): set<u32> { set k | k in entries :: k.1 }

  /** `visit`: adds the processes of all matching entries below `p`. */
  method VisitPids(nodes: Nodes, p: Path, path: string, query: Query, table: Processes.Table, matching: set<u32>)
    returns (matching': set<u32>)
    requires WellFormed(nodes) && p in nodes && path == PathText(p)
    ensures matching' == matching + PidsOf(Matching(nodes, p, query, table))
    decreases |Below(nodes, p)|
  {
    hide Matches, WellFormed, Chosen, EntriesWith, EntriesUnder, OwnEntries, PidsOf;
    var own := set pid | pid in nodes[p].per && Matches(query, path, pid, Processes.Lookup(table, pid));
    matching' := matching + own;
    OwnPids(nodes, p, query, table);
    EntriesComplete(nodes, p);
    var rest := Children(nodes, p);
    ghost var done: set<Path> := {};
    while rest != {}
      invariant rest + done == Children(nodes, p) && rest !! done
      invariant matching' == matching + PidsOf(Chosen(nodes, EntriesWith(nodes, p, done), query, table))
    {
      var c :| c in rest;
      ChildHasLessBelow(nodes, p, c);
      matching' := VisitPids(nodes, c, JoinPath(path, c.name), query, table, matching');
      EntriesSplit(nodes, p, done, c);
      PidsJoin(nodes, EntriesWith(nodes, p, done), EntriesUnder(nodes, c), query, table);
      rest, done := rest - {c}, done + {c};
    }
  }

  lemma OwnPids(nodes: Nodes, p: Path, query: Query, table: Processes.Table)
    requires p in nodes
    ensures PidsOf(Chosen(nodes, OwnEntries(nodes, p), query, table))
         == set pid | pid in nodes[p].per && Matches(query, PathText(p), pid, Processes.Lookup(table, pid))
  {
    hide Matches, PathText;
    var chosen := Chosen(nodes, OwnEntries(nodes, p), query, table);
    forall pid
      ensures pid in PidsOf(chosen)
         <==> pid in nodes[p].per && Matches(query, PathText(p), pid, Processes.Lookup(table, pid))
    {
      if pid in nodes[p].per && Matches(query, PathText(p), pid, Processes.Lookup(table, pid)) {
        assert (p, pid) in chosen;
      }
    }
  }

  lemma PidsJoin(nodes: Nodes, a: set<Entry>, b: set<Entry>, query: Query, table: Processes.Table)
    ensures PidsOf(Chosen(nodes, a + b, query, table))
         == PidsOf(Chosen(nodes, a, query, table)) + PidsOf(Chosen(nodes, b, query, table))
  {
    hide Selects;
    var ab, x, y := Chosen(nodes, a + b, query, table), Chosen(nodes, a, query, table), Chosen(nodes, b, query, table);
    assert forall k :: k in ab <==> k in x || k in y;
  }

  /** `matching_pids`. */
  method MatchingPids(nodes: Nodes, query: Query, table: Processes.Table) returns (pids: set<u32>)
    requires WellFormed(nodes)
    ensures pids == if query.terms == [] then table.Keys else PidsOf(Matching(nodes, Root, query, table))
  {
    if query.terms == [] {
      return table.Keys;
    }
    pids := VisitPids(nodes, Root, "/", query, table, {});
  }

  // --- Main results ---

  /** Filtered statistics never exceed the node's aggregate. */
  lemma {:induction false} MatchingWithinAggregate(nodes: Nodes, p: Path, query: Query, table: Processes.Table)
    requires WellFormed(nodes) && Aggregated(nodes) && EntriesWithinStats(nodes) && p in nodes
    ensures AtMost(Sum(Matching(nodes, p, query, table)), nodes[p].agg)
    decreases |Below(nodes, p)|, 1, 0
  {
    hide *;
    EntriesComplete(nodes, p);
    ChildrenWithin(nodes, p, Children(nodes, p), query, table);
    AllChildren(nodes, p);
    AggregateAt(nodes, p);
    MatchingIs(nodes, p, query, table);
  }

  lemma MatchingIs(nodes: Nodes, p: Path, query: Query, table: Processes.Table)
    ensures Matching(nodes, p, query, table) == Chosen(nodes, EntriesUnder(nodes, p), query, table)
  {
  }

  lemma AggregateAt(nodes: Nodes, p: Path)
    requires Aggregated(nodes) && p in nodes
    ensures nodes[p].agg == Accumulate(nodes[p].stats, Sum(ChildAggregates(nodes, p)))
  {
  }

  ghost function AggregatesOf(nodes: Nodes, done: set<Path>): map<Path, NodeStats> {
    map c | c in done && c in nodes :: nodes[c].agg
  }

  lemma AllChildren(nodes: Nodes, p: Path)
    ensures AggregatesOf(nodes, Children(nodes, p)) == ChildAggregates(nodes, p)
  {
  }

  lemma {:induction false} ChildrenWithin(nodes: Nodes, p: Path, done: set<Path>, query: Query, table: Processes.Table)
    requires WellFormed(nodes) && Aggregated(nodes) && EntriesWithinStats(nodes) && p in nodes
    requires done <= Children(nodes, p)
    ensures AtMost(Sum(Chosen(nodes, EntriesWith(nodes, p, done), query, table)),
                   Accumulate(nodes[p].stats, Sum(AggregatesOf(nodes, done))))
    decreases |Below(nodes, p)|, 0, |done|
  {
    hide WellFormed, Aggregated, EntriesWithinStats, EntriesWith, EntriesUnder, Chosen, AggregatesOf, Sum, AtMost, Accumulate;
    if done == {} {
      EntriesComplete(nodes, p);
      OwnWithin(nodes, p, query, table);
    } else {
      var c :| c in done;
      var rest := done - {c};
      assert rest + {c} == done;
      ChildHasLessBelow(nodes, p, c);
      ChildrenWithin(nodes, p, rest, query, table);
      MatchingWithinAggregate(nodes, c, query, table);
      MatchingIs(nodes, c, query, table);
      EntriesSplit(nodes, p, rest, c);
      ChosenSplit(nodes, EntriesWith(nodes, p, rest), EntriesUnder(nodes, c), query, table);
      AggregatesGrow(nodes, rest, c);
      BothWithin(Sum(Chosen(nodes, EntriesWith(nodes, p, rest), query, table)),
                 Sum(Chosen(nodes, EntriesUnder(nodes, c), query, table)),
                 nodes[p].stats, Sum(AggregatesOf(nodes, rest)), nodes[c].agg);
    }
  }

  lemma AggregatesGrow(nodes: Nodes, done: set<Path>, c: Path)
    requires c !in done && c in nodes
    ensures Sum(AggregatesOf(nodes, done + {c})) == Accumulate(Sum(AggregatesOf(nodes, done)), nodes[c].agg)
  {
    hide Accumulate;
    assert AggregatesOf(nodes, done + {c}) == AggregatesOf(nodes, done)[c := nodes[c].agg];
    SumGrow(AggregatesOf(nodes, done), c, nodes[c].agg);
  }

  lemma BothWithin(a: NodeStats, b: NodeStats, own: NodeStats, sum: NodeStats, agg: NodeStats)
    requires AtMost(a, Accumulate(own, sum)) && AtMost(b, agg)
    ensures AtMost(Accumulate(a, b), Accumulate(own, Accumulate(sum, agg)))
  {
    AccumulateMonoid(own, sum, agg);
  }

  /** The matching entries of one node are among its entries. */
  lemma OwnWithin(nodes: Nodes, p: Path, query: Query, table: Processes.Table)
    requires EntriesWithinStats(nodes) && p in nodes
    ensures AtMost(Sum(Chosen(nodes, OwnEntries(nodes, p), query, table)),
                   Accumulate(nodes[p].stats, Sum(AggregatesOf(nodes, {}))))
  {
    hide Selects, AtMost;
    var entries := map k | k in OwnEntries(nodes, p) :: nodes[p].per[k.1];
    SumMonotoneEntries(Chosen(nodes, OwnEntries(nodes, p), query, table), entries);
    SumRename(nodes[p].per, entries, p);
    assert AggregatesOf(nodes, {}) == map[];
    AccumulateMonoid(nodes[p].stats, ZERO, ZERO);
    AtMostTransitive(Sum(Chosen(nodes, OwnEntries(nodes, p), query, table)), Sum(entries), nodes[p].stats);
  }

  lemma Same(a: NodeStats)
    ensures AtMost(a, a)
  {
  }

  lemma SumMonotoneEntries(a: map<Entry, NodeStats>, b: map<Entry, NodeStats>)
    requires forall k :: k in a ==> k in b && a[k] == b[k]
    ensures AtMost(Sum(a), Sum(b))
  {
    forall k | k in a
      ensures AtMost(a[k], b[k])
    {
      Same(a[k]);
    }
    SumMonotone(a, b);
  }

  /** The entries of one node, keyed by process or by node and process. */
  lemma {:induction false} SumRename(per: map<u32, NodeStats>, entries: map<Entry, NodeStats>, p: Path)
    requires forall k :: k in entries <==> k.0 == p && k.1 in per
    requires forall k :: k in entries ==> entries[k] == per[k.1]
    ensures Sum(entries) == Sum(per)
    decreases |per|
  {
    hide Accumulate;
    if per == map[] {
      assert entries == map[];
    } else {
      var pid :| pid in per;
      SumRemove(per, pid);
      SumRemove(entries, (p, pid));
      SumRename(per - {pid}, entries - {(p, pid)}, p);
    }
  }

  /** Another term never adds anything. */
  lemma AnotherTermNarrows(nodes: Nodes, p: Path, query: Query, term: Term, table: Processes.Table)
    ensures var narrower := query.(terms := query.terms + [term]);
            AtMost(Sum(Matching(nodes, p, narrower, table)), Sum(Matching(nodes, p, query, table)))
  {
    hide AtMost, MatchesTerm;
    var narrower := query.(terms := query.terms + [term]);
    forall k | Selects(narrower, table, k)
      ensures Selects(query, table, k)
    {
      assert forall i :: 0 <= i < |query.terms| ==> narrower.terms[i] == query.terms[i];
    }
    hide Selects;
    SumMonotoneEntries(Matching(nodes, p, narrower, table), Matching(nodes, p, query, table));
  }

  /** At the root there is an answer exactly when some process matches. */
  lemma AnswerIffPids(nodes: Nodes, query: Query, table: Processes.Table)
    requires EntriesCount(nodes)
    ensures Answer(Sum(Matching(nodes, Root, query, table))).Some? <==> PidsOf(Matching(nodes, Root, query, table)) != {}
  {
    hide Chosen, Answer;
    NoAnswerNothing(nodes, EntriesUnder(nodes, Root), query, table);
    var m := Matching(nodes, Root, query, table);
    if k :| k in m {
      assert k.1 in PidsOf(m);
    } else {
      assert m == map[];
    }
  }

  /** All entries of one process, keyed by node or by node and process. */
  lemma {:induction false} SumRenameNodes(entries: map<Path, NodeStats>, keyed: map<Entry, NodeStats>, pid: u32)
    requires forall k :: k in keyed <==> k.1 == pid && k.0 in entries
    requires forall k :: k in keyed ==> keyed[k] == entries[k.0]
    ensures Sum(keyed) == Sum(entries)
    decreases |entries|
  {
    hide Accumulate;
    if entries == map[] {
      assert keyed == map[];
    } else {
      var p :| p in entries;
      SumRemove(entries, p);
      SumRemove(keyed, (p, pid));
      SumRenameNodes(entries - {p}, keyed - {(p, pid)}, pid);
    }
  }

  /** Filtering the root by a process gives that process's total over the tree. */
  lemma PidFilterIsTotal(nodes: Nodes, pid: u32, lower: string -> string, table: Processes.Table)
    ensures Sum(Matching(nodes, Root, Query([PidField(pid)], lower), table)) == Sum(EntriesOf(nodes, pid))
  {
    var query := Query([PidField(pid)], lower);
    forall k
      ensures Selects(query, table, k) <==> k.1 == pid
    {
      assert query.terms[0] == PidField(pid);
    }
    forall q { RootAbove(q); }
    hide Selects;
    SumRenameNodes(EntriesOf(nodes, pid), Matching(nodes, Root, query, table), pid);
  }

  // --- Which entries a query combines ---

  /** A query combines the entries below the place for which all of its terms hold. */
  lemma MatchingExactly(nodes: Nodes, p: Path, query: Query, table: Processes.Table, q: Path, pid: u32)
    ensures (q, pid) in Matching(nodes, p, query, table)
       <==> q in nodes && pid in nodes[q].per && Above(p, q)
            && forall i :: 0 <= i < |query.terms| ==>
                 Asks(query.terms[i], query.lower, PathText(q), pid, Processes.Lookup(table, pid))
    ensures (q, pid) in Matching(nodes, p, query, table) ==> Matching(nodes, p, query, table)[(q, pid)] == nodes[q].per[pid]
  {
    MatchesAll(query, PathText(q), pid, Processes.Lookup(table, pid));
    hide Matches, Asks, PathText;
    assert (q, pid) in EntriesUnder(nodes, p) <==> q in nodes && pid in nodes[q].per && Above(p, q);
  }

  lemma OneTerm(nodes: Nodes, p: Path, term: Term, lower: string -> string, table: Processes.Table, q: Path, pid: u32)
    ensures (q, pid) in Matching(nodes, p, Query([term], lower), table)
       <==> q in nodes && pid in nodes[q].per && Above(p, q)
            && Asks(term, lower, PathText(q), pid, Processes.Lookup(table, pid))
  {
    var query := Query([term], lower);
    MatchingExactly(nodes, p, query, table, q, pid);
    hide Matching, Asks, PathText, Above;
    assert query.terms[0] == term;
  }

  /** `process:v` combines the entries of exactly those processes whose command, as their row
      has it, contains `v`. A process without a row has an empty command. */
  lemma ProcessFilterCombines(nodes: Nodes, p: Path, v: string, lower: string -> string, table: Processes.Table,
                              q: Path, pid: u32)
    ensures (q, pid) in Matching(nodes, p, Query([ProcessField(v)], lower), table)
       <==> q in nodes && pid in nodes[q].per && Above(p, q)
            && var comm := if pid in table then lower(table[pid].comm) else "";
               Occurs(comm, v)
  {
    OneTerm(nodes, p, ProcessField(v), lower, table, q, pid);
    hide Matching, Occurs, PathText, Above;
  }

  /** `container:v` does so by container; a process outside of containers has an empty one. */
  lemma ContainerFilterCombines(nodes: Nodes, p: Path, v: string, lower: string -> string, table: Processes.Table,
                                q: Path, pid: u32)
    ensures (q, pid) in Matching(nodes, p, Query([ContainerField(v)], lower), table)
       <==> q in nodes && pid in nodes[q].per && Above(p, q)
            && var box := if pid in table && table[pid].container.Some? then lower(table[pid].container.value) else "";
               Occurs(box, v)
  {
    OneTerm(nodes, p, ContainerField(v), lower, table, q, pid);
    hide Matching, Occurs, PathText, Above;
  }

  /** `path:v` combines the entries of exactly those nodes whose path contains `v`. */
  lemma PathFilterCombines(nodes: Nodes, p: Path, v: string, lower: string -> string, table: Processes.Table,
                           q: Path, pid: u32)
    ensures (q, pid) in Matching(nodes, p, Query([PathField(v)], lower), table)
       <==> q in nodes && pid in nodes[q].per && Above(p, q)
            && var text := lower(PathText(q));
               Occurs(text, v)
  {
    OneTerm(nodes, p, PathField(v), lower, table, q, pid);
    hide Matching, Occurs, PathText, Above;
  }

  /** A free term combines what one of the others would, or what the decimal process id
      contains. */
  lemma FreeTermCombines(nodes: Nodes, p: Path, v: string, lower: string -> string, table: Processes.Table,
                         q: Path, pid: u32)
    ensures (q, pid) in Matching(nodes, p, Query([AnyField(v)], lower), table)
       <==> || (q, pid) in Matching(nodes, p, Query([PathField(v)], lower), table)
            || (q, pid) in Matching(nodes, p, Query([ProcessField(v)], lower), table)
            || (q, pid) in Matching(nodes, p, Query([ContainerField(v)], lower), table)
            || (q in nodes && pid in nodes[q].per && Above(p, q)
                && Occurs(Decimal(pid), v))
  {
    OneTerm(nodes, p, AnyField(v), lower, table, q, pid);
    OneTerm(nodes, p, PathField(v), lower, table, q, pid);
    OneTerm(nodes, p, ProcessField(v), lower, table, q, pid);
    OneTerm(nodes, p, ContainerField(v), lower, table, q, pid);
    hide Matching, Occurs, PathText, Above, Decimal;
  }

  /** Several terms combine exactly the entries that each of them would. */
  lemma TermsIntersect(nodes: Nodes, p: Path, query: Query, term: Term, table: Processes.Table, k: Entry)
    ensures k in Matching(nodes, p, query.(terms := query.terms + [term]), table)
       <==> k in Matching(nodes, p, query, table) && k in Matching(nodes, p, Query([term], query.lower), table)
  {
    var both := query.(terms := query.terms + [term]);
    MatchingExactly(nodes, p, both, table, k.0, k.1);
    MatchingExactly(nodes, p, query, table, k.0, k.1);
    OneTerm(nodes, p, term, query.lower, table, k.0, k.1);
    hide Matching, Asks, PathText, Above;
    assert both.terms[|query.terms|] == term && forall i :: 0 <= i < |query.terms| ==> both.terms[i] == query.terms[i];
  }
}
