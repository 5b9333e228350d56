/** The two file views (`visible_rows` in `ncda/src/tui/flat_view.rs`, `flatten` in
    `ncda/src/tui/tree_view.rs`). */
module Views {
  import opened Saturating
  import opened Stats
  import opened Paths
  import opened Tree
  import opened TreeLaws
  import opened Filter
  import opened Filtered
  import opened Ordering
  import Normalize
  import Spelling
  import Processes

  datatype SortBy = ByTotalBytes | ByReadBytes | ByWriteBytes | ByFrequency | ByLatency | ByName

  /** Everything a view depends on. */
  datatype Screen = Screen(
    nodes: Nodes, sortBy: SortBy, descending: bool, query: Query, table: Processes.Table, expanded: set<seq<string>>)

  datatype Row = Row(name: string, path: string, isDir: bool, stats: NodeStats)

  datatype Line = Line(
    depth: nat, path: seq<string>, displayPath: string, name: string, isDir: bool, isExpanded: bool,
    readBytes: u64, writeBytes: u64, totalOps: u64, averageLatency: u64, totalBytes: u64)

  // --- The order of rows ---

  function Measure(key: SortBy, s: NodeStats): u64 {
    match key
    case ByTotalBytes => TotalBytes(s)
    case ByReadBytes => s.readBytes
    case ByWriteBytes => s.writeBytes
    case ByFrequency => TotalOps(s)
    case ByLatency => AverageLatency(s)
    case ByName => 0
  }

  /** The chosen order alone. */
  predicate Smaller(key: SortBy, a: Row, b: Row) {
    if key.ByName? then NameLess(a.name, b.name) else Measure(key, a.stats) < Measure(key, b.stats)
  }

  /** The chosen order, reversed if descending; equals go by name. */
  predicate Before(key: SortBy, descending: bool, a: Row, b: Row) {
    if Smaller(key, a, b) then !descending
    else if Smaller(key, b, a) then descending
    else NameLess(a.name, b.name)
  }

  function Order(key: SortBy, descending: bool): (Row, Row) -> bool { (a, b) => Before(key, descending, a, b) }

  lemma BeforeLaws(key: SortBy, descending: bool, a: Row, b: Row, c: Row)
    ensures !Before(key, descending, a, a)
    ensures a.name == b.name || Before(key, descending, a, b) || Before(key, descending, b, a)
    ensures Before(key, descending, a, b) && Before(key, descending, b, c) ==> Before(key, descending, a, c)
  {
    hide Measure, NameLess;
    NamesOrdered(a.name, b.name);
    NamesOrdered(b.name, c.name);
    NamesOrdered(a.name, c.name);
    NamesOrdered(a.name, a.name);
    NamesChain(a.name, b.name, c.name);
    NamesChain(c.name, b.name, a.name);
    NamesChain(b.name, c.name, a.name);
    NamesChain(a.name, c.name, b.name);
    NamesChain(b.name, a.name, c.name);
    NamesChain(c.name, a.name, b.name);
  }

  ghost predicate NamesApart(rows: set<Row>) { forall a, b :: a in rows && b in rows && a.name == b.name ==> a == b }

  lemma RowsOrdered(key: SortBy, descending: bool, rows: set<Row>)
    requires NamesApart(rows)
    ensures StrictOrder(Order(key, descending), rows)
  {
    hide Before;
    forall a, b, c { BeforeLaws(key, descending, a, b, c); }
  }

  // --- The rows of one directory ---

  /** `filtered_stats` as a function. */
  ghost function StatsAt(v: Screen, p: Path): Option<NodeStats>
    requires p in v.nodes
  {
    if v.query.terms == [] then Some(v.nodes[p].agg) else Answer(Sum(Matching(v.nodes, p, v.query, v.table)))
  }

  ghost function RowAt(v: Screen, c: Path): Row
    requires c in v.nodes && StatsAt(v, c).Some?
  {
    Row(v.nodes[c].name, PathText(c), v.nodes[c].isDir, StatsAt(v, c).value)
  }

  ghost function RowsIn(v: Screen, p: Path): (rows: set<Row>) {
    set c | c in Children(v.nodes, p) && StatsAt(v, c).Some? :: RowAt(v, c)
  }

  lemma RowIsChild(v: Screen, p: Path, row: Row)
    requires WellFormed(v.nodes)
    ensures row in RowsIn(v, p) <==>
              var c := Child(p, row.name); c in v.nodes && StatsAt(v, c).Some? && row == RowAt(v, c)
  {
    hide StatsAt, PathText;
  }

  lemma RowsApart(v: Screen, p: Path)
    requires WellFormed(v.nodes)
    ensures NamesApart(RowsIn(v, p)) && StrictOrder(Order(v.sortBy, v.descending), RowsIn(v, p))
  {
    forall a, b | a in RowsIn(v, p) && b in RowsIn(v, p) && a.name == b.name
      ensures a == b
    {
      RowIsChild(v, p, a);
      RowIsChild(v, p, b);
    }
    RowsOrdered(v.sortBy, v.descending, RowsIn(v, p));
  }

  /** The rows shown for a directory, in order. */
  ghost function Visible(v: Screen, p: Path): seq<Row>
    requires WellFormed(v.nodes)
  {
    RowsApart(v, p);
    Arranged(Order(v.sortBy, v.descending), RowsIn(v, p))
  }

  lemma BeforeRanks(key: SortBy, desc: bool, x: Row, y: Row)
    requires Before(key, desc, x, y) && x.name != y.name
    ensures var a, b, byName := x.stats, y.stats, NameLess(x.name, y.name);
            match key
            case ByTotalBytes =>
              Ranked(desc, Min(a.readBytes + a.writeBytes, U64_MAX), Min(b.readBytes + b.writeBytes, U64_MAX), byName)
            case ByReadBytes => Ranked(desc, a.readBytes, b.readBytes, byName)
            case ByWriteBytes => Ranked(desc, a.writeBytes, b.writeBytes, byName)
            case ByFrequency =>
              Ranked(desc, Min(a.readOps + a.writeOps + a.openOps + a.closeOps, U64_MAX),
                     Min(b.readOps + b.writeOps + b.openOps + b.closeOps, U64_MAX), byName)
            case ByLatency =>
              Ranked(desc, if a.readOps + a.writeOps == 0 then 0 else a.totalLatency / Min(a.readOps + a.writeOps, U64_MAX),
                     if b.readOps + b.writeOps == 0 then 0 else b.totalLatency / Min(b.readOps + b.writeOps, U64_MAX), byName)
            case ByName => if desc then NameLess(y.name, x.name) else byName
  {
    hide NameLess, TotalBytes, TotalOps, AverageLatency;
    Figures(x.stats);
    Figures(y.stats);
    NamesOrdered(x.name, y.name);
  }

  /** What is shown first: each sort key orders by its own figure, downwards if descending;
      rows with equal figures go by name. */
  lemma RowsSorted(v: Screen, p: Path, i: nat, j: nat)
    requires WellFormed(v.nodes) && i < j < |Visible(v, p)|
    ensures var x, y, desc := Visible(v, p)[i], Visible(v, p)[j], v.descending;
            var a, b, byName := x.stats, y.stats, NameLess(x.name, y.name);
            match v.sortBy
            case ByTotalBytes =>
              Ranked(desc, Min(a.readBytes + a.writeBytes, U64_MAX), Min(b.readBytes + b.writeBytes, U64_MAX), byName)
            case ByReadBytes => Ranked(desc, a.readBytes, b.readBytes, byName)
            case ByWriteBytes => Ranked(desc, a.writeBytes, b.writeBytes, byName)
            case ByFrequency =>
              Ranked(desc, Min(a.readOps + a.writeOps + a.openOps + a.closeOps, U64_MAX),
                     Min(b.readOps + b.writeOps + b.openOps + b.closeOps, U64_MAX), byName)
            case ByLatency =>
              Ranked(desc, if a.readOps + a.writeOps == 0 then 0 else a.totalLatency / Min(a.readOps + a.writeOps, U64_MAX),
                     if b.readOps + b.writeOps == 0 then 0 else b.totalLatency / Min(b.readOps + b.writeOps, U64_MAX), byName)
            case ByName => if desc then NameLess(y.name, x.name) else byName
  {
    hide *;
    VisibleBefore(v, p, i, j);
    BeforeRanks(v.sortBy, v.descending, Visible(v, p)[i], Visible(v, p)[j]);
  }

  lemma VisibleBefore(v: Screen, p: Path, i: nat, j: nat)
    requires WellFormed(v.nodes) && i < j < |Visible(v, p)|
    ensures var x, y := Visible(v, p)[i], Visible(v, p)[j]; Before(v.sortBy, v.descending, x, y) && x.name != y.name
  {
    hide Before, RowsIn, StrictOrder, WellFormed;
    RowsApart(v, p);
    ArrangedIncreases(Order(v.sortBy, v.descending), RowsIn(v, p));
    VisibleDiffer(v, p);
  }

  lemma ChildrenNamed(v: Screen, p: Path)
    requires WellFormed(v.nodes)
    ensures forall c :: c in Children(v.nodes, p) ==> v.nodes[c].name == c.name && c == Child(p, c.name)
  {
  }

  /** Collects the children that match, in no particular order, and sorts them. */
  method SortedRows(v: Screen, p: Path, text: string) returns (rows: seq<Row>)
    requires WellFormed(v.nodes) && EntriesCount(v.nodes) && p in v.nodes && text == PathText(p)
    ensures rows == Visible(v, p)
  {
    hide WellFormed, EntriesCount, Sum, Matching, Answer, StrictOrder;
    rows := [];
    var rest := Children(v.nodes, p);
    ghost var done: set<Path> := {};
    while rest != {}
      invariant rest + done == Children(v.nodes, p) && rest !! done
      invariant forall row :: row in rows <==> exists c :: c in done && StatsAt(v, c).Some? && row == RowAt(v, c)
      invariant forall i, j :: 0 <= i < j < |rows| ==> rows[i].name != rows[j].name
    {
      var c :| c in rest;
      ChildrenNamed(v, p);
      forall i | 0 <= i < |rows|
        ensures rows[i].name != v.nodes[c].name
      {
        assert rows[i] in rows;
        var d :| d in done && StatsAt(v, d).Some? && rows[i] == RowAt(v, d);
      }
      var path := JoinPath(text, c.name);
      var stats := FilteredStats(v.nodes, c, path, v.query, v.table);
      if stats.Some? {
        rows := rows + [Row(v.nodes[c].name, path, v.nodes[c].isDir, stats.value)];
      }
      rest, done := rest - {c}, done + {c};
    }
    assert done == Children(v.nodes, p);
    assert Elements(rows) == RowsIn(v, p);
    RowsApart(v, p);
    rows := Sort(Order(v.sortBy, v.descending), rows);
  }

  // --- The flat view ---

  lemma {:induction false} TextOfComponents(nodes: Nodes, cwd: seq<string>)
    requires WellFormed(nodes) && Labelled(nodes) && PathOf(cwd) in nodes
    ensures PathText(PathOf(cwd)) == "/" + Normalize.Join(cwd, '/')
    ensures cwd != [] ==> PathText(PathOf(cwd)) != "/"
    decreases |cwd|
  {
    if cwd != [] {
      var rest, last := cwd[..|cwd| - 1], cwd[|cwd| - 1];
      TextOfComponents(nodes, rest);
      assert PathOf(cwd).name == last;
      if rest == [] {
        assert cwd == [last];
      } else {
        Normalize.JoinLast(rest, last, '/');
        assert rest + [last] == cwd;
      }
    }
  }

  /** The path that is shown for a place leads back to it. */
  lemma TextLeadsBack(nodes: Nodes, path: seq<string>)
    requires WellFormed(nodes) && Labelled(nodes) && PathOf(path) in nodes
    requires "" !in path && forall i :: 0 <= i < |path| ==> '/' !in path[i]
    ensures Place(PathText(PathOf(path))) == PathOf(path) && Spelling.Canonical(PathText(PathOf(path)))
  {
    TextOfComponents(nodes, path);
    Spelling.CanonicalPieces(path);
    hide Components, PathOf, PathText;
  }

  /** `get_node`. */
  method GetNode(nodes: Nodes, path: seq<string>) returns (place: Option<Path>)
    requires WellFormed(nodes)
    ensures place == if PathOf(path) in nodes then Some(PathOf(path)) else None
  {
    var node := Root;
    for i := 0 to |path|
      invariant node == PathOf(path[..i]) && node in nodes
    {
      assert path[..i + 1][..i] == path[..i];
      node := Child(node, path[i]);
      PrefixIsAbove(path, i + 1);
      if node !in nodes {
        if PathOf(path) in nodes { AncestorsExist(nodes, node, PathOf(path)); }
        return None;
      }
    }
    assert path[..|path|] == path;
    return Some(node);
  }

  /** `visible_rows`. */
  method VisibleRows(v: Screen, cwd: seq<string>) returns (rows: seq<Row>)
    requires WellFormed(v.nodes) && EntriesCount(v.nodes) && Labelled(v.nodes)
    ensures rows == if PathOf(cwd) in v.nodes then Visible(v, PathOf(cwd)) else []
  {
    hide EntriesCount, WellFormed, Labelled, PathText, PathOf, Visible;
    var node := GetNode(v.nodes, cwd);
    if node.None? {
      return [];
    }
    TextOfComponents(v.nodes, cwd);
    RootText();
    var parent := if cwd == [] then "/" else "/" + Normalize.Join(cwd, '/');
    rows := SortedRows(v, node.value, parent);
  }

  lemma RootText()
    ensures PathText(PathOf([])) == "/"
  {
  }

  // --- The tree view ---

  function LineOf(v: Screen, path: seq<string>, row: Row): Line {
    Line(|path|, path + [row.name], row.path, row.name, row.isDir, path + [row.name] in v.expanded,
         row.stats.readBytes, row.stats.writeBytes, TotalOps(row.stats), AverageLatency(row.stats), TotalBytes(row.stats))
  }

  ghost predicate Shown(v: Screen, path: seq<string>, rows: seq<Row>) {
    forall i :: 0 <= i < |rows| ==> rows[i] in RowsIn(v, PathOf(path))
  }

  lemma PathOfNext(path: seq<string>, name: string)
    ensures PathOf(path + [name]) == Child(PathOf(path), name)
  {
    assert (path + [name])[..|path|] == path;
  }

  lemma ShownSmaller(v: Screen, path: seq<string>, rows: seq<Row>)
    requires WellFormed(v.nodes) && PathOf(path) in v.nodes && Shown(v, path, rows) && rows != []
    ensures PathOf(path + [rows[0].name]) == Child(PathOf(path), rows[0].name)
    ensures Child(PathOf(path), rows[0].name) in v.nodes && Shown(v, path, rows[1..])
    ensures rows[0] in RowsIn(v, PathOf(path))
    ensures |Below(v.nodes, Child(PathOf(path), rows[0].name))| < |Below(v.nodes, PathOf(path))|
  {
    hide PathOf, RowsIn;
    PathOfNext(path, rows[0].name);
    RowIsChild(v, PathOf(path), rows[0]);
    ChildHasLessBelow(v.nodes, PathOf(path), Child(PathOf(path), rows[0].name));
  }

  lemma VisibleShown(v: Screen, path: seq<string>)
    requires WellFormed(v.nodes)
    ensures Shown(v, path, Visible(v, PathOf(path)))
  {
    hide PathOf, RowsIn, Increasing, StrictOrder;
    var rows := Visible(v, PathOf(path));
    assert Elements(rows) == RowsIn(v, PathOf(path));
    forall i | 0 <= i < |rows|
      ensures rows[i] in RowsIn(v, PathOf(path))
    {
      assert rows[i] in Elements(rows);
    }
  }

  /** The lines below a directory: each row, followed by its own lines if it is expanded. */
  ghost function LinesBelow(v: Screen, path: seq<string>): seq<Line>
    requires WellFormed(v.nodes) && PathOf(path) in v.nodes
    decreases |Below(v.nodes, PathOf(path))|, 1, 0
  {
    VisibleShown(v, path);
    LinesFor(v, path, Visible(v, PathOf(path)))
  }

  ghost function LinesFor(v: Screen, path: seq<string>, rows: seq<Row>): seq<Line>
    requires WellFormed(v.nodes) && PathOf(path) in v.nodes && Shown(v, path, rows)
    decreases |Below(v.nodes, PathOf(path))|, 0, |rows|
  {
    if rows == [] then []
    else
      ShownSmaller(v, path, rows);
      var line := LineOf(v, path, rows[0]);
      [line] + (if line.isDir && line.isExpanded then LinesBelow(v, line.path) else []) + LinesFor(v, path, rows[1..])
  }

  /** One step of `LinesFor`. */
  lemma LinesForNext(v: Screen, path: seq<string>, rows: seq<Row>) returns (line: Line, block: seq<Line>)
    requires WellFormed(v.nodes) && PathOf(path) in v.nodes && Shown(v, path, rows) && rows != []
    ensures Shown(v, path, rows[1..]) && PathOf(path + [rows[0].name]) in v.nodes
    ensures |Below(v.nodes, PathOf(path + [rows[0].name]))| < |Below(v.nodes, PathOf(path))|
    ensures line == LineOf(v, path, rows[0]) && line.path == path + [rows[0].name]
    ensures block == if line.isDir && line.isExpanded then LinesBelow(v, line.path) else []
    ensures LinesFor(v, path, rows) == [line] + (block + LinesFor(v, path, rows[1..]))
  {
    hide WellFormed, PathOf, Shown, RowsIn, Below, Visible;
    ShownSmaller(v, path, rows);
    line := LineOf(v, path, rows[0]);
    block := if line.isDir && line.isExpanded then LinesBelow(v, line.path) else [];
    assert [line] + block + LinesFor(v, path, rows[1..]) == [line] + (block + LinesFor(v, path, rows[1..]));
  }

  lemma LinesBelowIs(v: Screen, path: seq<string>)
    requires WellFormed(v.nodes) && PathOf(path) in v.nodes
    ensures Shown(v, path, Visible(v, PathOf(path)))
    ensures LinesBelow(v, path) == LinesFor(v, path, Visible(v, PathOf(path)))
  {
    VisibleShown(v, path);
  }

  lemma LinesDone(v: Screen, path: seq<string>, rows: seq<Row>)
    requires WellFormed(v.nodes) && PathOf(path) in v.nodes && rows == []
    ensures Shown(v, path, rows) && LinesFor(v, path, rows) == []
  {
  }

  /** `flatten_recurse`: `path` is the shared stack of components. */
  method FlattenRecurse(v: Screen, path: seq<string>, text: string, depth: nat, lines: seq<Line>)
    returns (path': seq<string>, lines': seq<Line>)
    requires WellFormed(v.nodes) && EntriesCount(v.nodes) && PathOf(path) in v.nodes
    requires text == PathText(PathOf(path)) && depth == |path|
    ensures path' == path && lines' == lines + LinesBelow(v, path)
    decreases |Below(v.nodes, PathOf(path))|
  {
    hide WellFormed, EntriesCount, PathText, PathOf, Visible, Shown, Below, RowsIn, LinesFor, LinesBelow;
    path', lines' := path, lines;
    var rows := SortedRows(v, PathOf(path), text);
    LinesBelowIs(v, path);
    for i := 0 to |rows|
      invariant path' == path && Shown(v, path, rows[i..])
      invariant lines' + LinesFor(v, path, rows[i..]) == lines + LinesBelow(v, path)
    {
      var row := rows[i];
      assert rows[i..][0] == row && rows[i..][1..] == rows[i + 1..];
      ShownSmaller(v, path, rows[i..]);
      ghost var line, block := LinesForNext(v, path, rows[i..]);
      RowText(v, path, row);
      path' := path' + [row.name];
      var isExpanded := path' in v.expanded;
      lines' := lines' + [Line(depth, path', row.path, row.name, row.isDir, isExpanded,
                               row.stats.readBytes, row.stats.writeBytes, TotalOps(row.stats),
                               AverageLatency(row.stats), TotalBytes(row.stats))];
      if row.isDir && isExpanded {
        path', lines' := FlattenRecurse(v, path', row.path, depth + 1, lines');
      }
      path' := path'[..|path'| - 1];
    }
    LinesDone(v, path, rows[|rows|..]);
  }

  lemma RowText(v: Screen, path: seq<string>, row: Row)
    requires WellFormed(v.nodes) && row in RowsIn(v, PathOf(path))
    ensures row.path == PathText(PathOf(path + [row.name]))
  {
    PathOfNext(path, row.name);
  }

  /** `flatten`. */
  method Flatten(v: Screen) returns (lines: seq<Line>)
    requires WellFormed(v.nodes) && EntriesCount(v.nodes)
    ensures lines == LinesBelow(v, [])
  {
    var path: seq<string> := [];
    path, lines := FlattenRecurse(v, path, "/", 0, []);
  }

  // --- The two views agree ---

  predicate IsUnder(line: Line, path: seq<string>) {
    |path| < |line.path| && line.path[..|path|] == path
  }

  predicate IsChild(line: Line, path: seq<string>) {
    |line.path| == |path| + 1 && line.path[..|path|] == path
  }

  /** The lines of the immediate children of a directory. */
  function ChildLines(lines: seq<Line>, path: seq<string>): seq<Line> {
    if lines == [] then []
    else (if IsChild(lines[0], path) then [lines[0]] else []) + ChildLines(lines[1..], path)
  }

  lemma ChildLinesNext(line: Line, rest: seq<Line>, path: seq<string>)
    ensures ChildLines([line] + rest, path) == (if IsChild(line, path) then [line] else []) + ChildLines(rest, path)
  {
    hide IsChild;
    assert ([line] + rest)[1..] == rest;
  }

  lemma {:induction false} ChildLinesConcat(a: seq<Line>, b: seq<Line>, path: seq<string>)
    ensures ChildLines(a + b, path) == ChildLines(a, path) + ChildLines(b, path)
  {
    hide *;
    if a == [] {
      assert a + b == b;
      NothingUnder(path);
    } else {
      var rest := a[1..];
      ChildLinesConcat(rest, b, path);
      ChildLinesNext(a[0], rest, path);
      ChildLinesNext(a[0], rest + b, path);
      assert [a[0]] + rest == a && [a[0]] + (rest + b) == a + b;
    }
  }

  lemma NothingUnder(path: seq<string>)
    ensures ChildLines([], path) == []
  {
  }

  lemma {:induction false} NoChildLines(lines: seq<Line>, path: seq<string>)
    requires forall line :: line in lines ==> !IsChild(line, path)
    ensures ChildLines(lines, path) == []
  {
    hide IsChild;
    if lines != [] {
      assert lines[0] in lines;
      NoChildLines(lines[1..], path);
    }
  }

  /** The lines of a block all lie under its directory, under the name of one of its rows. */
  ghost predicate Under(lines: seq<Line>, path: seq<string>) { forall line :: line in lines ==> IsUnder(line, path) }

  ghost predicate UnderRows(lines: seq<Line>, path: seq<string>, rows: seq<Row>) {
    forall line :: line in lines ==>
      IsUnder(line, path) && exists i :: 0 <= i < |rows| && rows[i].name == line.path[|path|]
  }

  lemma {:induction false} LinesUnder(v: Screen, path: seq<string>, rows: seq<Row>)
    requires WellFormed(v.nodes) && PathOf(path) in v.nodes && Shown(v, path, rows)
    ensures UnderRows(LinesFor(v, path, rows), path, rows)
    decreases |Below(v.nodes, PathOf(path))|, 0, |rows|
  {
    hide WellFormed, PathOf, Shown, RowsIn, Below, Visible, LineOf;
    if rows != [] {
      var line, block := LinesForNext(v, path, rows);
      LinesUnder(v, path, rows[1..]);
      if line.isDir && line.isExpanded {
        VisibleShown(v, line.path);
        LinesUnder(v, line.path, Visible(v, PathOf(line.path)));
      }
      forall l | l in LinesFor(v, path, rows)
        ensures IsUnder(l, path) && exists i :: 0 <= i < |rows| && rows[i].name == l.path[|path|]
      {
        if l == line || l in block {
          assert l in block ==> IsUnder(l, line.path);
          assert line.path[|path|] == rows[0].name && line.path[..|path|] == path;
          assert l in block ==> l.path[..|line.path|] == line.path;
          assert l in block ==> l.path[|path|] == line.path[|path|] && l.path[..|path|] == line.path[..|path|];
        } else {
          var i :| 0 <= i < |rows[1..]| && rows[1..][i].name == l.path[|path|];
          assert rows[i + 1].name == l.path[|path|];
        }
      }
    }
  }

  function LinesOfRows(v: Screen, path: seq<string>, rows: seq<Row>): seq<Line> {
    if rows == [] then [] else [LineOf(v, path, rows[0])] + LinesOfRows(v, path, rows[1..])
  }

  ghost predicate NamesDiffer(rows: seq<Row>) { forall i, j :: 0 <= i < j < |rows| ==> rows[i].name != rows[j].name }

  lemma VisibleDiffer(v: Screen, p: Path)
    requires WellFormed(v.nodes)
    ensures NamesDiffer(Visible(v, p))
  {
    var rows, before := Visible(v, p), Order(v.sortBy, v.descending);
    RowsApart(v, p);
    ArrangedIncreases(before, RowsIn(v, p));
    hide RowsIn, Before;
    forall i, j | 0 <= i < j < |rows|
      ensures rows[i].name != rows[j].name
    {
      assert rows[i] in Elements(rows) && rows[j] in Elements(rows) && before(rows[i], rows[j]);
    }
  }

  /** The children of the directory itself are its rows. */
  lemma {:induction false} OwnChildLines(v: Screen, path: seq<string>, rows: seq<Row>)
    requires WellFormed(v.nodes) && PathOf(path) in v.nodes && Shown(v, path, rows)
    ensures ChildLines(LinesFor(v, path, rows), path) == LinesOfRows(v, path, rows)
    decreases |rows|
  {
    hide *;
    NoRows(v, path);
    if rows != [] {
      var line, block := LinesForNext(v, path, rows);
      var rest := LinesFor(v, path, rows[1..]);
      OwnChildLines(v, path, rows[1..]);
      BlockUnder(v, line, block);
      DeeperBlock(block, line.path, path);
      ChildLinesConcat([line], block + rest, path);
      ChildLinesConcat(block, rest, path);
      FirstRow(v, path, rows);
    }
  }

  lemma NoRows(v: Screen, path: seq<string>)
    requires WellFormed(v.nodes) && PathOf(path) in v.nodes
    ensures Shown(v, path, []) && LinesFor(v, path, []) == [] && LinesOfRows(v, path, []) == [] && ChildLines([], path) == []
  {
  }

  lemma FirstRow(v: Screen, path: seq<string>, rows: seq<Row>)
    requires rows != []
    ensures LinesOfRows(v, path, rows) == [LineOf(v, path, rows[0])] + LinesOfRows(v, path, rows[1..])
    ensures ChildLines([LineOf(v, path, rows[0])], path) == [LineOf(v, path, rows[0])]
  {
    assert (path + [rows[0].name])[..|path|] == path;
  }

  lemma DeeperBlock(block: seq<Line>, below: seq<string>, path: seq<string>)
    requires Under(block, below) && |path| < |below|
    ensures ChildLines(block, path) == []
  {
    NoChildLines(block, path);
  }

  lemma BlockUnder(v: Screen, line: Line, block: seq<Line>)
    requires WellFormed(v.nodes) && PathOf(line.path) in v.nodes
    requires block == if line.isDir && line.isExpanded then LinesBelow(v, line.path) else []
    ensures Under(block, line.path)
  {
    hide PathOf, Shown, RowsIn, Below, Visible;
    if line.isDir && line.isExpanded {
      VisibleShown(v, line.path);
      LinesUnder(v, line.path, Visible(v, PathOf(line.path)));
    }
  }

  ghost predicate Opens(lines: seq<Line>, path: seq<string>) {
    exists line :: line in lines && line.path == path && line.isDir && line.isExpanded
  }

  /** The children of an expanded directory further down are its rows. */
  lemma {:induction false} DeepChildLines(v: Screen, path: seq<string>, rows: seq<Row>, target: seq<string>)
    requires WellFormed(v.nodes) && PathOf(path) in v.nodes && Shown(v, path, rows) && NamesDiffer(rows)
    requires Opens(LinesFor(v, path, rows), target)
    ensures PathOf(target) in v.nodes
    ensures ChildLines(LinesFor(v, path, rows), target) == LinesOfRows(v, target, Visible(v, PathOf(target)))
    decreases |Below(v.nodes, PathOf(path))|, |rows|
  {
    hide WellFormed, PathOf, Shown, RowsIn, Below, Visible, LineOf, LinesFor, LinesBelow, ChildLines, LinesOfRows;
    NotEmpty(v, path, rows, target);
    var line, block := LinesForNext(v, path, rows);
    var rest := LinesFor(v, path, rows[1..]);
    BlockUnder(v, line, block);
    LinesUnder(v, path, rows[1..]);
    LinesUnder(v, path, rows);
    ChildLinesConcat([line], block + rest, target);
    ChildLinesConcat(block, rest, target);
    assert line.path[..|path|] == path && line.path[|path|] == rows[0].name;
    var shown :| shown in LinesFor(v, path, rows) && shown.path == target && shown.isDir && shown.isExpanded;
    NoChildLines([line], target);
    if target[|path|] == rows[0].name {
      ApartFromRest(path, rows, rest, target);
      NoChildLines(rest, target);
      assert shown == line || shown in block;
      if shown == line {
        LinesBelowIs(v, target);
        VisibleShown(v, target);
        OwnChildLines(v, target, Visible(v, PathOf(target)));
      } else {
        LinesBelowIs(v, line.path);
        VisibleShown(v, line.path);
        VisibleDiffer(v, PathOf(line.path));
        DeepChildLines(v, line.path, Visible(v, PathOf(line.path)), target);
      }
    } else {
      assert forall l :: l in block ==> l.path[..|line.path|] == line.path && l.path[|path|] == line.path[|path|];
      NoChildLines(block, target);
      assert shown in rest;
      DeepChildLines(v, path, rows[1..], target);
    }
  }

  lemma NotEmpty(v: Screen, path: seq<string>, rows: seq<Row>, target: seq<string>)
    requires WellFormed(v.nodes) && PathOf(path) in v.nodes && Shown(v, path, rows)
    requires Opens(LinesFor(v, path, rows), target)
    ensures rows != []
  {
  }

  lemma ChildBelow(line: Line, path: seq<string>, i: nat)
    requires i < |path|
    ensures IsChild(line, path) ==> i < |line.path| && line.path[i] == path[i]
  {
    if IsChild(line, path) { assert line.path[..|path|][i] == line.path[i]; }
  }

  lemma ApartFromRest(path: seq<string>, rows: seq<Row>, rest: seq<Line>, target: seq<string>)
    requires NamesDiffer(rows) && rows != [] && UnderRows(rest, path, rows[1..])
    requires |path| < |target| && target[|path|] == rows[0].name
    ensures forall l :: l in rest ==> l.path != target && !IsChild(l, target)
  {
    forall l | l in rest
      ensures |path| < |l.path| && l.path[|path|] != target[|path|]
    {
      var i :| 0 <= i < |rows[1..]| && rows[1..][i].name == l.path[|path|];
      assert rows[i + 1] == rows[1..][i];
    }
    forall l { ChildBelow(l, target, |path|); }
  }

  /** The tree view shows, under every expanded directory, exactly the rows of the flat view
      of that directory, in the same order and with the same statistics. */
  lemma ViewsAgree(v: Screen, target: seq<string>)
    requires WellFormed(v.nodes) && (target == [] || Opens(LinesBelow(v, []), target))
    ensures PathOf(target) in v.nodes
    ensures ChildLines(LinesBelow(v, []), target) == LinesOfRows(v, target, Visible(v, PathOf(target)))
  {
    hide RowsIn, Below, Visible, LineOf, LinesFor, ChildLines, LinesOfRows, Shown;
    LinesBelowIs(v, []);
    if target == [] {
      OwnChildLines(v, [], Visible(v, Root));
    } else {
      VisibleDiffer(v, Root);
      DeepChildLines(v, [], Visible(v, Root), target);
    }
  }

  ghost predicate PathsDiffer(lines: seq<Line>) { forall i, j :: 0 <= i < j < |lines| ==> lines[i].path != lines[j].path }

  lemma PathsDifferJoin(a: seq<Line>, b: seq<Line>)
    requires PathsDiffer(a) && PathsDiffer(b) && forall x, y :: x in a && y in b ==> x.path != y.path
    ensures PathsDiffer(a + b)
  {
  }

  lemma {:induction false} PathsDifferFor(v: Screen, path: seq<string>, rows: seq<Row>)
    requires WellFormed(v.nodes) && PathOf(path) in v.nodes && Shown(v, path, rows) && NamesDiffer(rows)
    ensures PathsDiffer(LinesFor(v, path, rows))
    decreases |Below(v.nodes, PathOf(path))|, |rows|
  {
    hide WellFormed, PathOf, Shown, RowsIn, Below, Visible, LineOf, LinesBelow;
    if rows != [] {
      var line, block := LinesForNext(v, path, rows);
      var rest := LinesFor(v, path, rows[1..]);
      hide LinesFor;
      BlockUnder(v, line, block);
      LinesUnder(v, path, rows[1..]);
      PathsDifferFor(v, path, rows[1..]);
      if line.isDir && line.isExpanded {
        LinesBelowIs(v, line.path);
        VisibleDiffer(v, PathOf(line.path));
        PathsDifferFor(v, line.path, Visible(v, PathOf(line.path)));
      }
      forall x, y | x in block && y in rest
        ensures x.path != y.path
      {
        assert x.path[..|line.path|] == line.path && x.path[|path|] == line.path[|path|] == rows[0].name;
        ApartFromRest(path, rows, rest, x.path);
      }
      ApartFromRest(path, rows, rest, line.path);
      PathsDifferJoin(block, rest);
      PathsDifferJoin([line], block + rest);
    }
  }

  /** No place is shown twice. */
  lemma LinesDiffer(v: Screen)
    requires WellFormed(v.nodes)
    ensures PathsDiffer(LinesBelow(v, []))
  {
    hide RowsIn, Below, Visible, LinesFor, Shown;
    LinesBelowIs(v, []);
    VisibleDiffer(v, Root);
    PathsDifferFor(v, [], Visible(v, Root));
  }

  // --- What rows and lines say ---

  /** The flat view shows exactly the children that have matching activity, each with the
      name, kind and statistics of its node. */
  lemma RowsShow(v: Screen, p: Path, name: string)
    requires WellFormed(v.nodes) && EntriesCount(v.nodes)
    ensures (exists i :: 0 <= i < |Visible(v, p)| && Visible(v, p)[i].name == name)
       <==> Child(p, name) in v.nodes
            && (v.query.terms == [] || Matching(v.nodes, Child(p, name), v.query, v.table) != map[])
    ensures forall i :: 0 <= i < |Visible(v, p)| ==>
              var row, c := Visible(v, p)[i], Child(p, Visible(v, p)[i].name);
              && c in v.nodes && row.path == PathText(c) && row.isDir == v.nodes[c].isDir
              && row.stats == if v.query.terms == [] then v.nodes[c].agg
                              else Sum(Matching(v.nodes, c, v.query, v.table))
  {
    hide WellFormed, EntriesCount, RowsIn, PathText, Sum, Matching, StrictOrder, Arranged;
    var rows, c := Visible(v, p), Child(p, name);
    assert Elements(rows) == RowsIn(v, p);
    forall i | 0 <= i < |rows|
      ensures rows[i] in RowsIn(v, p)
    {
      assert rows[i] in Elements(rows);
    }
    forall row { RowIsChild(v, p, row); }
    if c in v.nodes {
      MatchingIs(v.nodes, c, v.query, v.table);
      NoAnswerNothing(v.nodes, EntriesUnder(v.nodes, c), v.query, v.table);
      NamedRow(v, p, name);
      if StatsAt(v, c).Some? {
        assert RowAt(v, c) in Elements(rows);
      }
    }
  }

  lemma NamedRow(v: Screen, p: Path, name: string)
    requires WellFormed(v.nodes) && Child(p, name) in v.nodes
    ensures StatsAt(v, Child(p, name)).Some? ==> RowAt(v, Child(p, name)).name == name
  {
    hide StatsAt;
  }

  /** A line describes the node at its path: the path from the root in `path`, the depth from
      zero, and the figures of its statistics. */
  ghost predicate Describes(v: Screen, line: Line) {
    var c := PathOf(line.path);
    && line.path != [] && c in v.nodes && StatsAt(v, c).Some?
    && line.depth == |line.path| - 1 && line.name == line.path[|line.path| - 1] && line.displayPath == PathText(c)
    && line.isDir == v.nodes[c].isDir && (line.isExpanded <==> line.path in v.expanded)
    && var s := StatsAt(v, c).value;
    && line.readBytes == s.readBytes && line.writeBytes == s.writeBytes
    && line.totalBytes == Min(s.readBytes + s.writeBytes, U64_MAX)
    && line.totalOps == Min(s.readOps + s.writeOps + s.openOps + s.closeOps, U64_MAX)
    && line.averageLatency == if s.readOps + s.writeOps == 0 then 0
                              else s.totalLatency / Min(s.readOps + s.writeOps, U64_MAX)
  }

  lemma LineDescribes(v: Screen, path: seq<string>, row: Row)
    requires WellFormed(v.nodes) && row in RowsIn(v, PathOf(path))
    ensures Describes(v, LineOf(v, path, row))
  {
    hide RowsIn, StatsAt, PathText, WellFormed, TotalBytes, TotalOps, AverageLatency;
    RowIsChild(v, PathOf(path), row);
    PathOfNext(path, row.name);
    Figures(row.stats);
    NamedRow(v, PathOf(path), row.name);
  }

  lemma {:induction false} LinesDescribe(v: Screen, path: seq<string>, rows: seq<Row>)
    requires WellFormed(v.nodes) && PathOf(path) in v.nodes && Shown(v, path, rows)
    ensures forall line :: line in LinesFor(v, path, rows) ==> Describes(v, line)
    decreases |Below(v.nodes, PathOf(path))|, 0, |rows|
  {
    hide WellFormed, PathOf, RowsIn, Below, Visible, LineOf, Describes, Shown;
    if rows != [] {
      var line, block := LinesForNext(v, path, rows);
      ShownSmaller(v, path, rows);
      LineDescribes(v, path, rows[0]);
      LinesDescribe(v, path, rows[1..]);
      if line.isDir && line.isExpanded {
        VisibleShown(v, line.path);
        LinesDescribe(v, line.path, Visible(v, PathOf(line.path)));
      }
    }
  }

  /** Every line of the tree view describes the node at its path. */
  lemma LinesShow(v: Screen, line: Line)
    requires WellFormed(v.nodes) && line in LinesBelow(v, [])
    ensures Describes(v, line)
  {
    hide RowsIn, Below, Visible, LinesFor, Describes, Shown;
    LinesBelowIs(v, []);
    LinesDescribe(v, [], Visible(v, Root));
  }

  /** What lies under a line follows it directly and without interruption. */
  ghost predicate Preordered(lines: seq<Line>) {
    && (forall i, j :: 0 <= i < j < |lines| ==> !IsUnder(lines[i], lines[j].path))
    && (forall i, j, k :: 0 <= i < j < k < |lines| && IsUnder(lines[k], lines[i].path) ==> IsUnder(lines[j], lines[i].path))
  }

  lemma PreorderedJoin(a: seq<Line>, b: seq<Line>)
    requires Preordered(a) && Preordered(b)
    requires forall x, y :: x in a && y in b ==> !IsUnder(x, y.path) && !IsUnder(y, x.path)
    ensures Preordered(a + b)
  {
    hide IsUnder;
    var c := a + b;
    assert forall i :: 0 <= i < |a| ==> c[i] == a[i] && c[i] in a;
    assert forall i :: |a| <= i < |c| ==> c[i] == b[i - |a|] && c[i] in b;
    forall i, j | 0 <= i < j < |c|
      ensures !IsUnder(c[i], c[j].path)
    {
      if |a| <= i { assert !IsUnder(b[i - |a|], b[j - |a|].path); }
    }
    forall i, j, k | 0 <= i < j < k < |c| && IsUnder(c[k], c[i].path)
      ensures IsUnder(c[j], c[i].path)
    {
      if |a| <= i {
        assert IsUnder(b[k - |a|], b[i - |a|].path);
        assert IsUnder(b[j - |a|], b[i - |a|].path);
      }
    }
  }

  lemma PreorderedBlock(line: Line, block: seq<Line>)
    requires Preordered(block) && Under(block, line.path)
    ensures Preordered([line] + block)
  {
    var all := [line] + block;
    assert forall i :: 0 < i < |all| ==> all[i] == block[i - 1] && all[i] in block;
    forall l { NotBoth(line, l); }
    hide IsUnder;
    forall i, j | 0 <= i < j < |all|
      ensures !IsUnder(all[i], all[j].path)
    {
      if i > 0 { assert !IsUnder(block[i - 1], block[j - 1].path); }
    }
    forall i, j, k | 0 <= i < j < k < |all| && IsUnder(all[k], all[i].path)
      ensures IsUnder(all[j], all[i].path)
    {
      if i > 0 {
        assert IsUnder(block[k - 1], block[i - 1].path);
        assert IsUnder(block[j - 1], block[i - 1].path);
      }
    }
  }

  lemma NotBoth(line: Line, l: Line)
    ensures !(IsUnder(l, line.path) && IsUnder(line, l.path))
  {
  }

  lemma UnderAgrees(x: Line, path: seq<string>, n: nat)
    requires n < |path|
    ensures IsUnder(x, path) ==> n < |x.path| && x.path[n] == path[n]
  {
    if IsUnder(x, path) { assert x.path[..|path|][n] == x.path[n]; }
  }

  lemma {:induction false} PreorderFor(v: Screen, path: seq<string>, rows: seq<Row>)
    requires WellFormed(v.nodes) && PathOf(path) in v.nodes && Shown(v, path, rows) && NamesDiffer(rows)
    ensures Preordered(LinesFor(v, path, rows))
    decreases |Below(v.nodes, PathOf(path))|, |rows|
  {
    hide *;
    NothingPreordered();
    if rows == [] {
      LinesDone(v, path, rows);
    } else {
      var line, block := LinesForNext(v, path, rows);
      RestDiffer(rows);
      PreorderFor(v, path, rows[1..]);
      if line.isDir && line.isExpanded {
        LinesBelowIs(v, line.path);
        VisibleDiffer(v, PathOf(line.path));
        PreorderFor(v, line.path, Visible(v, PathOf(line.path)));
      }
      BlockUnder(v, line, block);
      LinesUnder(v, path, rows[1..]);
      PreorderedBlock(line, block);
      BlockApart(path, rows, line, block, LinesFor(v, path, rows[1..]));
      PreorderedJoin([line] + block, LinesFor(v, path, rows[1..]));
      assert [line] + (block + LinesFor(v, path, rows[1..])) == [line] + block + LinesFor(v, path, rows[1..]);
    }
  }

  lemma RestDiffer(rows: seq<Row>)
    requires NamesDiffer(rows) && rows != []
    ensures NamesDiffer(rows[1..])
  {
  }

  /** A row with its block and the rows after it have nothing to do with each other. */
  lemma BlockApart(path: seq<string>, rows: seq<Row>, line: Line, block: seq<Line>, rest: seq<Line>)
    requires NamesDiffer(rows) && rows != [] && UnderRows(rest, path, rows[1..])
    requires line.path == path + [rows[0].name] && Under(block, line.path)
    ensures forall x, y :: x in [line] + block && y in rest ==> !IsUnder(x, y.path) && !IsUnder(y, x.path)
  {
    forall x, y | x in [line] + block && y in rest
      ensures !IsUnder(x, y.path) && !IsUnder(y, x.path)
    {
      assert x == line || IsUnder(x, line.path);
      hide *;
      UnderFirst(path, line, x);
      OtherName(path, rows, rest, y);
      UnderAgrees(x, y.path, |path|);
      UnderAgrees(y, x.path, |path|);
    }
  }

  lemma NothingPreordered()
    ensures Preordered([])
  {
  }

  lemma UnderFirst(path: seq<string>, line: Line, x: Line)
    requires |line.path| == |path| + 1 && (x == line || IsUnder(x, line.path))
    ensures |path| < |x.path| && x.path[|path|] == line.path[|path|]
  {
    if x != line { assert x.path[..|line.path|][|path|] == x.path[|path|]; }
  }

  lemma OtherName(path: seq<string>, rows: seq<Row>, rest: seq<Line>, y: Line)
    requires NamesDiffer(rows) && rows != [] && UnderRows(rest, path, rows[1..]) && y in rest
    ensures |path| < |y.path| && y.path[|path|] != rows[0].name
  {
    var i :| 0 <= i < |rows[1..]| && rows[1..][i].name == y.path[|path|];
    assert rows[i + 1] == rows[1..][i];
  }

  /** The tree view is in preorder. */
  lemma LinesPreordered(v: Screen)
    requires WellFormed(v.nodes)
    ensures Preordered(LinesBelow(v, []))
  {
    hide RowsIn, Below, Visible, LinesFor, Preordered, Shown;
    LinesBelowIs(v, []);
    VisibleDiffer(v, Root);
    PreorderFor(v, [], Visible(v, Root));
  }
}
