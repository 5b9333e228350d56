/** The process panel's order (`sorted` in `ncda/src/process.rs`). */
module ProcessOrder {
  import opened Saturating
  import opened Stats
  import opened Processes
  import opened Ordering

  datatype ProcessSort =
    ByTotalBytes | ByReadBytes | ByWriteBytes | ByOperations | ByLatency | ByPid | ByComm

  function Measure(key: ProcessSort, p: ProcessInfo): nat {
    match key
    case ByTotalBytes => TotalBytes(p.stats)
    case ByReadBytes => p.stats.readBytes
    case ByWriteBytes => p.stats.writeBytes
    case ByOperations => TotalOps(p.stats)
    case ByLatency => AverageLatency(p.stats)
    case ByPid => p.pid
    case ByComm => 0
  }

  predicate Smaller(key: ProcessSort, a: ProcessInfo, b: ProcessInfo) {
    if key.ByComm? then NameLess(a.comm, b.comm) else Measure(key, a) < Measure(key, b)
  }

  /** The chosen order, reversed if descending; equals go by process id. */
  predicate Before(key: ProcessSort, descending: bool, a: ProcessInfo, b: ProcessInfo) {
    if Smaller(key, a, b) then !descending
    else if Smaller(key, b, a) then descending
    else a.pid < b.pid
  }

  function Order(key: ProcessSort, descending: bool): (ProcessInfo, ProcessInfo) -> bool {
    (a, b) => Before(key, descending, a, b)
  }

  lemma BeforeLaws(key: ProcessSort, descending: bool, a: ProcessInfo, b: ProcessInfo, c: ProcessInfo)
    ensures !Before(key, descending, a, a)
    ensures a.pid == b.pid || Before(key, descending, a, b) || Before(key, descending, b, a)
    ensures Before(key, descending, a, b) && Before(key, descending, b, c) ==> Before(key, descending, a, c)
  {
    hide Measure, NameLess;
    NamesOrdered(a.comm, b.comm);
    NamesOrdered(b.comm, c.comm);
    NamesOrdered(a.comm, c.comm);
    NamesChain(a.comm, b.comm, c.comm);
    NamesChain(c.comm, b.comm, a.comm);
  }

  function RowsOf(table: Table): set<ProcessInfo> { set pid | pid in table :: table[pid] }

  lemma RowsOrdered(key: ProcessSort, descending: bool, table: Table)
    requires Keyed(table)
    ensures StrictOrder(Order(key, descending), RowsOf(table))
  {
    hide Before;
    forall a, b, c { BeforeLaws(key, descending, a, b, c); }
  }

  lemma BeforeRanks(key: ProcessSort, desc: bool, x: ProcessInfo, y: ProcessInfo)
    requires Before(key, desc, x, y)
    ensures var a, b, byPid := x.stats, y.stats, x.pid < y.pid;
            match key
            case ByTotalBytes =>
              Ranked(desc, Min(a.readBytes + a.writeBytes, U64_MAX), Min(b.readBytes + b.writeBytes, U64_MAX), byPid)
            case ByReadBytes => Ranked(desc, a.readBytes, b.readBytes, byPid)
            case ByWriteBytes => Ranked(desc, a.writeBytes, b.writeBytes, byPid)
            case ByOperations =>
              Ranked(desc, Min(a.readOps + a.writeOps + a.openOps + a.closeOps, U64_MAX),
                     Min(b.readOps + b.writeOps + b.openOps + b.closeOps, U64_MAX), byPid)
            case ByLatency =>
              Ranked(desc, if a.readOps + a.writeOps == 0 then 0 else a.totalLatency / Min(a.readOps + a.writeOps, U64_MAX),
                     if b.readOps + b.writeOps == 0 then 0 else b.totalLatency / Min(b.readOps + b.writeOps, U64_MAX), byPid)
            case ByPid => if desc then x.pid > y.pid else x.pid < y.pid
            case ByComm => if x.comm == y.comm then byPid
                           else if desc then NameLess(y.comm, x.comm) else NameLess(x.comm, y.comm)
  {
    hide NameLess, TotalBytes, TotalOps, AverageLatency;
    Figures(x.stats);
    Figures(y.stats);
    NamesOrdered(x.comm, y.comm);
    NamesOrdered(x.comm, x.comm);
  }

  /** What comes first in the panel: each key orders by its own figure, downwards if
      descending; rows with equal figures go by process id, upwards. */
  lemma PanelSorted(table: Table, key: ProcessSort, desc: bool, i: nat, j: nat)
    requires Keyed(table) && StrictOrder(Order(key, desc), RowsOf(table))
    requires i < j < |Arranged(Order(key, desc), RowsOf(table))|
    ensures var x, y := Arranged(Order(key, desc), RowsOf(table))[i], Arranged(Order(key, desc), RowsOf(table))[j];
            var a, b, byPid := x.stats, y.stats, x.pid < y.pid;
            match key
            case ByTotalBytes =>
              Ranked(desc, Min(a.readBytes + a.writeBytes, U64_MAX), Min(b.readBytes + b.writeBytes, U64_MAX), byPid)
            case ByReadBytes => Ranked(desc, a.readBytes, b.readBytes, byPid)
            case ByWriteBytes => Ranked(desc, a.writeBytes, b.writeBytes, byPid)
            case ByOperations =>
              Ranked(desc, Min(a.readOps + a.writeOps + a.openOps + a.closeOps, U64_MAX),
                     Min(b.readOps + b.writeOps + b.openOps + b.closeOps, U64_MAX), byPid)
            case ByLatency =>
              Ranked(desc, if a.readOps + a.writeOps == 0 then 0 else a.totalLatency / Min(a.readOps + a.writeOps, U64_MAX),
                     if b.readOps + b.writeOps == 0 then 0 else b.totalLatency / Min(b.readOps + b.writeOps, U64_MAX), byPid)
            case ByPid => if desc then x.pid > y.pid else x.pid < y.pid
            case ByComm => if x.comm == y.comm then byPid
                           else if desc then NameLess(y.comm, x.comm) else NameLess(x.comm, y.comm)
  {
    hide *;
    ArrangedBefore(table, key, desc, i, j);
    BeforeRanks(key, desc, Arranged(Order(key, desc), RowsOf(table))[i], Arranged(Order(key, desc), RowsOf(table))[j]);
  }

  lemma ArrangedBefore(table: Table, key: ProcessSort, desc: bool, i: nat, j: nat)
    requires StrictOrder(Order(key, desc), RowsOf(table)) && i < j < |Arranged(Order(key, desc), RowsOf(table))|
    ensures Before(key, desc, Arranged(Order(key, desc), RowsOf(table))[i], Arranged(Order(key, desc), RowsOf(table))[j])
  {
    hide Before, RowsOf, StrictOrder, Arranged;
    ArrangedIncreases(Order(key, desc), RowsOf(table));
  }

  /** `sorted`: the rows in order, whatever the order in which the table is visited. */
  method Sorted(table: Table, key: ProcessSort, descending: bool) returns (rows: seq<ProcessInfo>)
    requires Keyed(table)
    ensures StrictOrder(Order(key, descending), RowsOf(table))
    ensures rows == Arranged(Order(key, descending), RowsOf(table))
  {
    rows := [];
    var rest := table.Keys;
    while rest != {}
      invariant rest <= table.Keys
      invariant forall row :: row in rows <==> exists pid :: pid in table && pid !in rest && row == table[pid]
      invariant forall i, j :: 0 <= i < j < |rows| ==> rows[i] != rows[j]
    {
      var pid :| pid in rest;
      forall i | 0 <= i < |rows|
        ensures rows[i] != table[pid]
      {
        assert rows[i] in rows;
      }
      rows := rows + [table[pid]];
      rest := rest - {pid};
    }
    assert Elements(rows) == RowsOf(table);
    RowsOrdered(key, descending, table);
    rows := Sort(Order(key, descending), rows);
  }
}
