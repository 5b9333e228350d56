/** Per-process statistics (`ncda/src/process.rs`). */
module Processes {
  import opened Saturating
  import opened Stats

  datatype ProcessInfo = ProcessInfo(pid: u32, comm: string, container: Option<string>, stats: NodeStats)

  type Table = map<u32, ProcessInfo>

  function Lookup(table: Table, pid: u32): Option<ProcessInfo> {
    if pid in table then Some(table[pid]) else None
  }

  /** `record_stats_with_context`; `comm` is what procfs reports for a new process. */
  function Recorded(table: Table, pid: u32, comm: string, container: Option<string>, delta: NodeStats): Table {
    var info := if pid in table then table[pid] else ProcessInfo(pid, comm, container, ZERO);
    table[pid := Updated(info, container, delta)]
  }

  function Updated(info: ProcessInfo, container: Option<string>, delta: NodeStats): ProcessInfo {
    ProcessInfo(info.pid, info.comm, if info.container.None? then container else info.container,
                Accumulate(info.stats, delta))
  }

  /** Rows are kept under their own process id. */
  ghost predicate Keyed(table: Table) { forall pid :: pid in table ==> table[pid].pid == pid }

  lemma RecordedKeyed(table: Table, pid: u32, comm: string, container: Option<string>, delta: NodeStats)
    requires Keyed(table)
    ensures Keyed(Recorded(table, pid, comm, container, delta)) && Keyed(table - {pid})
  {
    hide Accumulate;
  }

  class ProcessTable {
    var processes: Table

    constructor ()
      ensures processes == map[]
    {
      processes := map[];
    }

    method RecordStatsWithContext(pid: u32, comm: string, container: Option<string>, delta: NodeStats)
      modifies this
      ensures processes == Recorded(old(processes), pid, comm, container, delta)
    {
      if pid !in processes {
        processes := processes[pid := ProcessInfo(pid, comm, container, ZERO)];
      }
      if processes[pid].container.None? {
        processes := processes[pid := processes[pid].(container := container)];
      }
      processes := processes[pid := processes[pid].(stats := Accumulate(processes[pid].stats, delta))];
    }

    method Remove(pid: u32)
      modifies this
      ensures processes == old(processes) - {pid}
    {
      processes := processes - {pid};
    }

    method Reset()
      modifies this
      ensures processes == map[]
    {
      processes := map[];
    }
  }

  lemma UpdatedLaws(info: ProcessInfo, container: Option<string>, a: NodeStats, b: NodeStats)
    ensures Updated(Updated(info, container, a), container, b) == Updated(Updated(info, container, b), container, a)
    ensures Updated(Updated(info, container, a), container, b) == Updated(info, container, Accumulate(a, b))
  {
    AccumulateMonoid(info.stats, a, b);
    AccumulateSwap(info.stats, a, b);
  }

  /** Activity of one process commutes and merges while its container is known. */
  lemma RecordedLaws(t: Table, p: u32, comm: string, box: Option<string>, a: NodeStats, b: NodeStats)
    ensures Recorded(Recorded(t, p, comm, box, a), p, comm, box, b) == Recorded(Recorded(t, p, comm, box, b), p, comm, box, a)
    ensures Recorded(Recorded(t, p, comm, box, a), p, comm, box, b) == Recorded(t, p, comm, box, Accumulate(a, b))
  {
    UpdatedLaws(if p in t then t[p] else ProcessInfo(p, comm, box, ZERO), box, a, b);
  }

  /** Different processes do not interfere. */
  lemma RecordedApart(t: Table, p: u32, q: u32, comm: string, comm': string,
                      box: Option<string>, box': Option<string>, a: NodeStats, b: NodeStats)
    requires p != q
    ensures Recorded(Recorded(t, p, comm, box, a), q, comm', box', b)
         == Recorded(Recorded(t, q, comm', box', b), p, comm, box, a)
    ensures Recorded(t, p, comm, box, a) - {q} == Recorded(t - {q}, p, comm, box, a)
  {
  }

  // --- What a row remembers ---

  /** One recording of a process: what procfs calls it, its container, and what it did. */
  datatype Visit = Visit(comm: string, container: Option<string>, stats: NodeStats)

  function RecordedAll(table: Table, pid: u32, visits: seq<Visit>): Table {
    if visits == [] then table
    else
      var v := visits[|visits| - 1];
      Recorded(RecordedAll(table, pid, visits[..|visits| - 1]), pid, v.comm, v.container, v.stats)
  }

  /** A row keeps the name that the process had at first, and the first container that was
      known of it. Other rows stay as they are. */
  lemma {:induction false} RowRemembers(table: Table, pid: u32, visits: seq<Visit>, q: u32)
    requires pid !in table && visits != []
    ensures var after := RecordedAll(table, pid, visits);
            && pid in after && after[pid].pid == pid && after[pid].comm == visits[0].comm
            && (after[pid].container == None <==> forall i :: 0 <= i < |visits| ==> visits[i].container == None)
            && (forall i :: 0 <= i < |visits| && visits[i].container.Some?
                            && (forall j :: 0 <= j < i ==> visits[j].container == None)
                  ==> after[pid].container == visits[i].container)
            && (q != pid ==> (q in after <==> q in table) && (q in after ==> after[q] == table[q]))
    decreases |visits|
  {
    hide Accumulate;
    var rest := visits[..|visits| - 1];
    if rest != [] {
      RowRemembers(table, pid, rest, q);
      assert forall i :: 0 <= i < |rest| ==> rest[i] == visits[i];
    }
  }
}
