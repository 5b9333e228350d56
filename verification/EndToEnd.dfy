/** From a system call to its attribution: what the layers promise together. */
module EndToEnd {
  import opened Saturating
  import opened Records
  import opened Capture
  import opened CaptureRuns
  import Attribution
  import Resolve
  import App

  /** The event that a parsed record is to the aggregator. */
  function EventOf(e: BpfEvent): App.Event {
    match e
    case Open(pid, _, fd, dirfd, path, flags, _) =>
      App.LifecycleEvent(Attribution.Opened(Attribution.OpenCall(pid, fd, dirfd, path, flags)))
    case Read(pid, _, fd, bytes, result, latency, _) => App.ReadEvent(pid, fd, bytes, result, latency)
    case Write(pid, _, fd, bytes, result, latency, _) => App.WriteEvent(pid, fd, bytes, result, latency)
    case Close(pid, _, fd, _) => App.LifecycleEvent(Attribution.Closed(pid, fd))
    case Dup(pid, _, oldFd, newFd, _) => App.LifecycleEvent(Attribution.Duplicated(pid, oldFd, newFd))
    case CloseRange(pid, _, first, last, flags, _) => App.LifecycleEvent(Attribution.RangeClosed(pid, first, last, flags))
    case ProcessExec(pid, _) => App.LifecycleEvent(Attribution.Replaced(pid))
    case ProcessExit(pid, _) => App.LifecycleEvent(Attribution.Exited(pid))
  }

  /** The event that a returning call becomes, if its record is delivered. */
  function Observed(task: Task, p: Pending, result: i64, now: u64): Option<App.Event> {
    var due := Due(task, p, result, now);
    if due.None? then None
    else
      var event := Parse(Layout(due.value));
      if event.None? then None else Some(EventOf(event.value))
  }

  /** A well-formed record that is due is observed as what it means. */
  lemma ObservedMeans(task: Task, p: Pending, result: i64, now: u64, due: Option<Record>)
    requires due == Due(task, p, result, now) && (due.Some? ==> WellFormed(due.value))
    ensures due.None? ==> Observed(task, p, result, now) == None
    ensures due.Some? ==> var event := Parse(Layout(due.value));
              event.Some? && Means(due.value, event.value) && Observed(task, p, result, now) == Some(EventOf(event.value))
  {
    hide Parse, Layout, WellFormed, Means, EventOf, Due;
    if due.Some? { ParseLayout(due.value); }
  }

  /** A read or write is accounted with its own descriptor, its own result, as many bytes as
      it returned, and the time it took. */
  lemma TransferObserved(task: Task, kind: IoKind, fd: u32, since: u64, result: i64, now: u64)
    requires since <= now
    ensures var bytes, latency := Max(result, 0), now - since;
            Observed(task, Pending(Transfer(kind, fd), since, true), result, now)
            == Some(if kind.Reading? then App.ReadEvent(task.pid, fd, bytes, result, latency)
                    else App.WriteEvent(task.pid, fd, bytes, result, latency))
  {
    var record := IoRecord(KindNumber(kind), task.pid, task.tid, fd, result, now - since, now);
    assert Due(task, Pending(Transfer(kind, fd), since, true), result, now) == Some(record);
    ObservedMeans(task, Pending(Transfer(kind, fd), since, true), result, now, Some(record));
    hide Parse, Layout, Observed, Due;
  }

  /** A close is observed unless it fails with `EBADF`, so unless the descriptor was not open
      in the first place. */
  lemma CloseObserved(task: Task, fd: u32, since: u64, result: i64, now: u64)
    ensures Observed(task, Pending(CloseFd(fd), since, true), result, now)
         == if result == -9 then None else Some(App.LifecycleEvent(Attribution.Closed(task.pid, fd)))
  {
    var due := if result == -9 then None else Some(IoRecord(EVENT_CLOSE, task.pid, task.tid, fd, result, 0, now));
    assert Due(task, Pending(CloseFd(fd), since, true), result, now) == due;
    ObservedMeans(task, Pending(CloseFd(fd), since, true), result, now, due);
    hide Parse, Layout, Observed, Due;
  }

  /** Only successful range closes are observed, as they were entered. */
  lemma RangeObserved(task: Task, first: u32, last: u32, flags: u32, since: u64, result: i64, now: u64)
    ensures Observed(task, Pending(RangeFds(first, last, flags), since, true), result, now)
         == if result != 0 then None
            else Some(App.LifecycleEvent(Attribution.RangeClosed(task.pid, first, last, flags)))
  {
    var due := if result != 0 then None else Some(RangeRecord(task.pid, task.tid, first, last, flags, now));
    assert Due(task, Pending(RangeFds(first, last, flags), since, true), result, now) == due;
    ObservedMeans(task, Pending(RangeFds(first, last, flags), since, true), result, now, due);
    hide Parse, Layout, Observed, Due;
  }

  /** Only successful duplications are observed, by `dup` or by `fcntl` with one of its two
      duplicating commands, with the descriptor that was entered and the one that was
      returned, which is a 32-bit number. */
  lemma DuplicateObserved(task: Task, call: Call, since: u64, result: i64, now: u64)
    requires call.DupFd? || (call.Fcntl? && (call.command == 0 || call.command == 1030))
    ensures var event := Observed(task, Pending(call, since, true), result, now);
            && (event.None? <==> result < 0)
            && (result >= 0 ==>
                  && event.value.LifecycleEvent? && event.value.event.Duplicated?
                  && event.value.event.pid == task.pid && event.value.event.oldFd == call.fd
                  && Returned(result, event.value.event.newFd))
  {
    hide Observed, Low32, Returned;
    DuplicateArrives(task, call, since, result, now);
    if result >= 0 { LowBits(result); }
  }

  lemma DuplicateArrives(task: Task, call: Call, since: u64, result: i64, now: u64)
    requires call.DupFd? || call.Fcntl?
    ensures Observed(task, Pending(call, since, true), result, now)
         == if result < 0 then None
            else Some(App.LifecycleEvent(Attribution.Duplicated(task.pid, call.fd, Low32(result))))
  {
    var due := if result < 0 then None else Some(FdRecord(task.pid, task.tid, call.fd, Low32(result), now));
    assert Due(task, Pending(call, since, true), result, now) == due;
    ObservedMeans(task, Pending(call, since, true), result, now, due);
    hide Parse, Layout, Observed, Due, Low32;
  }

  /** Which calls are followed at all: everything but foreign calls, calls of other kinds and
      the other commands of `fcntl`. */
  lemma FollowedCalls(call: Call)
    ensures Followed(call)
       <==> || call.OpenAt? || call.Transfer? || call.CloseFd? || call.DupFd? || call.RangeFds?
            || (call.Fcntl? && (call.command == 0 || call.command == 1030))
  {
  }

  /** The end of a process reaches the aggregator as such. */
  lemma EndObserved(pid: u32, now: u64, exec: bool)
    ensures var record := ProcessRecord(if exec then EVENT_PROCESS_EXEC else EVENT_PROCESS_EXIT, pid, now);
            && Parse(Layout(record)).Some?
            && EventOf(Parse(Layout(record)).value)
               == App.LifecycleEvent(if exec then Attribution.Replaced(pid) else Attribution.Exited(pid))
  {
    ParseLayout(ProcessRecord(if exec then EVENT_PROCESS_EXEC else EVENT_PROCESS_EXIT, pid, now));
    hide Parse, Layout;
  }

  /** An opened file reaches resolution with the descriptor that was returned, and with its
      whole path or marked as incomplete. */
  lemma OpenObserved(task: Task, dirfd: i32, path: Option<Bytes>, since: u64, result: i64, now: u64)
    requires result >= 0 && (path.Some? ==> 0 !in path.value)
    ensures var event := Observed(task, Pending(OpenAt(dirfd, path), since, true), result, now);
            && event.Some? && event.value.LifecycleEvent? && event.value.event.Opened?
            && var call := event.value.event.call;
            && call.pid == task.pid && call.dirfd == dirfd
            && Returned(result, call.fd)
            && (call.flags == 0 <==> path.Some? && |path.value| <= 256)
            && (call.flags == 0 ==> call.path == path.value)
  {
    OpenParsed(task, Pending(OpenAt(dirfd, path), since, true), result, now);
    hide Parse, Layout, Due, Returned;
  }

  /** A path that the record could not carry is never attributed to a file: whatever procfs
      says, the descriptor stays unresolved. */
  lemma LongPathsUnresolved(task: Task, dirfd: i32, path: Option<Bytes>, since: u64, result: i64, now: u64,
                            proc: Resolve.Procfs, root: Attribution.ContainerRoot)
    requires result >= 0 && (path.Some? ==> 0 !in path.value && |path.value| > 256)
    ensures var event := Observed(task, Pending(OpenAt(dirfd, path), since, true), result, now);
            && event.Some? && event.value.LifecycleEvent? && event.value.event.Opened?
            && Resolve.ResolveOpen(proc, event.value.event.call, root).Unresolved?
  {
    OpenObserved(task, dirfd, path, since, result, now);
    hide Observed;
    var event := Observed(task, Pending(OpenAt(dirfd, path), since, true), result, now);
    Resolve.IncompletePathsUnresolved(proc, event.value.event.call, root);
  }
}
