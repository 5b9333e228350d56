/** System calls as the kernel side observes them (`ncda-ebpf/src/main.rs`): what is known
    at entry is stashed per thread and turned into a record at exit. */
module Capture {
  import opened Saturating
  import opened Records

  datatype Task = Task(pid: u32, tid: u32)

  /** A call as it is entered. A path is the C string in user memory, if it can be read. */
  datatype Call =
    | OpenAt(dirfd: i32, path: Option<Bytes>)
    | Transfer(kind: IoKind, fd: u32)
    | CloseFd(fd: u32)
    | DupFd(fd: u32)
    | Fcntl(fd: u32, command: u64)
    | RangeFds(first: u32, last: u32, flags: u32)
    | Compat
    | Other

  datatype IoKind = Reading | Writing

  /** The system call number, which is all that is known of the call at exit. */
  datatype Number =
    OpenNumber | IoNumber(kind: IoKind) | CloseNumber | DupNumber | FcntlNumber | RangeNumber | CompatNumber | OtherNumber

  function NumberOf(call: Call): Number {
    match call
    case OpenAt(_, _) => OpenNumber
    case Transfer(kind, _) => IoNumber(kind)
    case CloseFd(_) => CloseNumber
    case DupFd(_) => DupNumber
    case Fcntl(_, _) => FcntlNumber
    case RangeFds(_, _, _) => RangeNumber
    case Compat => CompatNumber
    case Other => OtherNumber
  }

  const F_DUPFD := 0
  const F_DUPFD_CLOEXEC := 1030

  predicate Duplicates(command: u64) { command == F_DUPFD || command == F_DUPFD_CLOEXEC }

  /** Calls that are followed from entry to exit. */
  predicate Followed(call: Call) {
    !call.Compat? && !call.Other? && (call.Fcntl? ==> Duplicates(call.command))
  }

  /** What the kernel lets a probe do: find its buffers, insert into a stash, write to the
      ring; and the time. */
  datatype Luck = Luck(scratch: bool, stash: bool, buffer: bool, ring: bool, now: u64)

  datatype CaptureStats = CaptureStats(
    ringDrops: u64, stashFailures: u64, scratchFailures: u64,
    readEntries: u64, writeEntries: u64, readExits: u64, writeExits: u64, compatIgnored: u64)

  const UNUSED := CaptureStats(0, 0, 0, 0, 0, 0, 0, 0)

  function RingDrop(s: CaptureStats): CaptureStats { s.(ringDrops := SatAdd(s.ringDrops, 1)) }

  function StashFailure(s: CaptureStats): CaptureStats { s.(stashFailures := SatAdd(s.stashFailures, 1)) }

  function ScratchFailure(s: CaptureStats): CaptureStats { s.(scratchFailures := SatAdd(s.scratchFailures, 1)) }

  function IoEntry(s: CaptureStats, kind: IoKind): CaptureStats {
    if kind.Reading? then s.(readEntries := SatAdd(s.readEntries, 1)) else s.(writeEntries := SatAdd(s.writeEntries, 1))
  }

  function IoExit(s: CaptureStats, kind: IoKind): CaptureStats {
    if kind.Reading? then s.(readExits := SatAdd(s.readExits, 1)) else s.(writeExits := SatAdd(s.writeExits, 1))
  }

  // --- The simple form: one pending call per thread ---

  /** A followed call in flight; `kept` if its arguments were stashed. */
  datatype Pending = Pending(call: Call, since: u64, kept: bool)

  datatype Delivery = Delivery(task: Task, record: Record)

  datatype Kernel = Kernel(pending: map<Task, Pending>, stats: CaptureStats, ring: seq<Delivery>)

  const START := Kernel(map[], UNUSED, [])

  /** Path bytes that fit into a record, padded with zeros. */
  function Padded(path: Bytes): (b: Bytes)
    requires |path| <= MAX_FNAME_LEN
    ensures |b| == MAX_FNAME_LEN && b[..|path|] == path && Zeros(b[|path|..])
  {
    path + seq(MAX_FNAME_LEN - |path|, i => 0)
  }

  function Captured(path: Option<Bytes>): Bytes {
    if path.None? then [] else path.value[..Min(|path.value|, MAX_FNAME_LEN)]
  }

  function PathFlags(path: Option<Bytes>): u16 {
    if path.None? then PATH_READ_FAILED else if |path.value| > MAX_FNAME_LEN then PATH_TRUNCATED else 0
  }

  function Low32(n: int): u32 { n % 0x1_0000_0000 }

  function KindNumber(kind: IoKind): u32 { if kind.Reading? then EVENT_READ else EVENT_WRITE }

  /** `EBADF`. */
  const EBADF := 9

  /** The record due when a call returns, if any. */
  function Due(task: Task, p: Pending, result: i64, now: u64): Option<Record> {
    var pid, tid := task.pid, task.tid;
    match p.call
    case OpenAt(dirfd, path) =>
      if result < 0 then None
      else
        Some(OpenRecord(pid, tid, Low32(result), |Captured(path)|, PathFlags(path), dirfd, now, Padded(Captured(path))))
    case Transfer(kind, fd) =>
      Some(IoRecord(KindNumber(kind), pid, tid, fd, result, (now - p.since) % (U64_MAX + 1), now))
    case CloseFd(fd) => if result == -EBADF then None else Some(IoRecord(EVENT_CLOSE, pid, tid, fd, result, 0, now))
    case RangeFds(first, last, flags) =>
      if result != 0 then None else Some(RangeRecord(pid, tid, first, last, flags, now))
    case DupFd(fd) => if result < 0 then None else Some(FdRecord(pid, tid, fd, Low32(result), now))
    case Fcntl(fd, _) => if result < 0 then None else Some(FdRecord(pid, tid, fd, Low32(result), now))
    case _ => None
  }

  function Output(k: Kernel, task: Task, record: Record, luck: Luck): Kernel {
    if luck.ring then k.(ring := k.ring + [Delivery(task, record)]) else k.(stats := RingDrop(k.stats))
  }

  predicate CanKeep(call: Call, luck: Luck) { luck.stash && (call.OpenAt? ==> luck.scratch) }

  function EntryStats(s: CaptureStats, call: Call, luck: Luck): CaptureStats {
    if call.Compat? then s.(compatIgnored := SatAdd(s.compatIgnored, 1))
    else if !Followed(call) then s
    else
      var counted := if call.Transfer? then IoEntry(s, call.kind) else s;
      if call.OpenAt? && !luck.scratch then ScratchFailure(counted)
      else if luck.stash then counted
      else StashFailure(counted)
  }

  function Entered(k: Kernel, task: Task, call: Call, luck: Luck): Kernel {
    k.(stats := EntryStats(k.stats, call, luck),
       pending := if Followed(call) then k.pending[task := Pending(call, luck.now, CanKeep(call, luck))] else k.pending)
  }

  function Left(k: Kernel, task: Task, result: i64, luck: Luck): Kernel {
    if task !in k.pending || !k.pending[task].kept then k.(pending := k.pending - {task})
    else
      var p := k.pending[task];
      var counted := if p.call.Transfer? then IoExit(k.stats, p.call.kind) else k.stats;
      var after := k.(pending := k.pending - {task}, stats := counted);
      var due := Due(task, p, result, luck.now);
      if due.None? then after
      else if p.call.OpenAt? && !luck.buffer then after.(stats := ScratchFailure(after.stats))
      else Output(after, task, due.value, luck)
  }

  function Ended(k: Kernel, task: Task, groupDead: bool, luck: Luck): Kernel {
    var after := k.(pending := k.pending - {task});
    if groupDead then Output(after, task, ProcessRecord(EVENT_PROCESS_EXIT, task.pid, luck.now), luck) else after
  }

  function GroupGone(k: Kernel, task: Task, groupDead: bool, luck: Luck): Kernel {
    if groupDead then Output(k, task, ProcessRecord(EVENT_PROCESS_EXIT, task.pid, luck.now), luck) else k
  }

  function Executed(k: Kernel, task: Task, luck: Luck): Kernel {
    if task.pid == task.tid then Output(k, task, ProcessRecord(EVENT_PROCESS_EXEC, task.pid, luck.now), luck) else k
  }

  // --- The program: five stashes and shared buffers ---

  datatype OpenArgs = OpenArgs(fname: Bytes, length: u16, flags: u16, dirfd: i32)

  datatype RwArgs = RwArgs(since: u64, fd: u32, kind: IoKind)

  datatype RangeArgs = RangeArgs(first: u32, last: u32, flags: u32)

  ghost predicate Holds(a: OpenArgs, call: Call) {
    && call.OpenAt? && a.dirfd == call.dirfd && a.flags == PathFlags(call.path)
    && a.length == |Captured(call.path)| <= |a.fname| && a.fname[..a.length] == Captured(call.path)
  }

  datatype Stashes = Stashes(
    open: map<Task, OpenArgs>,
    io: map<Task, RwArgs>,
    close: map<Task, u32>,
    dup: map<Task, u32>,
    range: map<Task, RangeArgs>)

  function At<K(==), V>(m: map<K, V>, k: K): Option<V> { if k in m then Some(m[k]) else None }

  /** Everything stashed for one thread. */
  datatype Slots = Slots(
    open: Option<OpenArgs>, io: Option<RwArgs>, close: Option<u32>, dup: Option<u32>, range: Option<RangeArgs>)

  const EMPTY := Slots(None, None, None, None, None)

  function SlotsOf(s: Stashes, t: Task): Slots {
    Slots(At(s.open, t), At(s.io, t), At(s.close, t), At(s.dup, t), At(s.range, t))
  }

  /** A thread has one stash entry if its pending call was kept, the one of that call, and
      none otherwise. */
  ghost predicate Matches(slots: Slots, p: Option<Pending>) {
    if p.None? || !p.value.kept then slots == EMPTY
    else
      match p.value.call
      case OpenAt(_, _) => slots.open.Some? && Holds(slots.open.value, p.value.call) && slots == EMPTY.(open := slots.open)
      case Transfer(kind, fd) => slots == EMPTY.(io := Some(RwArgs(p.value.since, fd, kind)))
      case CloseFd(fd) => slots == EMPTY.(close := Some(fd))
      case DupFd(fd) => slots == EMPTY.(dup := Some(fd))
      case Fcntl(fd, _) => slots == EMPTY.(dup := Some(fd))
      case RangeFds(first, last, flags) => slots == EMPTY.(range := Some(RangeArgs(first, last, flags)))
      case _ => false
  }

  ghost predicate Correlated(s: Stashes, pending: map<Task, Pending>) {
    && (forall t :: Matches(SlotsOf(s, t), At(pending, t)))
    && (forall t :: t in pending ==> Followed(pending[t].call))
  }

  lemma OneThread(s: Stashes, pending: map<Task, Pending>, s': Stashes, pending': map<Task, Pending>, task: Task)
    requires Correlated(s, pending)
    requires forall t :: t != task ==> SlotsOf(s', t) == SlotsOf(s, t) && At(pending', t) == At(pending, t)
    requires Matches(SlotsOf(s', task), At(pending', task))
    requires task in pending' ==> Followed(pending'[task].call)
    ensures Correlated(s', pending')
  {
    hide Matches;
    forall t | t in pending'
      ensures Followed(pending'[t].call)
    {
      if t != task { assert At(pending', t) == At(pending, t) && At(pending, t).Some?; }
    }
  }

  lemma SlotsAt(s: Stashes, pending: map<Task, Pending>, task: Task)
    requires Correlated(s, pending)
    ensures Matches(SlotsOf(s, task), At(pending, task))
    ensures task in pending ==> Followed(pending[task].call)
  {
  }

  lemma NoSlots(s: Stashes, task: Task, p: Option<Pending>)
    requires Matches(SlotsOf(s, task), p) && p.None?
    ensures SlotsOf(s, task) == EMPTY
  {
  }

  lemma Unkept(slots: Slots, p: Pending)
    requires slots == EMPTY && !p.kept
    ensures Matches(slots, Some(p))
  {
  }

  lemma OpenSlot(args: OpenArgs, p: Pending)
    requires p.kept && Holds(args, p.call)
    ensures Matches(EMPTY.(open := Some(args)), Some(p))
  {
  }

  class Probes {
    var openStash: map<Task, OpenArgs>
    var ioStash: map<Task, RwArgs>
    var closeStash: map<Task, u32>
    var dupStash: map<Task, u32>
    var rangeStash: map<Task, RangeArgs>
    const scratch: array<u8>
    const eventName: array<u8>
    var stats: CaptureStats
    var ring: seq<Delivery>
    ghost var pending: map<Task, Pending>

    ghost function Stashed(): Stashes
      reads this
    {
      Stashes(openStash, ioStash, closeStash, dupStash, rangeStash)
    }

    ghost predicate Buffered() {
      scratch.Length == PROBE_FNAME_LEN && eventName.Length == MAX_FNAME_LEN && scratch != eventName
    }

    ghost predicate Valid()
      reads this
    {
      Buffered() && Correlated(Stashed(), pending)
    }

    ghost function State(): Kernel
      reads this
    {
      Kernel(pending, stats, ring)
    }

    constructor ()
      ensures Valid() && State() == START && fresh(scratch) && fresh(eventName)
    {
      openStash, ioStash, closeStash, dupStash, rangeStash := map[], map[], map[], map[], map[];
      scratch := new u8[PROBE_FNAME_LEN];
      eventName := new u8[MAX_FNAME_LEN];
      stats, ring, pending := UNUSED, [], map[];
    }

    /** `bpf_probe_read_user_str_bytes`: as much of the string as fits before the final zero;
        what the buffer held beyond it stays. */
    method ProbeRead(path: Bytes) returns (length: nat)
      requires scratch.Length == PROBE_FNAME_LEN
      modifies scratch
      ensures length == Min(|path|, PROBE_FNAME_LEN - 1) && scratch[..length] == path[..length]
    {
      length := Min(|path|, PROBE_FNAME_LEN - 1);
      for i := 0 to length
        invariant scratch[..i] == path[..i]
      {
        scratch[i] := path[i];
      }
      scratch[length] := 0;
    }

    method EnterOpen(task: Task, dirfd: i32, path: Option<Bytes>, luck: Luck)
      requires Valid() && task !in pending
      modifies this, scratch
      ensures Valid() && State() == Entered(old(State()), task, OpenAt(dirfd, path), luck)
    {
      hide Correlated, Matches;
      var call := OpenAt(dirfd, path);
      ghost var before := Stashed();
      SlotsAt(before, pending, task);
      NoSlots(before, task, At(pending, task));
      pending := pending[task := Pending(call, luck.now, CanKeep(call, luck))];
      if !luck.scratch {
        Unkept(SlotsOf(before, task), pending[task]);
        OneThread(before, old(pending), Stashed(), pending, task);
        stats := ScratchFailure(stats);
        return;
      }
      var args := ReadPath(dirfd, path);
      if luck.stash {
        openStash := openStash[task := args];
        OpenSlot(args, pending[task]);
      } else {
        stats := StashFailure(stats);
        Unkept(SlotsOf(before, task), pending[task]);
      }
      OneThread(before, old(pending), Stashed(), pending, task);
    }

    /** The scratch half of `enter_open`. */
    method ReadPath(dirfd: i32, path: Option<Bytes>) returns (args: OpenArgs)
      requires Buffered()
      modifies scratch
      ensures Holds(args, OpenAt(dirfd, path))
    {
      var length, flags := 0, 0;
      if path.Some? {
        length := ProbeRead(path.value);
        if length > MAX_FNAME_LEN {
          flags := PATH_TRUNCATED;
        }
        assert scratch[..][..Min(length, MAX_FNAME_LEN)] == scratch[..length][..Min(length, MAX_FNAME_LEN)];
        length := Min(length, MAX_FNAME_LEN);
      } else {
        flags := PATH_READ_FAILED;
      }
      args := OpenArgs(scratch[..], length, flags, dirfd);
    }

    method EnterIo(task: Task, kind: IoKind, fd: u32, luck: Luck)
      requires Valid() && task !in pending
      modifies this
      ensures Valid() && State() == Entered(old(State()), task, Transfer(kind, fd), luck)
    {
      hide Correlated;
      ghost var before := Stashed();
      SlotsAt(before, pending, task);
      pending := pending[task := Pending(Transfer(kind, fd), luck.now, luck.stash)];
      stats := IoEntry(stats, kind);
      if luck.stash {
        ioStash := ioStash[task := RwArgs(luck.now, fd, kind)];
      } else {
        stats := StashFailure(stats);
      }
      OneThread(before, old(pending), Stashed(), pending, task);
    }

    method EnterClose(task: Task, fd: u32, luck: Luck)
      requires Valid() && task !in pending
      modifies this
      ensures Valid() && State() == Entered(old(State()), task, CloseFd(fd), luck)
    {
      hide Correlated;
      ghost var before := Stashed();
      SlotsAt(before, pending, task);
      pending := pending[task := Pending(CloseFd(fd), luck.now, luck.stash)];
      if luck.stash {
        closeStash := closeStash[task := fd];
      } else {
        stats := StashFailure(stats);
      }
      OneThread(before, old(pending), Stashed(), pending, task);
    }

    method EnterDup(task: Task, call: Call, luck: Luck)
      requires Valid() && task !in pending && (call.DupFd? || call.Fcntl?) && Followed(call)
      modifies this
      ensures Valid() && State() == Entered(old(State()), task, call, luck)
    {
      hide Correlated;
      ghost var before := Stashed();
      SlotsAt(before, pending, task);
      pending := pending[task := Pending(call, luck.now, luck.stash)];
      if luck.stash {
        dupStash := dupStash[task := call.fd];
      } else {
        stats := StashFailure(stats);
      }
      OneThread(before, old(pending), Stashed(), pending, task);
    }

    method EnterCloseRange(task: Task, first: u32, last: u32, flags: u32, luck: Luck)
      requires Valid() && task !in pending
      modifies this
      ensures Valid() && State() == Entered(old(State()), task, RangeFds(first, last, flags), luck)
    {
      hide Correlated;
      ghost var before := Stashed();
      SlotsAt(before, pending, task);
      pending := pending[task := Pending(RangeFds(first, last, flags), luck.now, luck.stash)];
      if luck.stash {
        rangeStash := rangeStash[task := RangeArgs(first, last, flags)];
      } else {
        stats := StashFailure(stats);
      }
      OneThread(before, old(pending), Stashed(), pending, task);
    }

    method SysEnter(task: Task, call: Call, luck: Luck)
      requires Valid() && (Followed(call) ==> task !in pending)
      modifies this, scratch
      ensures Valid() && State() == Entered(old(State()), task, call, luck)
    {
      hide Valid;
      match call
      case Compat => IgnoreCompat();
      case OpenAt(dirfd, path) => EnterOpen(task, dirfd, path, luck);
      case Transfer(kind, fd) => EnterIo(task, kind, fd, luck);
      case CloseFd(fd) => EnterClose(task, fd, luck);
      case DupFd(_) => EnterDup(task, call, luck);
      case Fcntl(_, command) => if Duplicates(command) { EnterDup(task, call, luck); }
      case RangeFds(first, last, flags) => EnterCloseRange(task, first, last, flags, luck);
      case Other =>
    }

    method IgnoreCompat()
      requires Valid()
      modifies `stats
      ensures Valid() && stats == old(stats).(compatIgnored := SatAdd(old(stats).compatIgnored, 1))
    {
      stats := stats.(compatIgnored := SatAdd(stats.compatIgnored, 1));
    }

    // --- Exits ---

    method Deliver(task: Task, record: Record, luck: Luck)
      modifies `stats, `ring
      ensures State() == Output(old(State()), task, record, luck)
    {
      if luck.ring {
        ring := ring + [Delivery(task, record)];
      } else {
        stats := RingDrop(stats);
      }
    }

    /** Copies the path into the shared event buffer and clears what earlier events left. */
    method CopyName(args: OpenArgs)
      requires Buffered() && args.length <= |args.fname| && args.length <= MAX_FNAME_LEN
      modifies eventName
      ensures eventName[..] == Padded(args.fname[..args.length])
    {
      for index := 0 to MAX_FNAME_LEN
        invariant forall i :: 0 <= i < index ==> eventName[i] == if i < args.length then args.fname[i] else 0
      {
        eventName[index] := if index < args.length then args.fname[index] else 0;
      }
    }

    method ExitOpen(task: Task, result: i64, args: OpenArgs, luck: Luck, ghost p: Pending)
      requires Buffered() && Holds(args, p.call)
      modifies `stats, `ring, eventName
      ensures var due := Due(task, p, result, luck.now);
              State() == if due.None? then old(State())
                         else if !luck.buffer then old(State()).(stats := ScratchFailure(old(stats)))
                         else Output(old(State()), task, due.value, luck)
    {
      hide Padded;
      if result < 0 {
        return;
      }
      if !luck.buffer {
        stats := ScratchFailure(stats);
        return;
      }
      CopyName(args);
      Deliver(task, OpenRecord(task.pid, task.tid, Low32(result), args.length, args.flags, args.dirfd, luck.now,
                               eventName[..]), luck);
    }

    method ExitIo(task: Task, result: i64, args: RwArgs, luck: Luck)
      modifies `stats, `ring
      ensures var counted := old(State()).(stats := IoExit(old(stats), args.kind));
              State() == Output(counted, task,
                                Due(task, Pending(Transfer(args.kind, args.fd), args.since, true), result, luck.now).value,
                                luck)
    {
      stats := IoExit(stats, args.kind);
      Deliver(task, IoRecord(KindNumber(args.kind), task.pid, task.tid, args.fd, result,
                             (luck.now - args.since) % (U64_MAX + 1), luck.now), luck);
    }

    method ExitClose(task: Task, result: i64, fd: u32, luck: Luck)
      modifies `stats, `ring
      ensures State() == if result == -EBADF then old(State())
                         else Output(old(State()), task,
                                     IoRecord(EVENT_CLOSE, task.pid, task.tid, fd, result, 0, luck.now), luck)
    {
      if result == -EBADF {
        return;
      }
      Deliver(task, IoRecord(EVENT_CLOSE, task.pid, task.tid, fd, result, 0, luck.now), luck);
    }

    method ExitDup(task: Task, result: i64, oldFd: u32, luck: Luck)
      modifies `stats, `ring
      ensures State() == if result < 0 then old(State())
                         else Output(old(State()), task,
                                     FdRecord(task.pid, task.tid, oldFd, Low32(result), luck.now), luck)
    {
      if result < 0 {
        return;
      }
      Deliver(task, FdRecord(task.pid, task.tid, oldFd, Low32(result), luck.now), luck);
    }

    method ExitCloseRange(task: Task, result: i64, args: RangeArgs, luck: Luck)
      modifies `stats, `ring
      ensures State() == if result != 0 then old(State())
                         else Output(old(State()), task,
                                     RangeRecord(task.pid, task.tid, args.first, args.last, args.flags, luck.now), luck)
    {
      if result != 0 {
        return;
      }
      Deliver(task, RangeRecord(task.pid, task.tid, args.first, args.last, args.flags, luck.now), luck);
    }

    method LeaveOpen(task: Task, result: i64, luck: Luck)
      requires Valid() && (task in pending ==> NumberOf(pending[task].call).OpenNumber?)
      modifies this, eventName
      ensures Valid() && State() == Left(old(State()), task, result, luck)
    {
      hide Correlated, Holds;
      ghost var before, was := Stashed(), pending;
      SlotsAt(before, pending, task);
      pending := pending - {task};
      if task in openStash {
        ExitOpen(task, result, openStash[task], luck, was[task]);
        openStash := openStash - {task};
      }
      OneThread(before, was, Stashed(), pending, task);
    }

    method LeaveIo(task: Task, result: i64, luck: Luck)
      requires Valid() && (task in pending ==> NumberOf(pending[task].call).IoNumber?)
      modifies this
      ensures Valid() && State() == Left(old(State()), task, result, luck)
    {
      hide Correlated, Holds;
      ghost var before, was := Stashed(), pending;
      SlotsAt(before, pending, task);
      pending := pending - {task};
      if task in ioStash {
        var args := ioStash[task];
        ioStash := ioStash - {task};
        ExitIo(task, result, args, luck);
      }
      OneThread(before, was, Stashed(), pending, task);
    }

    method LeaveClose(task: Task, result: i64, luck: Luck)
      requires Valid() && (task in pending ==> NumberOf(pending[task].call).CloseNumber?)
      modifies this
      ensures Valid() && State() == Left(old(State()), task, result, luck)
    {
      hide Correlated, Holds;
      ghost var before, was := Stashed(), pending;
      SlotsAt(before, pending, task);
      pending := pending - {task};
      if task in closeStash {
        var fd := closeStash[task];
        closeStash := closeStash - {task};
        ExitClose(task, result, fd, luck);
      }
      OneThread(before, was, Stashed(), pending, task);
    }

    method LeaveDup(task: Task, result: i64, luck: Luck)
      requires Valid() && (task in pending ==> NumberOf(pending[task].call).DupNumber? || NumberOf(pending[task].call).FcntlNumber?)
      modifies this
      ensures Valid() && State() == Left(old(State()), task, result, luck)
    {
      hide Correlated, Holds;
      ghost var before, was := Stashed(), pending;
      SlotsAt(before, pending, task);
      pending := pending - {task};
      if task in dupStash {
        var oldFd := dupStash[task];
        dupStash := dupStash - {task};
        ExitDup(task, result, oldFd, luck);
      }
      OneThread(before, was, Stashed(), pending, task);
    }

    method LeaveCloseRange(task: Task, result: i64, luck: Luck)
      requires Valid() && (task in pending ==> NumberOf(pending[task].call).RangeNumber?)
      modifies this
      ensures Valid() && State() == Left(old(State()), task, result, luck)
    {
      hide Correlated, Holds;
      ghost var before, was := Stashed(), pending;
      SlotsAt(before, pending, task);
      pending := pending - {task};
      if task in rangeStash {
        var args := rangeStash[task];
        rangeStash := rangeStash - {task};
        ExitCloseRange(task, result, args, luck);
      }
      OneThread(before, was, Stashed(), pending, task);
    }

    /** The exit of a call: the number alone decides which stash is looked at. */
    method SysExit(task: Task, number: Number, result: i64, luck: Luck)
      requires Valid() && (task in pending ==> NumberOf(pending[task].call) == number)
      modifies this, eventName
      ensures Valid() && State() == Left(old(State()), task, result, luck)
    {
      match number
      case OpenNumber => LeaveOpen(task, result, luck);
      case IoNumber(_) => LeaveIo(task, result, luck);
      case CloseNumber => LeaveClose(task, result, luck);
      case DupNumber => LeaveDup(task, result, luck);
      case FcntlNumber => LeaveDup(task, result, luck);
      case RangeNumber => LeaveCloseRange(task, result, luck);
      case _ =>
        SlotsAt(Stashed(), pending, task);
        assert pending - {task} == pending;
    }

    /** `clear_stashes`. */
    method ClearStashes(task: Task)
      requires Valid()
      modifies `openStash, `ioStash, `closeStash, `dupStash, `rangeStash, `pending
      ensures Valid() && State() == old(State()).(pending := old(pending) - {task})
    {
      hide Correlated;
      ghost var before, was := Stashed(), pending;
      pending := pending - {task};
      openStash := openStash - {task};
      ioStash := ioStash - {task};
      closeStash := closeStash - {task};
      dupStash := dupStash - {task};
      rangeStash := rangeStash - {task};
      OneThread(before, was, Stashed(), pending, task);
    }

    /** `sched_process_exit_group`; the legacy hook never sees a dead group. */
    method TaskExit(task: Task, groupDead: bool, luck: Luck)
      requires Valid()
      modifies this
      ensures Valid() && State() == Ended(old(State()), task, groupDead, luck)
    {
      ClearStashes(task);
      hide Correlated;
      if groupDead {
        Deliver(task, ProcessRecord(EVENT_PROCESS_EXIT, task.pid, luck.now), luck);
      }
    }

    /** `taskstats_process_exit`, the companion of the legacy hook. */
    method TaskstatsExit(task: Task, groupDead: bool, luck: Luck)
      requires Valid()
      modifies `stats, `ring
      ensures Valid() && State() == GroupGone(old(State()), task, groupDead, luck)
    {
      hide Correlated;
      if groupDead {
        Deliver(task, ProcessRecord(EVENT_PROCESS_EXIT, task.pid, luck.now), luck);
      }
    }

    /** Only the leader of a process reports its exec. */
    method ProcessExec(task: Task, luck: Luck)
      requires Valid()
      modifies `stats, `ring
      ensures Valid() && State() == Executed(old(State()), task, luck)
    {
      hide Correlated;
      if task.pid == task.tid {
        Deliver(task, ProcessRecord(EVENT_PROCESS_EXEC, task.pid, luck.now), luck);
      }
    }
  }
}
