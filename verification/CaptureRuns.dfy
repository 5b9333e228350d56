/** Whole runs of the kernel side: threads do not disturb each other, every record tells of
    its own call, and every call is accounted for. */
module CaptureRuns {
  import opened Saturating
  import opened Records
  import opened Capture

  datatype Step =
    | Enter(task: Task, call: Call, luck: Luck)
    | Exit(task: Task, result: i64, luck: Luck)
    | Die(task: Task, groupDead: bool, luck: Luck)
    | Gone(task: Task, groupDead: bool, luck: Luck)
    | Exec(task: Task, luck: Luck)

  function Stepped(k: Kernel, step: Step): Kernel {
    match step
    case Enter(task, call, luck) => Entered(k, task, call, luck)
    case Exit(task, result, luck) => Left(k, task, result, luck)
    case Die(task, groupDead, luck) => Ended(k, task, groupDead, luck)
    case Gone(task, groupDead, luck) => GroupGone(k, task, groupDead, luck)
    case Exec(task, luck) => Executed(k, task, luck)
  }

  function Replay(run: seq<Step>): Kernel {
    if run == [] then START else Stepped(Replay(run[..|run| - 1]), run[|run| - 1])
  }

  // --- Threads do not disturb each other ---

  /** The steps of one thread. */
  function Only(run: seq<Step>, task: Task): seq<Step> {
    if run == [] then []
    else Only(run[..|run| - 1], task) + if run[|run| - 1].task == task then [run[|run| - 1]] else []
  }

  function Delivered(ring: seq<Delivery>, task: Task): seq<Delivery> {
    if ring == [] then []
    else Delivered(ring[..|ring| - 1], task) + if ring[|ring| - 1].task == task then [ring[|ring| - 1]] else []
  }

  lemma DeliveredNext(ring: seq<Delivery>, d: Delivery, task: Task)
    ensures Delivered(ring + [d], task) == Delivered(ring, task) + if d.task == task then [d] else []
  {
    assert (ring + [d])[..|ring|] == ring;
  }

  /** What one thread can notice of the state. */
  ghost predicate SameFor(k: Kernel, own: Kernel, task: Task) {
    At(k.pending, task) == At(own.pending, task) && Delivered(k.ring, task) == own.ring
  }

  /** What a step adds to the ring. */
  function Added(k: Kernel, step: Step): seq<Delivery> {
    match step
    case Enter(_, _, _) => []
    case Exit(task, result, luck) =>
      if task !in k.pending || !k.pending[task].kept || !luck.ring then []
      else
        var due := Due(task, k.pending[task], result, luck.now);
        if due.None? || (k.pending[task].call.OpenAt? && !luck.buffer) then [] else [Delivery(task, due.value)]
    case Die(task, groupDead, luck) =>
      if groupDead && luck.ring then [Delivery(task, ProcessRecord(EVENT_PROCESS_EXIT, task.pid, luck.now))] else []
    case Gone(task, groupDead, luck) =>
      if groupDead && luck.ring then [Delivery(task, ProcessRecord(EVENT_PROCESS_EXIT, task.pid, luck.now))] else []
    case Exec(task, luck) =>
      if task.pid == task.tid && luck.ring
      then [Delivery(task, ProcessRecord(EVENT_PROCESS_EXEC, task.pid, luck.now))]
      else []
  }

  /** The pending call of a thread after one of its steps. */
  function Follows(p: Option<Pending>, step: Step): Option<Pending> {
    match step
    case Enter(_, call, luck) => if Followed(call) then Some(Pending(call, luck.now, CanKeep(call, luck))) else p
    case Exit(_, _, _) => None
    case Die(_, _, _) => None
    case _ => p
  }

  lemma StepParts(k: Kernel, step: Step)
    ensures Stepped(k, step).ring == k.ring + Added(k, step)
    ensures forall t :: At(Stepped(k, step).pending, t)
              == if t == step.task then Follows(At(k.pending, t), step) else At(k.pending, t)
  {
    hide Due, EntryStats;
  }

  lemma AddedOwn(k: Kernel, own: Kernel, step: Step)
    requires At(k.pending, step.task) == At(own.pending, step.task)
    ensures Added(k, step) == Added(own, step)
    ensures |Added(k, step)| <= 1 && forall d :: d in Added(k, step) ==> d.task == step.task
  {
    hide Due;
  }

  /** Whatever other threads do in between, a thread's pending call and the records it
      delivers are those of its own steps. */
  lemma {:induction false} ThreadsApart(run: seq<Step>, task: Task)
    ensures SameFor(Replay(run), Replay(Only(run, task)), task)
    decreases |run|
  {
    hide Stepped, Added, Follows;
    if run != [] {
      var rest, step := run[..|run| - 1], run[|run| - 1];
      var k, own := Replay(rest), Replay(Only(rest, task));
      ThreadsApart(rest, task);
      StepParts(k, step);
      AddedOwn(k, k, step);
      if step.task == task {
        assert (Only(rest, task) + [step])[..|Only(rest, task)|] == Only(rest, task);
        StepParts(own, step);
        AddedOwn(k, own, step);
      } else {
        assert Only(run, task) == Only(rest, task);
      }
      if Added(k, step) == [] {
        assert k.ring + [] == k.ring && own.ring + [] == own.ring;
      } else {
        DeliveredNext(k.ring, Added(k, step)[0], task);
        assert Added(k, step) == [Added(k, step)[0]];
      }
    }
  }

  // --- Every record tells of its own call ---

  /** The call that a thread is in: its last entry, unless it has left or died since. */
  function InCall(run: seq<Step>, task: Task): Option<Pending> {
    if run == [] then None
    else if run[|run| - 1].task == task then Follows(InCall(run[..|run| - 1], task), run[|run| - 1])
    else InCall(run[..|run| - 1], task)
  }

  lemma {:induction false} PendingIsInCall(run: seq<Step>, task: Task)
    ensures At(Replay(run).pending, task) == InCall(run, task)
    decreases |run|
  {
    hide Stepped, Added, Follows;
    if run != [] {
      PendingIsInCall(run[..|run| - 1], task);
      StepParts(Replay(run[..|run| - 1]), run[|run| - 1]);
    }
  }

  /** A thread enters calls one at a time. */
  ghost predicate Alternates(run: seq<Step>) {
    forall i :: 0 <= i < |run| && run[i].Enter? && Followed(run[i].call) ==> InCall(run[..i], run[i].task) == None
  }

  /** Paths are C strings. */
  ghost predicate ZeroFree(run: seq<Step>) {
    forall i :: 0 <= i < |run| && run[i].Enter? && run[i].call.OpenAt? && run[i].call.path.Some?
      ==> 0 !in run[i].call.path.value
  }

  ghost predicate Plain(p: Pending) {
    p.call.OpenAt? && p.call.path.Some? ==> 0 !in p.call.path.value
  }

  lemma {:induction false} InCallPlain(run: seq<Step>, task: Task)
    requires ZeroFree(run)
    ensures InCall(run, task).Some? ==> Plain(InCall(run, task).value)
    decreases |run|
  {
    if run != [] {
      var rest := run[..|run| - 1];
      assert forall i :: 0 <= i < |rest| ==> rest[i] == run[i];
      InCallPlain(rest, task);
    }
  }

  lemma DueWellFormed(task: Task, p: Pending, result: i64, now: u64)
    requires Plain(p)
    ensures Due(task, p, result, now).Some? ==> WellFormed(Due(task, p, result, now).value)
  {
    hide Zeros;
  }

  /** Every record in the ring is accepted by the parser. */
  lemma {:induction false} RingWellFormed(run: seq<Step>)
    requires ZeroFree(run)
    ensures forall i :: 0 <= i < |Replay(run).ring| ==> WellFormed(Replay(run).ring[i].record)
    decreases |run|
  {
    if run != [] {
      var rest, step := run[..|run| - 1], run[|run| - 1];
      assert forall i :: 0 <= i < |rest| ==> rest[i] == run[i];
      RingWellFormed(rest);
      StepParts(Replay(rest), step);
      PendingIsInCall(rest, step.task);
      InCallPlain(rest, step.task);
      if step.Exit? && InCall(rest, step.task).Some? {
        DueWellFormed(step.task, InCall(rest, step.task).value, step.result, step.luck.now);
      }
      hide WellFormed, Due, Replay, Stepped, InCall, Plain;
      AddedWellFormed(Replay(rest), step);
    }
  }

  lemma AddedWellFormed(k: Kernel, step: Step)
    requires step.Exit? && step.task in k.pending ==>
               var due := Due(step.task, k.pending[step.task], step.result, step.luck.now);
               due.Some? ==> WellFormed(due.value)
    ensures forall d :: d in Added(k, step) ==> WellFormed(d.record)
  {
    hide Due;
  }

  /** A descriptor that was returned, cast to 32 bits: all that fit survive. */
  ghost predicate Returned(result: int, fd: u32) {
    (0 <= result <= 0xFFFF_FFFF ==> fd == result) && (result - fd) % 0x1_0000_0000 == 0
  }

  lemma LowBits(n: nat)
    ensures Returned(n, Low32(n))
  {
  }

  /** What the parser makes of an opened file: the first 256 bytes of its path, marked as
      truncated exactly when there are more. */
  lemma OpenParsed(task: Task, p: Pending, result: i64, now: u64)
    requires p.call.OpenAt? && Plain(p) && result >= 0
    ensures var due, path := Due(task, p, result, now), p.call.path;
            && due.Some?
            && var event := Parse(Layout(due.value));
            && event.Some? && event.value.Open?
            && event.value.path == (if path.None? then [] else path.value[..Min(|path.value|, 256)])
            && event.value.pathFlags == (if path.None? then 2 else if |path.value| > 256 then 1 else 0)
            && event.value.pid == task.pid && event.value.tid == task.tid
            && event.value.dirfd == p.call.dirfd && event.value.emitted == now
            && Returned(result, event.value.fd)
  {
    var due := Due(task, p, result, now);
    DueWellFormed(task, p, result, now);
    ParseLayout(due.value);
    LowBits(result);
    hide Parse, Layout, WellFormed, Low32, Zeros, Returned;
  }

  // --- Every call and every record is accounted for ---

  /** What became of the reads, or the writes, of a run, and of all records due. */
  datatype Flow = Flow(entered: nat, finished: nat, failed: nat, cleared: nat)

  predicate Carries(k: Kernel, task: Task, kind: IoKind) {
    task in k.pending && k.pending[task].kept && k.pending[task].call.Transfer? && k.pending[task].call.kind == kind
  }

  function FlowOf(run: seq<Step>, kind: IoKind): Flow {
    if run == [] then Flow(0, 0, 0, 0)
    else
      var step, k, f := run[|run| - 1], Replay(run[..|run| - 1]), FlowOf(run[..|run| - 1], kind);
      match step
      case Enter(_, call, luck) =>
        if call.Transfer? && call.kind == kind
        then f.(entered := f.entered + 1, failed := f.failed + if luck.stash then 0 else 1)
        else f
      case Exit(task, _, _) => if Carries(k, task, kind) then f.(finished := f.finished + 1) else f
      case Die(task, _, _) => if Carries(k, task, kind) then f.(cleared := f.cleared + 1) else f
      case _ => f
  }

  /** The threads with a stashed read or write in flight. */
  function InFlight(k: Kernel, kind: IoKind): set<Task> { set t | t in k.pending && Carries(k, t, kind) }

  lemma AlternatesRest(run: seq<Step>)
    requires Alternates(run) && run != []
    ensures Alternates(run[..|run| - 1])
    ensures var step := run[|run| - 1];
            step.Enter? && Followed(step.call) ==> step.task !in Replay(run[..|run| - 1]).pending
  {
    var rest, step := run[..|run| - 1], run[|run| - 1];
    forall i | 0 <= i < |rest|
      ensures rest[i] == run[i] && rest[..i] == run[..i]
    {
    }
    PendingIsInCall(rest, step.task);
    hide InCall, Replay;
    assert run[..|run| - 1] == rest;
  }

  lemma CarriesAfter(k: Kernel, step: Step, kind: IoKind, t: Task)
    requires step.Enter? && Followed(step.call) ==> step.task !in k.pending
    ensures var now := Stepped(k, step);
            && (t != step.task ==> Carries(now, t, kind) == Carries(k, t, kind))
            && (step.Enter? && Followed(step.call) ==> !Carries(k, step.task, kind))
            && (step.Enter? && Followed(step.call) ==>
                  Carries(now, step.task, kind) == (step.call.Transfer? && step.call.kind == kind && step.luck.stash))
            && (step.Enter? && !Followed(step.call) ==> Carries(now, step.task, kind) == Carries(k, step.task, kind))
            && (step.Exit? || step.Die? ==> !Carries(now, step.task, kind))
            && (step.Gone? || step.Exec? ==> Carries(now, step.task, kind) == Carries(k, step.task, kind))
  {
    StepParts(k, step);
    hide Stepped;
    var now := Stepped(k, step);
    assert At(now.pending, t) == (if t == step.task then Follows(At(k.pending, t), step) else At(k.pending, t));
    assert At(now.pending, step.task) == Follows(At(k.pending, step.task), step);
  }

  lemma InFlightAfter(k: Kernel, step: Step, kind: IoKind)
    requires step.Enter? && Followed(step.call) ==> step.task !in k.pending
    ensures |InFlight(Stepped(k, step), kind)| == |InFlight(k, kind)|
              + (if Carries(Stepped(k, step), step.task, kind) then 1 else 0)
              - (if Carries(k, step.task, kind) then 1 else 0)
  {
    var before, after, t := InFlight(k, kind), InFlight(Stepped(k, step), kind), step.task;
    forall u { CarriesAfter(k, step, kind, u); }
    hide Stepped;
    assert before - {t} == after - {t} by {
      forall u
        ensures u in before - {t} <==> u in after - {t}
      {
        CarriesAfter(k, step, kind, u);
      }
    }
    WithAndWithout(before, t);
    WithAndWithout(after, t);
  }

  lemma WithAndWithout<T>(s: set<T>, t: T)
    ensures |s| == |s - {t}| + if t in s then 1 else 0
  {
    if t in s { assert s == s - {t} + {t}; } else { assert s == s - {t}; }
  }

  /** Entries are exits, calls in flight, failed inserts and calls cut short by thread death. */
  lemma {:induction false} EntriesAccounted(run: seq<Step>, kind: IoKind)
    requires Alternates(run)
    ensures var f := FlowOf(run, kind);
            f.entered == f.finished + f.failed + f.cleared + |InFlight(Replay(run), kind)|
    decreases |run|
  {
    hide Stepped, Carries, InFlight, Alternates;
    if run == [] {
      NothingInFlight(kind);
    } else {
      var rest, step := run[..|run| - 1], run[|run| - 1];
      AlternatesRest(run);
      EntriesAccounted(rest, kind);
      InFlightAfter(Replay(rest), step, kind);
      CarriesAfter(Replay(rest), step, kind, step.task);
    }
  }

  lemma NothingInFlight(kind: IoKind)
    ensures InFlight(START, kind) == {}
  {
  }

  /** The counters that user space reads are these counts, saturated. */
  lemma {:induction false} CountersCount(run: seq<Step>)
    ensures var s, r, w := Replay(run).stats, FlowOf(run, Reading), FlowOf(run, Writing);
            && s.readEntries == Min(r.entered, U64_MAX) && s.readExits == Min(r.finished, U64_MAX)
            && s.writeEntries == Min(w.entered, U64_MAX) && s.writeExits == Min(w.finished, U64_MAX)
    decreases |run|
  {
    if run != [] {
      var rest, step := run[..|run| - 1], run[|run| - 1];
      CountersCount(rest);
      IoCounters(Replay(rest), step);
      hide Stepped;
    }
  }

  lemma IoCounters(k: Kernel, step: Step)
    ensures var s, now := k.stats, Stepped(k, step).stats;
            var entry, exit := step.Enter? && step.call.Transfer?, step.Exit?;
            && now.readEntries == SatAdd(s.readEntries, if entry && step.call.kind.Reading? then 1 else 0)
            && now.writeEntries == SatAdd(s.writeEntries, if entry && step.call.kind.Writing? then 1 else 0)
            && now.readExits == SatAdd(s.readExits, if exit && Carries(k, step.task, Reading) then 1 else 0)
            && now.writeExits == SatAdd(s.writeExits, if exit && Carries(k, step.task, Writing) then 1 else 0)
  {
    hide Due;
  }

  /** Foreign calls, buffers that were not to be had, and stashes that took no more. */
  datatype Misses = Misses(foreign: nat, unbuffered: nat, unstashed: nat)

  /** What one step adds to them. */
  function Missed(k: Kernel, step: Step): Misses {
    match step
    case Enter(_, call, luck) =>
      if call.Compat? then Misses(1, 0, 0)
      else if call.OpenAt? && !luck.scratch then Misses(0, 1, 0)
      else if luck.stash || call.Other? || (call.Fcntl? && call.command != 0 && call.command != 1030) then Misses(0, 0, 0)
      else Misses(0, 0, 1)
    case Exit(task, result, luck) =>
      var wanted := task in k.pending && k.pending[task].kept && k.pending[task].call.OpenAt? && result >= 0;
      if wanted && !luck.buffer then Misses(0, 1, 0) else Misses(0, 0, 0)
    case _ => Misses(0, 0, 0)
  }

  function MissesOf(run: seq<Step>): Misses {
    if run == [] then Misses(0, 0, 0)
    else
      var m, more := MissesOf(run[..|run| - 1]), Missed(Replay(run[..|run| - 1]), run[|run| - 1]);
      Misses(m.foreign + more.foreign, m.unbuffered + more.unbuffered, m.unstashed + more.unstashed)
  }

  lemma DueOpens(task: Task, p: Pending, result: i64, now: u64)
    requires p.call.OpenAt?
    ensures Due(task, p, result, now).Some? <==> result >= 0
  {
    hide Padded, Captured, PathFlags, Low32;
  }

  lemma StepMisses(k: Kernel, step: Step)
    ensures var s, now, m := k.stats, Stepped(k, step).stats, Missed(k, step);
            && now.compatIgnored == SatAdd(s.compatIgnored, m.foreign)
            && now.scratchFailures == SatAdd(s.scratchFailures, m.unbuffered)
            && now.stashFailures == SatAdd(s.stashFailures, m.unstashed)
  {
    if step.Exit? && step.task in k.pending && k.pending[step.task].call.OpenAt? {
      DueOpens(step.task, k.pending[step.task], step.result, step.luck.now);
    }
    hide Due;
  }

  /** And so are the counters of what went wrong. */
  lemma {:induction false} MissesCounted(run: seq<Step>)
    ensures var s, m := Replay(run).stats, MissesOf(run);
            && s.compatIgnored == Min(m.foreign, U64_MAX) && s.scratchFailures == Min(m.unbuffered, U64_MAX)
            && s.stashFailures == Min(m.unstashed, U64_MAX)
    decreases |run|
  {
    if run != [] {
      hide Stepped, Missed;
      MissesCounted(run[..|run| - 1]);
      StepMisses(Replay(run[..|run| - 1]), run[|run| - 1]);
    }
  }

  /** Records that were due, lost because the ring was full, or lost for want of a buffer. */
  datatype Account = Account(due: nat, dropped: nat, unbuffered: nat)

  /** The step delivers a record if the ring has room and all buffers are there. */
  predicate Owed(k: Kernel, step: Step) {
    match step
    case Enter(_, _, _) => false
    case Exit(task, result, luck) =>
      task in k.pending && k.pending[task].kept && Due(task, k.pending[task], result, luck.now).Some?
    case Die(_, groupDead, _) => groupDead
    case Gone(_, groupDead, _) => groupDead
    case Exec(task, _) => task.pid == task.tid
  }

  predicate Unbuffered(k: Kernel, step: Step) {
    step.Exit? && Owed(k, step) && k.pending[step.task].call.OpenAt? && !step.luck.buffer
  }

  function AccountOf(run: seq<Step>): Account {
    if run == [] then Account(0, 0, 0)
    else
      var step, k, o := run[|run| - 1], Replay(run[..|run| - 1]), AccountOf(run[..|run| - 1]);
      if !Owed(k, step) then o
      else if Unbuffered(k, step) then o.(due := o.due + 1, unbuffered := o.unbuffered + 1)
      else if step.luck.ring then o.(due := o.due + 1)
      else o.(due := o.due + 1, dropped := o.dropped + 1)
  }

  lemma OwedAdded(k: Kernel, step: Step)
    ensures |Added(k, step)| == if Owed(k, step) && !Unbuffered(k, step) && step.luck.ring then 1 else 0
    ensures Stepped(k, step).stats.ringDrops
         == SatAdd(k.stats.ringDrops, if Owed(k, step) && !Unbuffered(k, step) && !step.luck.ring then 1 else 0)
  {
    hide Due;
  }

  /** Every record that was due is in the ring or counted as lost. */
  lemma {:induction false} RecordsAccounted(run: seq<Step>)
    ensures var o := AccountOf(run);
            && |Replay(run).ring| + o.dropped + o.unbuffered == o.due
            && Replay(run).stats.ringDrops == Min(o.dropped, U64_MAX)
    decreases |run|
  {
    hide Stepped, Owed, Unbuffered, Added;
    if run != [] {
      var rest, step := run[..|run| - 1], run[|run| - 1];
      RecordsAccounted(rest);
      StepParts(Replay(rest), step);
      OwedAdded(Replay(rest), step);
    }
  }
}
