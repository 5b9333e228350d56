/** Activity on the root itself, which the tree skips and the process table counts: how far
    the two are apart in every reachable state. */
module RootActivity {
  import opened Saturating
  import opened Stats
  import opened Paths
  import opened Tree
  import opened TreeLaws
  import opened Attribution
  import opened Ledgers
  import opened Coalescing
  import opened App
  import opened AppLaws
  import opened AppRuns
  import opened Render
  import opened Normalize
  import opened Resolve

  /** The update attributes activity to the root itself. */
  ghost predicate OnRoot(u: Update) { u.activity.Some? && Place(u.activity.value.path) == Root }

  /** The share of a process that the tree skips, after one more event. */
  ghost function ShareAfter(env: Env, m: Memory, e: Event, pid: u32, share: NodeStats): NodeStats {
    var u := UpdateOf(env, m, e);
    if e.LifecycleEvent? && Ends(e.event) && ProcessOf(e.event) == pid then ZERO
    else if OnRoot(u) && u.activity.value.pid == pid then Accumulate(share, u.activity.value.stats)
    else share
  }

  ghost function RootShare(env: Env, c: Core, events: seq<Event>, pid: u32, share: NodeStats): NodeStats {
    if events == [] then share
    else
      var rest := events[..|events| - 1];
      ShareAfter(env, Singles(env, c, rest).memory, events[|events| - 1], pid, RootShare(env, c, rest, pid, share))
  }

  /** The same since the last reset of a whole run of the application. */
  ghost function ReachedShare(window: nat, turns: seq<Turn>, pid: u32): NodeStats {
    if turns == [] then ZERO
    else
      var rest, turn := turns[..|turns| - 1], turns[|turns| - 1];
      match turn
      case Batch(world, events, now) =>
        RootShare(Env(world, window, now), Reached(window, rest), events, pid, ReachedShare(window, rest, pid))
      case Cleared => ZERO
      case _ => ReachedShare(window, rest, pid)
  }

  // --- Table row, tree total and root share ---

  /** The row is the tree total and the share, and there is one exactly if either is there. */
  ghost predicate Accounts(l: Ledger, pid: u32, share: NodeStats) {
    && TableStats(l.processes, pid) == Accumulate(Sum(EntriesOf(l.nodes, pid)), share)
    && (pid in l.processes <==> EntriesOf(l.nodes, pid) != map[] || share != ZERO)
    && (share == ZERO || TotalOps(share) > 0)
  }

  /** The share does not show: there is none, or the tree total is saturated anyway. */
  ghost predicate Absorbed(l: Ledger, pid: u32, share: NodeStats) {
    share == ZERO
    || (EntriesOf(l.nodes, pid) != map[] && Accumulate(Sum(EntriesOf(l.nodes, pid)), share) == Sum(EntriesOf(l.nodes, pid)))
  }

  lemma AgreesIffAbsorbed(l: Ledger, pid: u32, share: NodeStats)
    requires Accounts(l, pid, share)
    ensures Agrees(l, pid) <==> Absorbed(l, pid, share)
  {
    AccumulateMonoid(Sum(EntriesOf(l.nodes, pid)), ZERO, ZERO);
    hide Accumulate, Sum, EntriesOf;
  }

  lemma AgreementAccounts(l: Ledger, pid: u32)
    requires Agrees(l, pid)
    ensures Accounts(l, pid, ZERO)
  {
    AccumulateMonoid(Sum(EntriesOf(l.nodes, pid)), ZERO, ZERO);
    EmptyTotal(l.nodes, pid);
    hide Accumulate, Sum, EntriesOf;
  }

  lemma ActivateAccounts(env: Env, l: Ledger, a: Activity, pid: u32, share: NodeStats)
    requires Accounts(l, pid, share) && TotalOps(a.stats) > 0
    ensures Accounts(Activate(env, l, a), pid,
                     if Place(a.path) == Root && a.pid == pid then Accumulate(share, a.stats) else share)
  {
    var total := Sum(EntriesOf(l.nodes, pid));
    TableAfter(env, l, a, pid);
    AccumulateMonoid(total, share, a.stats);
    AccumulateSwap(total, share, a.stats);
    AccumulateBounds(share, ZERO, a.stats);
    if Place(a.path) != Root { RecordedTotal(l.nodes, Place(a.path), a.pid, a.stats, pid); }
    NonZero(Accumulate(share, a.stats));
    hide Accumulate, Sum, EntriesOf, Recorded;
  }

  lemma NonZero(s: NodeStats)
    ensures TotalOps(s) > 0 ==> s != ZERO
  {
  }

  lemma EndAccounts(l: Ledger, pid: u32, share: NodeStats, gone: u32)
    requires Accounts(l, pid, share)
    ensures Accounts(EndProcess(l, gone), pid, if gone == pid then ZERO else share)
  {
    RemovedTotal(l.nodes, gone, pid);
    EmptyTotal(Removed(l.nodes, gone), pid);
    AccumulateMonoid(ZERO, ZERO, ZERO);
    hide Accumulate, Sum;
  }

  lemma EmitAccounts(env: Env, l: Ledger, u: Update, pid: u32, share: NodeStats)
    requires Accounts(l, pid, share) && (u.activity.Some? ==> TotalOps(u.activity.value.stats) > 0)
    ensures Accounts(Emit(env, l, u), pid,
                     if OnRoot(u) && u.activity.value.pid == pid then Accumulate(share, u.activity.value.stats) else share)
  {
    var counted := Ledgers.Counted(l, u);
    assert Accounts(counted, pid, share);
    if u.activity.Some? { ActivateAccounts(env, counted, u.activity.value, pid, share); }
    hide Accounts, Activate, Accumulate, Place;
  }

  lemma UpdateCounts(env: Env, m: Memory, e: Event)
    ensures var u := UpdateOf(env, m, e); u.activity.Some? ==> TotalOps(u.activity.value.stats) > 0
    ensures e.LifecycleEvent? && Ends(e.event) ==> UpdateOf(env, m, e) == NOTHING
  {
    if e.LifecycleEvent? {
      EventCounts(env.world, m, e.event);
      EventCredits(env.world, m, e.event);
    }
    hide EventStep, Filled, SightOf, Decorate;
  }

  lemma SingleAccounts(env: Env, c: Core, e: Event, pid: u32, share: NodeStats)
    requires Accounts(c.ledger, pid, share)
    ensures Accounts(Single(env, c, e).ledger, pid, ShareAfter(env, c.memory, e, pid, share))
  {
    hide Accounts, Accumulate, Place, EventStep, GroupStep, Emit, EndProcess;
    var u := UpdateOf(env, c.memory, e);
    UpdateCounts(env, c.memory, e);
    EmitAccounts(env, c.ledger, u, pid, share);
    if e.LifecycleEvent? && Ends(e.event) { EndAccounts(Emit(env, c.ledger, u), pid, share, ProcessOf(e.event)); }
  }

  /** After every run the row of a process is its tree total and its root share. */
  lemma {:induction false} RunAccounts(env: Env, c: Core, events: seq<Event>, pid: u32, share: NodeStats)
    requires Accounts(c.ledger, pid, share)
    ensures Accounts(Singles(env, c, events).ledger, pid, RootShare(env, c, events, pid, share))
    decreases |events|
  {
    hide Accounts, Single, ShareAfter;
    if events != [] {
      var rest := events[..|events| - 1];
      RunAccounts(env, c, rest, pid, share);
      SingleAccounts(env, Singles(env, c, rest), events[|events| - 1], pid, RootShare(env, c, rest, pid, share));
    }
  }

  lemma SameAccounts(l: Ledger, l': Ledger, pid: u32, share: NodeStats)
    requires Accounts(l, pid, share) && l.nodes == l'.nodes && l.processes == l'.processes
    ensures Accounts(l', pid, share)
  {
  }

  lemma BlankAccounts(l: Ledger, pid: u32)
    requires l.nodes == EMPTY && l.processes == map[]
    ensures Accounts(l, pid, ZERO)
  {
    assert EntriesOf(EMPTY, pid) == map[];
  }

  /** In every reachable state the row of a process is its tree total and its root share. */
  lemma {:induction false} ReachedAccounts(window: nat, turns: seq<Turn>, pid: u32)
    ensures Accounts(Reached(window, turns).ledger, pid, ReachedShare(window, turns, pid))
    decreases |turns|
  {
    hide Accounts, Singles, RootShare;
    if turns == [] {
      BlankAccounts(BLANK.ledger, pid);
    } else {
      var rest, turn := turns[..|turns| - 1], turns[|turns| - 1];
      ReachedAccounts(window, rest, pid);
      match turn {
        case Batch(world, events, now) =>
          RunAccounts(Env(world, window, now), Reached(window, rest), events, pid, ReachedShare(window, rest, pid));
        case Cleared => BlankAccounts(Reached(window, turns).ledger, pid);
        case _ =>
          SameAccounts(Reached(window, rest).ledger, Reached(window, turns).ledger, pid, ReachedShare(window, rest, pid));
      }
    }
  }

  // --- Main results ---

  /** The root share of a process since its last end does not show after a run. */
  ghost predicate RunBalances(env: Env, c: Core, events: seq<Event>, pid: u32) {
    Absorbed(Singles(env, c, events).ledger, pid, RootShare(env, c, events, pid, ZERO))
  }

  lemma RunAgreesIff(env: Env, c: Core, events: seq<Event>, pid: u32)
    requires Agrees(c.ledger, pid)
    ensures Agrees(Singles(env, c, events).ledger, pid) <==> RunBalances(env, c, events, pid)
  {
    hide Agrees, Absorbed, Accounts, Singles, RootShare;
    AgreementAccounts(c.ledger, pid);
    RunAccounts(env, c, events, pid, ZERO);
    AgreesIffAbsorbed(Singles(env, c, events).ledger, pid, RootShare(env, c, events, pid, ZERO));
  }

  /** Table and tree agree after a run exactly when no root share shows. */
  lemma RunExactIff(env: Env, c: Core, events: seq<Event>)
    requires Exact(c.ledger)
    ensures Exact(Singles(env, c, events).ledger) <==> forall pid :: RunBalances(env, c, events, pid)
  {
    hide Agrees, RunBalances, Singles;
    forall pid
      ensures Agrees(Singles(env, c, events).ledger, pid) <==> RunBalances(env, c, events, pid)
    {
      assert Agrees(c.ledger, pid);
      RunAgreesIff(env, c, events, pid);
    }
  }

  /** No event of the run attributes anything to the root itself. */
  ghost predicate RootFree(env: Env, c: Core, events: seq<Event>) {
    forall i :: 0 <= i < |events| ==> !OnRoot(UpdateOf(env, Singles(env, c, events[..i]).memory, events[i]))
  }

  lemma {:induction false} NoRootShare(env: Env, c: Core, events: seq<Event>, pid: u32)
    requires RootFree(env, c, events)
    ensures RootShare(env, c, events, pid, ZERO) == ZERO
    decreases |events|
  {
    hide UpdateOf, Singles, OnRoot;
    if events != [] {
      var rest := events[..|events| - 1];
      assert forall i :: 0 <= i < |rest| ==> rest[i] == events[i] && rest[..i] == events[..i];
      NoRootShare(env, c, rest, pid);
      assert events[|rest|] == events[|events| - 1] && events[..|rest|] == rest;
    }
  }

  /** A run without activity on the root itself keeps table and tree in agreement. */
  lemma RunExact(env: Env, c: Core, events: seq<Event>)
    requires Exact(c.ledger) && RootFree(env, c, events)
    ensures Exact(Singles(env, c, events).ledger)
  {
    hide Exact, RootShare, Singles, RootFree;
    forall pid
      ensures RunBalances(env, c, events, pid)
    {
      NoRootShare(env, c, events, pid);
    }
    RunExactIff(env, c, events);
  }

  /** The root share of a process does not show in a reachable state. */
  ghost predicate Balances(window: nat, turns: seq<Turn>, pid: u32) {
    Absorbed(Reached(window, turns).ledger, pid, ReachedShare(window, turns, pid))
  }

  lemma ReachedAgreesIff(window: nat, turns: seq<Turn>, pid: u32)
    ensures Agrees(Reached(window, turns).ledger, pid) <==> Balances(window, turns, pid)
  {
    hide Agrees, Absorbed, Accounts, Reached, ReachedShare;
    ReachedAccounts(window, turns, pid);
    AgreesIffAbsorbed(Reached(window, turns).ledger, pid, ReachedShare(window, turns, pid));
  }

  /** In every reachable state table and tree agree exactly when no root share shows. */
  lemma ReachedExactIff(window: nat, turns: seq<Turn>)
    ensures Exact(Reached(window, turns).ledger) <==> forall pid :: Balances(window, turns, pid)
  {
    hide Agrees, Balances, Reached;
    forall pid
      ensures Agrees(Reached(window, turns).ledger, pid) <==> Balances(window, turns, pid)
    {
      ReachedAgreesIff(window, turns, pid);
    }
  }

  /** In every reachable state, filtering the root by a process shows the row of the process
      panel exactly when its root share does not show. */
  lemma ReachedPidFilterIsRowIff(window: nat, turns: seq<Turn>, pid: u32, lower: string -> string)
    ensures var l := Reached(window, turns).ledger;
            ByPid(l, pid, lower) == RowOf(l, pid) <==> Balances(window, turns, pid)
  {
    ReachedSound(window, turns);
    SoundCounts(Reached(window, turns).ledger);
    hide *;
    ReachedAgreesIff(window, turns, pid);
    PidFilterIsRowIff(Reached(window, turns).ledger, pid, lower);
  }

  lemma SoundCounts(l: Ledger)
    requires Sound(l)
    ensures EntriesCount(l.nodes)
  {
  }

  /** No batch since the start attributes anything to the root itself. */
  ghost predicate RootFreeTurns(window: nat, turns: seq<Turn>) {
    turns == [] ||
    var rest, turn := turns[..|turns| - 1], turns[|turns| - 1];
    RootFreeTurns(window, rest)
    && (turn.Batch? ==> RootFree(Env(turn.world, window, turn.now), Reached(window, rest), turn.events))
  }

  /** Then table and tree agree, and filtering the root by any process shows its row. */
  lemma {:induction false} ReachedExact(window: nat, turns: seq<Turn>, lower: string -> string)
    requires RootFreeTurns(window, turns)
    ensures var l := Reached(window, turns).ledger;
            Exact(l) && forall pid :: ByPid(l, pid, lower) == RowOf(l, pid)
  {
    hide Agrees, Balances, RootShare, Singles, Absorbed, ByPid, RowOf;
    forall pid
      ensures Balances(window, turns, pid) && ByPid(Reached(window, turns).ledger, pid, lower)
                                              == RowOf(Reached(window, turns).ledger, pid)
    {
      NoReachedShare(window, turns, pid);
      ReachedPidFilterIsRowIff(window, turns, pid, lower);
    }
    ReachedExactIff(window, turns);
  }

  lemma {:induction false} NoReachedShare(window: nat, turns: seq<Turn>, pid: u32)
    requires RootFreeTurns(window, turns)
    ensures ReachedShare(window, turns, pid) == ZERO && Balances(window, turns, pid)
    decreases |turns|
  {
    hide RootShare, RootFree, Singles, Reached;
    if turns != [] {
      var rest, turn := turns[..|turns| - 1], turns[|turns| - 1];
      NoReachedShare(window, rest, pid);
      if turn.Batch? { NoRootShare(Env(turn.world, window, turn.now), Reached(window, rest), turn.events, pid); }
    }
  }

  // --- The failing input ---

  const ONE_OPEN := ForOperations(Open, 0, 1, 0, 0)

  lemma RootShown()
    ensures Display(Absolute([SLASH])) == "/"
  {
    SplitAt([], [], SLASH);
    assert [] + [SLASH] + [] == [SLASH];
    SplitNothing(SLASH);
    var pieces: seq<Bytes> := [[], []];
    assert Split([SLASH], SLASH) == pieces && pieces[..1] == [[]] && pieces[..1][..0] == [];
    assert PushedAll([], pieces[..1]) == [];
    assert NormalComponents([SLASH]) == [];
    hide Width, BadLength, Split;
    DisplayNext([SLASH]);
    FrontPrintable([SLASH]);
    DisplayNothing();
    assert [SLASH][1..] == [];
  }

  lemma RootOrdinary()
    ensures Classify([SLASH]).Ordinary?
  {
    Longer("socket:");
    Longer("pipe:");
    Longer("anon_inode:");
    Longer("memfd:");
    Longer(" (deleted)");
    hide Utf8;
  }

  lemma {:induction false} Longer(text: string)
    ensures |Utf8(text)| >= |text|
  {
    if text != "" { Longer(text[1..]); }
  }

  /** Whoever opens `/` itself is attributed activity on `/`, whatever its root is. */
  lemma RootOpenResolves(proc: Procfs, pid: u32, fd: u32, dirfd: int, root: ContainerRoot)
    requires ProcTarget(proc, FdKey(pid, fd), root) != Some(Ignored)
    ensures ResolveOpen(proc, OpenCall(pid, fd, dirfd, [SLASH], 0), root) == Resolved("/")
  {
    RootOrdinary();
    RootShown();
    hide Classify, Display, Absolute, ProcTarget, Expected;
  }

  lemma WorldOpens(proc: Procfs, container: u32 -> Option<string>, comm: u32 -> string, call: OpenCall, root: ContainerRoot)
    ensures var w := WorldOf(proc, container, comm, []);
            && w.open(call, root) == ResolveOpen(proc, call, root) && w.container == container
            && !w.excluded("/")
  {
    hide ResolveOpen;
  }

  lemma RootBreaks(env: Env, l: Ledger, counted: Ledger, a: Activity)
    requires Exact(l) && counted.nodes == l.nodes && counted.processes == l.processes
    requires Place(a.path) == Root && a.pid !in l.processes
    ensures !Exact(Activate(env, counted, a))
  {
    SameSound(l, counted);
    ExactIff(env, counted, a);
    hide Exact, Activate;
  }

  lemma RootOpened(env: Env, c: Core, call: OpenCall)
    requires env.world.open(call, Recall(c.memory.roots, env.world.root, call.pid)) == Resolved("/")
    requires !env.world.excluded("/") && Recall(c.memory.names, env.world.container, call.pid) == None
    ensures var l := c.ledger;
            Single(env, c, LifecycleEvent(Opened(call))).ledger
            == Activate(env, l.(failures := SatAdd(l.failures, 0), ignored := SatAdd(l.ignored, 0)),
                        Activity("/", call.pid, None, ONE_OPEN, None))
  {
    hide Activate, ApplyEvent, Recall, Memoized, ForOperations, SatAdd, Place;
    OpenParts(env, c, call);
  }

  lemma OneEvent(env: Env, c: Core, e: Event)
    ensures Singles(env, c, [e]) == Single(env, c, e)
  {
    hide Single;
    assert [e][..0] == [];
  }

  /** Such an open by a process without a row, outside of containers, takes table and tree
      out of agreement. */
  lemma RootOpenBreaksExact(proc: Procfs, container: u32 -> Option<string>, comm: u32 -> string,
                            window: nat, now: int, c: Core, pid: u32, fd: u32, dirfd: int)
    requires Exact(c.ledger) && pid !in c.ledger.processes
    requires Recall(c.memory.names, container, pid) == None
    requires var root := Recall(c.memory.roots, WorldOf(proc, container, comm, []).root, pid);
             ProcTarget(proc, FdKey(pid, fd), root) != Some(Ignored)
    ensures var env := Env(WorldOf(proc, container, comm, []), window, now);
            !Exact(Singles(env, c, [LifecycleEvent(Opened(OpenCall(pid, fd, dirfd, [SLASH], 0)))]).ledger)
  {
    hide *;
    var env := Env(WorldOf(proc, container, comm, []), window, now);
    var call := OpenCall(pid, fd, dirfd, [SLASH], 0);
    var l, root := c.ledger, Recall(c.memory.roots, env.world.root, pid);
    RootOpenResolves(proc, pid, fd, dirfd, root);
    WorldOpens(proc, container, comm, call, root);
    SlashIsRoot();
    RootOpened(env, c, call);
    OneEvent(env, c, LifecycleEvent(Opened(call)));
    RootBreaks(env, l, l.(failures := SatAdd(l.failures, 0), ignored := SatAdd(l.ignored, 0)),
               Activity("/", pid, None, ONE_OPEN, None));
  }

  lemma SlashIsRoot()
    ensures Place("/") == Root
  {
    NamesRoot("/");
  }
}
