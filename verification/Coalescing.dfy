/** Why merging I/O between lifecycle events changes nothing: groups waiting to be recorded
    commute with each other, absorb further I/O, and wait out events that do not concern
    them. */
module Coalescing {
  import opened Saturating
  import opened Attribution
  import opened Ledgers
  import Buckets
  import RateTracking
  import EventLogging

  /** What recording groups and applying events transforms. */
  datatype Core = Core(memory: Memory, ledger: Ledger)

  /** `record_io_group`. */
  ghost function RecordGroup(env: Env, c: Core, g: IoGroup): Core {
    var step := GroupStep(env.world, c.memory, g);
    Core(step.memory, Emit(env, c.ledger, step.update))
  }

  /** `ingest_lifecycle`. */
  ghost function ApplyEvent(env: Env, c: Core, e: Lifecycle): Core {
    var step := EventStep(env.world, c.memory, e);
    var ledger := Emit(env, c.ledger, step.update);
    Core(step.memory, if Ends(e) then EndProcess(ledger, ProcessOf(e)) else ledger)
  }

  ghost predicate Calm(env: Env, c: Core) { Steady(env, c.ledger) }

  /** Calm lasts: later batches find it, and so they do after queries. */
  lemma CalmLater(env: Env, later: Env, c: Core)
    requires Calm(env, c) && env.window == later.window && env.now <= later.now
    ensures Calm(later, c)
    ensures Calm(later, c.(ledger := c.ledger.(
              rate := RateTracking.QueryRate(c.ledger.rate, later.window, later.now),
              log := EventLogging.QueryEvents(c.ledger.log, later.window, later.now))))
  {
    RateTracking.ExpireRateBuckets(c.ledger.rate, later.now - later.window);
    EventLogging.ExpireEventsBuckets(c.ledger.log, later.now - later.window);
    Buckets.FreshReady(c.ledger.rate.buckets, env.window, env.now, later.now);
    Buckets.FreshReady(c.ledger.log.buckets, env.window, env.now, later.now);
  }

  lemma RecordGroupCalm(env: Env, c: Core, g: IoGroup)
    requires Calm(env, c)
    ensures Calm(env, RecordGroup(env, c, g))
  {
    EmitSteady(env, c.ledger, GroupStep(env.world, c.memory, g).update);
    hide Emit, GroupStep;
  }

  lemma ApplyEventCalm(env: Env, c: Core, e: Lifecycle)
    requires Calm(env, c)
    ensures Calm(env, ApplyEvent(env, c, e))
  {
    EmitSteady(env, c.ledger, EventStep(env.world, c.memory, e).update);
    hide Emit, EventStep;
  }

  /** Activity names the process it belongs to and its currently known container. */
  ghost predicate CreditsProcess(w: World, m: Memory, pid: u32, u: Update) {
    u.activity.Some? ==> u.activity.value.pid == pid && u.activity.value.container == Recall(m.names, w.container, pid)
  }

  lemma GroupCredits(w: World, m: Memory, g: IoGroup)
    ensures CreditsProcess(w, m, g.key.pid, GroupStep(w, m, g).update)
  {
  }

  lemma EventCredits(w: World, m: Memory, e: Lifecycle)
    ensures CreditsProcess(w, m, ProcessOf(e), EventStep(w, m, e).update)
    ensures Ends(e) ==> EventStep(w, m, e).update == NOTHING
  {
    hide Filled, Kept;
  }

  lemma GroupsSwap(env: Env, c: Core, a: IoGroup, b: IoGroup)
    requires Calm(env, c)
    ensures RecordGroup(env, RecordGroup(env, c, a), b) == RecordGroup(env, RecordGroup(env, c, b), a)
  {
    var w, m := env.world, c.memory;
    var a1, b1 := GroupStep(w, m, a), GroupStep(w, m, b);
    GroupsCommute(w, m, a, b);
    GroupCredits(w, m, a);
    GroupCredits(w, m, b);
    EmitTrades(env, c.ledger, a1.update, GroupStep(w, a1.memory, b).update, b1.update, GroupStep(w, b1.memory, a).update);
    hide Emit, GroupStep;
  }

  lemma GroupsJoin(env: Env, c: Core, a: IoGroup, b: IoGroup)
    requires Calm(env, c) && a.key == b.key && a.operations > 0 && b.operations > 0
    ensures RecordGroup(env, RecordGroup(env, c, a), b) == RecordGroup(env, c, Combined(a, b))
  {
    var w, m := env.world, c.memory;
    var first, whole := GroupStep(w, m, a), GroupStep(w, m, Combined(a, b));
    GroupsMerge(w, m, a, b);
    EmitMerges(env, c.ledger, first.update, GroupStep(w, first.memory, b).update, whole.update);
    hide Emit, GroupStep;
  }

  lemma EventPasses(env: Env, c: Core, e: Lifecycle, g: IoGroup)
    requires Calm(env, c) && !Affects(e, g.key)
    ensures ApplyEvent(env, RecordGroup(env, c, g), e) == RecordGroup(env, ApplyEvent(env, c, e), g)
  {
    var w, m, l := env.world, c.memory, c.ledger;
    var u, v := GroupStep(w, m, g).update, EventStep(w, m, e).update;
    EventPassesGroup(w, m, e, g);
    GroupCredits(w, m, g);
    EventCredits(w, m, e);
    TradeSame(u, v);
    EmitTrades(env, l, u, v, v, u);
    if Ends(e) {
      UnflushedApart(w, e, SightOf(w, m, Subject(e)), g.key);
      EmitPasses(env, Emit(env, l, v), u, ProcessOf(e));
    }
    hide Emit, GroupStep, EventStep, EndProcess;
  }

  // --- Waiting groups ---

  type Waiting = seq<Option<IoGroup>>

  /** `flush_io_groups`: the live slots in first-seen order. */
  ghost function FlushAll(env: Env, c: Core, groups: Waiting): Core
    decreases |groups|
  {
    if groups == [] then c
    else if groups[0].Some? then FlushAll(env, RecordGroup(env, c, groups[0].value), groups[1..])
    else FlushAll(env, c, groups[1..])
  }

  lemma {:induction false} FlushConcat(env: Env, c: Core, a: Waiting, b: Waiting)
    ensures FlushAll(env, c, a + b) == FlushAll(env, FlushAll(env, c, a), b)
    decreases |a|
  {
    hide RecordGroup;
    if a == [] {
      assert a + b == b;
    } else {
      assert (a + b)[1..] == a[1..] + b;
      FlushConcat(env, if a[0].Some? then RecordGroup(env, c, a[0].value) else c, a[1..], b);
    }
  }

  /** A group may be recorded before or after all waiting groups. */
  lemma {:induction false} RecordFirst(env: Env, c: Core, groups: Waiting, g: IoGroup)
    requires Calm(env, c)
    ensures RecordGroup(env, FlushAll(env, c, groups), g) == FlushAll(env, RecordGroup(env, c, g), groups)
    decreases |groups|
  {
    hide RecordGroup, Calm;
    if groups != [] {
      if groups[0].Some? {
        var h := groups[0].value;
        GroupsSwap(env, c, g, h);
        RecordGroupCalm(env, c, h);
        RecordFirst(env, RecordGroup(env, c, h), groups[1..], g);
      } else {
        RecordFirst(env, c, groups[1..], g);
      }
    }
  }

  /** A waiting group may be recorded ahead of the others. */
  lemma TakeOut(env: Env, c: Core, groups: Waiting, i: nat)
    requires Calm(env, c) && i < |groups| && groups[i].Some?
    ensures FlushAll(env, c, groups) == FlushAll(env, RecordGroup(env, c, groups[i].value), groups[i := None])
  {
    hide RecordGroup, Calm;
    var g, before, rest := groups[i].value, groups[..i], groups[i + 1..];
    assert groups == before + [Some(g)] + rest && groups[i := None] == before + [None] + rest;
    FlushConcat(env, c, before + [Some(g)], rest);
    FlushConcat(env, c, before, [Some(g)]);
    FlushConcat(env, RecordGroup(env, c, g), before + [None], rest);
    FlushConcat(env, RecordGroup(env, c, g), before, [None]);
    RecordFirst(env, c, before, g);
    FlushOne(env, FlushAll(env, c, before), Some(g));
    FlushOne(env, FlushAll(env, RecordGroup(env, c, g), before), None);
  }

  lemma FlushOne(env: Env, c: Core, slot: Option<IoGroup>)
    ensures FlushAll(env, c, [slot]) == if slot.Some? then RecordGroup(env, c, slot.value) else c
  {
    assert [slot][1..] == [];
  }

  /** Further I/O may be added to a waiting group instead of being recorded. */
  lemma JoinWaiting(env: Env, c: Core, groups: Waiting, i: nat, g: IoGroup)
    requires Calm(env, c) && i < |groups| && groups[i].Some?
    requires groups[i].value.key == g.key && groups[i].value.operations > 0 && g.operations > 0
    ensures FlushAll(env, c, groups[i := Some(Combined(groups[i].value, g))]) == RecordGroup(env, FlushAll(env, c, groups), g)
  {
    hide RecordGroup, Calm, FlushAll;
    var h, joined := groups[i].value, groups[i := Some(Combined(groups[i].value, g))];
    assert joined[i := None] == groups[i := None];
    TakeOut(env, c, groups, i);
    TakeOut(env, c, joined, i);
    RecordGroupCalm(env, c, h);
    RecordFirst(env, RecordGroup(env, c, h), groups[i := None], g);
    GroupsJoin(env, c, h, g);
  }

  /** I/O of a new descriptor waits behind the others. */
  lemma JoinLast(env: Env, c: Core, groups: Waiting, g: IoGroup)
    ensures FlushAll(env, c, groups + [Some(g)]) == RecordGroup(env, FlushAll(env, c, groups), g)
  {
    FlushConcat(env, c, groups, [Some(g)]);
    FlushOne(env, FlushAll(env, c, groups), Some(g));
  }

  ghost predicate Unaffected(groups: Waiting, e: Lifecycle) {
    forall i :: 0 <= i < |groups| && groups[i].Some? ==> !Affects(e, groups[i].value.key)
  }

  /** Unaffected groups may wait until after the event. */
  lemma {:induction false} EventFirst(env: Env, c: Core, groups: Waiting, e: Lifecycle)
    requires Calm(env, c) && Unaffected(groups, e)
    ensures ApplyEvent(env, FlushAll(env, c, groups), e) == FlushAll(env, ApplyEvent(env, c, e), groups)
    decreases |groups|
  {
    hide RecordGroup, ApplyEvent, Calm, Affects;
    if groups != [] {
      if groups[0].Some? {
        var g := groups[0].value;
        EventPasses(env, c, e, g);
        RecordGroupCalm(env, c, g);
        EventFirst(env, RecordGroup(env, c, g), groups[1..], e);
      } else {
        EventFirst(env, c, groups[1..], e);
      }
    }
  }
}
