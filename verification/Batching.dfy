/** The claim of batched ingestion, as a comparison of two application states. */
module Batching {
  import opened Ledgers
  import opened Coalescing
  import opened App
  import opened AppRuns
  import opened Tidying

  /** Two equal states, whatever is in their reverse index and however it is spelled: one
      ingests a batch, the other its events one at a time, and they are equal again. */
  method IngestBothWays(a: AppState, b: AppState, env: Env, events: seq<Event>)
    requires a.Valid() && b.Valid() && a.Parts() !! b.Parts()
    requires env.window == a.eventLog.window == b.eventLog.window && Calm(env, a.View())
    requires TidyWorld(env.world) && TidyPaths(a.fdCache.paths)
    requires a.View() == b.View() && a.TallyView() == b.TallyView() && a.LossView() == b.LossView()
    requires a.tree.pathsByProcess == b.tree.pathsByProcess
    modifies a.Parts(), b.Parts()
    ensures a.Valid() && b.Valid() && a.View() == b.View() && a.TallyView() == b.TallyView() && a.LossView() == b.LossView()
    ensures a.tree.pathsByProcess == b.tree.pathsByProcess && a.tree.activePaths == b.tree.activePaths
    ensures a.eventLog.internedPaths == b.eventLog.internedPaths && a.eventLog.pathPidCounts == b.eventLog.pathPidCounts
    ensures TidyPaths(a.fdCache.paths) && Calm(env, a.View())
  {
    ghost var base := a.tree.pathsByProcess;
    StartsSpelled(a, base);
    StartsSpelled(b, base);
    hide *;
    Batched(a, env, events, base);
    OneAtATime(b, env, events, base);
    EndsSpelled(a, Survivors(base, events));
    SameViewSameState(a, b, Survivors(base, events));
  }

  method Batched(a: AppState, env: Env, events: seq<Event>, ghost base: Index)
    requires a.Valid() && env.window == a.eventLog.window && Calm(env, a.View())
    modifies a.Parts()
    ensures a.Valid() && Calm(env, a.View()) && a.View() == Singles(env, old(a.View()), events)
    ensures a.TallyView() == CountedAll(old(a.TallyView()), events) && a.LossView() == old(a.LossView())
    ensures TidyWorld(env.world) && old(a.Spelled(base)) ==> a.Spelled(Survivors(base, events))
  {
    a.Ingest(env, events, base);
  }

  method OneAtATime(b: AppState, env: Env, events: seq<Event>, ghost base: Index)
    requires b.Valid() && env.window == b.eventLog.window && Calm(env, b.View())
    modifies b.Parts()
    ensures b.Valid() && Calm(env, b.View()) && b.View() == Singles(env, old(b.View()), events)
    ensures b.TallyView() == CountedAll(old(b.TallyView()), events) && b.LossView() == old(b.LossView())
    ensures TidyWorld(env.world) && old(b.Spelled(base)) ==> b.Spelled(Survivors(base, events))
  {
    b.IngestEach(env, events, base);
  }

  lemma StartsSpelled(a: AppState, base: Index)
    requires TidyPaths(a.View().memory.paths) && a.tree.pathsByProcess == base
    ensures a.Spelled(base)
  {
    hide TidyPaths, Grown;
    GrownSelf(base, a.containers.pidCache);
  }

  lemma EndsSpelled(a: AppState, base: Index)
    requires a.Spelled(base)
    ensures TidyPaths(a.fdCache.paths)
  {
    hide TidyPaths, Grown;
  }
}
