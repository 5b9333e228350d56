/** Where recorded paths come from: a property of everything that resolution produces is a
    property of everything that is remembered and recorded. */
module Provenance {
  import opened Saturating
  import opened Stats
  import opened Attribution

  type Property = string -> bool

  ghost predicate Remembers(ok: Property, paths: map<FdKey, string>) { forall k :: k in paths ==> ok(paths[k]) }

  ghost predicate Finds(ok: Property, r: PathResolution) { !r.Ignored? ==> ok(r.path) }

  /** Everything resolves to paths with the property. */
  ghost predicate Gives(ok: Property, w: World) {
    && (forall key, root :: Finds(ok, w.existing(key, root)))
    && (forall call, root :: Finds(ok, w.open(call, root)))
  }

  /** `s` is a path with the property, decorated with `name`. */
  ghost predicate Decorates(ok: Property, name: Option<string>, s: string) {
    exists p :: ok(p) && s == Decorate(name, p)
  }

  ghost predicate Emits(ok: Property, u: Update) {
    u.activity.Some? ==> Decorates(ok, u.activity.value.container, u.activity.value.path)
  }

  ghost predicate Keeps(ok: Property, plan: Plan) { Remembers(ok, plan.stores) && Emits(ok, plan.update) }

  lemma CreditKeeps(ok: Property, w: World, pid: u32, sight: Sight, path: string, stores: map<FdKey, string>,
                    usesRoot: bool, failures: nat, stats: NodeStats, bytes: Option<u64>)
    requires Remembers(ok, stores) && ok(path)
    ensures Keeps(ok, Credit(w, pid, sight, path, stores, usesRoot, failures, stats, bytes))
  {
    hide Decorate;
  }

  lemma FoundHas(ok: Property, w: World, key: FdKey, sight: Sight)
    requires Gives(ok, w) && (sight.path.Some? ==> ok(sight.path.value))
    ensures Finds(ok, LookUp(w, key, sight))
  {
  }

  lemma OpenedHas(ok: Property, w: World, call: OpenCall, root: ContainerRoot)
    requires Gives(ok, w)
    ensures Finds(ok, w.open(call, root))
  {
  }

  lemma GroupPlanKeeps(ok: Property, w: World, g: IoGroup, sight: Sight)
    requires Gives(ok, w) && (sight.path.Some? ==> ok(sight.path.value))
    ensures Keeps(ok, GroupPlan(w, g, sight))
  {
    hide Credit, GroupStats, Decorates, Gives;
    var key, missed := Fd(g.key), sight.path.None?;
    var found := LookUp(w, key, sight);
    FoundHas(ok, w, key, sight);
    if !found.Ignored? {
      CreditKeeps(ok, w, g.key.pid, sight, found.path, if missed then map[key := found.path] else map[],
                  missed && w.existingUsesRoot(key), if found.Unresolved? then 1 else 0, GroupStats(g), Some(g.bytes));
    }
  }

  lemma EventPlanKeeps(ok: Property, w: World, e: Lifecycle, sight: Sight)
    requires Gives(ok, w) && (sight.path.Some? ==> ok(sight.path.value))
    ensures Keeps(ok, EventPlan(w, e, sight))
  {
    hide Credit, ForOperations, Decorates, Gives;
    if e.Opened? {
      var found, key := w.open(e.call, sight.root), FdKey(e.call.pid, e.call.fd);
      OpenedHas(ok, w, e.call, sight.root);
      if !found.Ignored? {
        CreditKeeps(ok, w, e.call.pid, sight, found.path, map[key := found.path], w.openUsesRoot(e.call),
                    if found.Unresolved? then 1 else 0, ForOperations(Open, 0, 1, 0, 0), None);
      }
    } else if e.Closed? && sight.path.Some? {
      CreditKeeps(ok, w, e.pid, sight, sight.path.value, map[], false, 0, ForOperations(Close, 0, 1, 0, 0), None);
    } else if e.Duplicated? {
      FoundHas(ok, w, FdKey(e.pid, e.oldFd), sight);
    }
  }

  lemma FilledKeeps(ok: Property, w: World, m: Memory, pid: u32, plan: Plan)
    requires Remembers(ok, m.paths) && Remembers(ok, plan.stores)
    ensures Remembers(ok, Filled(w, m, pid, plan).paths)
  {
  }

  /** Recording a group keeps the property and records only paths with it. */
  lemma GroupKeeps(ok: Property, w: World, m: Memory, g: IoGroup)
    requires Gives(ok, w) && Remembers(ok, m.paths)
    ensures Emits(ok, GroupStep(w, m, g).update) && Remembers(ok, GroupStep(w, m, g).memory.paths)
  {
    hide GroupPlan, Gives, Decorates, Filled;
    var sight := SightOf(w, m, Fd(g.key));
    GroupPlanKeeps(ok, w, g, sight);
    FilledKeeps(ok, w, m, g.key.pid, GroupPlan(w, g, sight));
  }

  lemma DropKeeps(ok: Property, m: Memory, e: Lifecycle)
    requires Remembers(ok, m.paths)
    ensures Remembers(ok, Kept(m, e).paths)
  {
    hide Drops;
  }

  /** So does every lifecycle event. */
  lemma EventKeeps(ok: Property, w: World, m: Memory, e: Lifecycle)
    requires Gives(ok, w) && Remembers(ok, m.paths)
    ensures Emits(ok, EventStep(w, m, e).update) && Remembers(ok, EventStep(w, m, e).memory.paths)
  {
    hide EventPlan, Gives, Decorates, Filled, Kept;
    var sight := SightOf(w, m, Subject(e));
    EventPlanKeeps(ok, w, e, sight);
    DropKeeps(ok, m, e);
    FilledKeeps(ok, w, Kept(m, e), ProcessOf(e), EventPlan(w, e, sight));
  }
}
