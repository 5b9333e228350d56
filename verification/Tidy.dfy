/** The spellings in the reverse index: whatever it contains, what is added while descriptors
    resolve to canonical spellings is determined by the tree. */
module Tidying {
  import opened Saturating
  import opened Paths
  import opened Tree
  import opened TreeLaws
  import opened Attribution
  import opened Spelling
  import opened Provenance

  ghost predicate Tidy(r: PathResolution) { Finds(Canonical, r) }

  lemma TidyIs(r: PathResolution)
    ensures Tidy(r) <==> (!r.Ignored? ==> Canonical(r.path))
  {
  }

  /** Everything resolves to canonical spellings. */
  ghost predicate TidyWorld(w: World) { Gives(Canonical, w) }

  ghost predicate TidyPaths(paths: map<FdKey, string>) { Remembers(Canonical, paths) }

  type Names = map<u32, Option<string>>

  type Index = map<u32, set<string>>

  /** What an event leaves of an index that was there before. */
  function BaseAfter(base: Index, e: Lifecycle): Index { if Ends(e) then base - {ProcessOf(e)} else base }

  /** The index still has all of `base`, and everything else in it is a canonical spelling
      under the name that is remembered for its process. */
  ghost predicate Grown(base: Index, index: Index, names: Names) {
    && (forall pid, s :: Spells(base, pid, s) ==> Spells(index, pid, s))
    && (forall pid, s :: Spells(index, pid, s) && !Spells(base, pid, s) ==>
          pid in names && Decorates(Canonical, names[pid], s))
  }

  /** Every index has grown from itself. */
  lemma GrownSelf(index: Index, names: Names)
    ensures Grown(index, index, names)
  {
  }

  lemma GrownRecorded(base: Index, nodes: Nodes, index: Index, names: Names, path: string, pid: u32)
    requires Grown(base, index, names) && Canonical(path) && pid in names
    ensures Grown(base, Reindexed(nodes, index, Decorate(names[pid], path), pid), names)
  {
    hide Canonical, Decorate, Place;
    var s := Decorate(names[pid], path);
    assert Decorates(Canonical, names[pid], s);
    var after := Reindexed(nodes, index, s, pid);
    forall q, t
      ensures Spells(index, q, t) ==> Spells(after, q, t)
      ensures Spells(after, q, t) ==> Spells(index, q, t) || (q == pid && t == s)
    {
    }
    hide Decorates, Reindexed, Spells;
  }

  lemma GrownNamed(base: Index, index: Index, names: Names, source: u32 -> Option<string>, pid: u32, used: bool)
    requires Grown(base, index, names)
    ensures Grown(base, index, Memoized(names, source, pid, used))
    ensures used ==> pid in Memoized(names, source, pid, used)
    ensures used ==> Memoized(names, source, pid, used)[pid] == Recall(names, source, pid)
  {
    hide Decorates, Spells;
  }

  lemma GrownEnded(base: Index, index: Index, names: Names, pid: u32)
    requires Grown(base, index, names)
    ensures Grown(base - {pid}, index - {pid}, names - {pid})
  {
    hide Decorates;
    assert forall q, s :: Spells(index - {pid}, q, s) <==> Spells(index, q, s) && q != pid;
    assert forall q, s :: Spells(base - {pid}, q, s) <==> Spells(base, q, s) && q != pid;
  }

  lemma TidyLookUp(w: World, paths: map<FdKey, string>, key: FdKey, sight: Sight)
    requires TidyWorld(w) && TidyPaths(paths) && sight.path == (if key in paths then Some(paths[key]) else None)
    ensures var found := LookUp(w, key, sight);
            !found.Ignored? ==> Canonical(found.path) && TidyPaths(paths[key := found.path])
  {
    hide Canonical;
    if key !in paths { assert Tidy(w.existing(key, sight.root)); }
  }

  lemma TidyKept(paths: map<FdKey, string>, e: Lifecycle)
    requires TidyPaths(paths)
    ensures TidyPaths(KeptPaths(paths, e))
  {
    hide Canonical, Drops;
  }

  lemma TidyStored(paths: map<FdKey, string>, key: FdKey, path: string)
    requires TidyPaths(paths) && Canonical(path)
    ensures TidyPaths(paths[key := path])
  {
    hide Canonical;
  }

  lemma TidyDropped(paths: map<FdKey, string>, key: FdKey)
    requires TidyPaths(paths)
    ensures TidyPaths(paths - {key})
  {
    hide Canonical;
  }

  lemma TidyOpened(w: World, call: OpenCall, root: ContainerRoot)
    requires TidyWorld(w)
    ensures !w.open(call, root).Ignored? ==> Canonical(w.open(call, root).path)
  {
    hide Canonical;
    assert Tidy(w.open(call, root));
  }

  /** Two indexes of one tree that have grown from the same base spell common leaves alike. */
  lemma GrownSame(nodes: Nodes, names: Names, base: Index, index: Index, index': Index)
    requires Grown(base, index, names) && IndexesLeaves(nodes, index)
    requires Grown(base, index', names) && IndexesLeaves(nodes, index')
    ensures SameSpellings(index, index')
  {
    forall pid, s, t | Spells(index, pid, s) && Spells(index', pid, t) && Place(s) == Place(t)
      ensures s == t
    {
      hide Canonical, Decorate, Place, Spells;
      if !Spells(base, pid, s) && !Spells(base, pid, t) {
        var p :| Canonical(p) && s == Decorate(names[pid], p);
        var q :| Canonical(q) && t == Decorate(names[pid], q);
        DecoratedUnique(names[pid], p, q);
      }
    }
  }

  /** So they are equal, references included. */
  lemma GrownDetermined(nodes: Nodes, names: Names, base: Index, index: Index, active: map<string, u64>,
                        index': Index, active': map<string, u64>)
    requires Grown(base, index, names) && IndexesLeaves(nodes, index) && CountsHolders(index, active)
    requires Grown(base, index', names) && IndexesLeaves(nodes, index') && CountsHolders(index', active')
    ensures index == index' && active == active'
  {
    hide *;
    GrownSame(nodes, names, base, index, index');
    IndexDetermined(nodes, index, active, index', active');
  }
}
