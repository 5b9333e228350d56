/** Canonical spellings of places, decorated with container names, and the exclusion of
    subtrees (`decorate_path` and `is_excluded` in `ncda/src/tui/app.rs`). */
module Spelling {
  import opened Saturating
  import opened Paths
  import opened Render
  import opened Normalize
  import opened Attribution

  /** Absolute, without empty components and without a trailing slash. */
  predicate Canonical(path: string) {
    path == "/" || (path != "" && path[0] == '/' && "" !in Split(path[1..], '/'))
  }

  lemma {:induction false} AllNonEmpty<T>(pieces: seq<seq<T>>)
    requires [] !in pieces
    ensures NonEmpty(pieces) == pieces
  {
    if pieces != [] { AllNonEmpty(pieces[1..]); }
  }

  lemma AfterSlash(rest: string)
    ensures Components("/" + rest) == Components(rest)
  {
    SplitNext('/', rest, '/');
    assert "/" + rest == ['/'] + rest;
    assert ([""] + Split(rest, '/'))[1..] == Split(rest, '/');
  }

  /** A canonical spelling can be rebuilt from its components. */
  lemma CanonicalRebuilds(path: string)
    requires Canonical(path)
    ensures path == "/" + Join(Components(path), '/')
  {
    assert path == "/" + path[1..];
    AfterSlash(path[1..]);
    if path == "/" {
      SplitNothing('/');
    } else {
      AllNonEmpty(Split(path[1..], '/'));
      JoinSplit(path[1..], '/');
    }
  }

  lemma {:induction false} PathOfInjective(a: seq<string>, b: seq<string>)
    requires PathOf(a) == PathOf(b)
    ensures a == b
    decreases |a|
  {
    if a != [] {
      PathOfInjective(a[..|a| - 1], b[..|b| - 1]);
      assert a == a[..|a| - 1] + [a[|a| - 1]];
      assert b == b[..|b| - 1] + [b[|b| - 1]];
    }
  }

  /** Every place has one canonical spelling. */
  lemma CanonicalUnique(s: string, t: string)
    requires Canonical(s) && Canonical(t)
    ensures Place(s) == Place(t) <==> s == t
  {
    CanonicalRebuilds(s);
    CanonicalRebuilds(t);
    if Place(s) == Place(t) { PathOfInjective(Components(s), Components(t)); }
  }

  lemma RootIffNone(path: string)
    requires Canonical(path)
    ensures path == "/" <==> Components(path) == []
  {
    CanonicalRebuilds(path);
    if path == "/" {
      AfterSlash("");
      NoComponents();
    }
  }

  lemma SplitHead(rest: string)
    requires rest != "" && rest[0] == '/'
    ensures "" in Split(rest, '/')
  {
    assert Split(rest, '/')[0] == "";
  }

  lemma CanonicalSingleSlash(path: string)
    requires Canonical(path)
    ensures path != "" && path[0] == '/' && !("//" <= path)
  {
    var rest := path[1..];
    if rest != "" {
      assert "//" <= path <==> rest[0] == '/';
      if rest[0] != '/' || path == "/" { return; }
      SplitHead(rest);
    }
  }

  // --- Rendered paths ---

  function DisplayAll(components: seq<Bytes>): (r: seq<string>)
    ensures |r| == |components|
  {
    if components == [] then [] else [Display(components[0])] + DisplayAll(components[1..])
  }

  lemma {:induction false} DisplayedAt(components: seq<Bytes>, i: nat)
    requires i < |components|
    ensures DisplayAll(components)[i] == Display(components[i])
  {
    if i > 0 { DisplayedAt(components[1..], i - 1); }
  }

  lemma {:induction false} DisplayJoin(components: seq<Bytes>)
    ensures Display(Join(components, SLASH)) == Join(DisplayAll(components), '/')
  {
    hide Display;
    if components == [] {
      DisplayNothing();
    } else if |components| > 1 {
      var rest := components[1..];
      DisplayJoin(rest);
      DisplayAtSlash(components[0], Join(rest, SLASH));
      assert DisplayAll(components)[1..] == DisplayAll(rest);
    }
  }

  lemma {:induction false} NoSlashShown(b: Bytes)
    requires SLASH !in b
    ensures '/' !in Display(b)
    ensures b != [] ==> Display(b) != ""
    decreases |b|
  {
    if b == [] {
      DisplayNothing();
    } else {
      hide *;
      DisplayNext(b);
      FrontPrintable(b);
      FrontShown(b);
      NoSlashShown(b[Taken(b)..]);
    }
  }

  lemma FrontShown(b: Bytes)
    requires b != []
    ensures Front(b) != ""
    ensures 0 < Taken(b) <= |b|
    ensures SLASH !in b ==> b[0] != 0x2F && SLASH !in b[Taken(b)..]
  {
    hide CodePoint, BadLength, Width;
    if Width(b) > 0 {
      EncodeDecodes(b);
    }
  }

  ghost predicate Pieces(pieces: seq<string>) {
    forall i :: 0 <= i < |pieces| ==> pieces[i] != "" && '/' !in pieces[i]
  }

  lemma CleanShown(components: seq<Bytes>)
    requires AllClean(components)
    ensures Pieces(DisplayAll(components))
  {
    forall i | 0 <= i < |components|
      ensures DisplayAll(components)[i] != "" && '/' !in DisplayAll(components)[i]
    {
      DisplayedAt(components, i);
      assert Clean(components[i]);
      NoSlashShown(components[i]);
    }
  }

  lemma CanonicalPieces(pieces: seq<string>)
    requires Pieces(pieces)
    ensures Canonical("/" + Join(pieces, '/')) && Components("/" + Join(pieces, '/')) == pieces
  {
    AfterSlash(Join(pieces, '/'));
    if pieces == [] {
      SplitNothing('/');
    } else {
      SplitJoin(pieces, '/');
      AllNonEmpty(pieces);
      assert ("/" + Join(pieces, '/'))[1..] == Join(pieces, '/');
    }
  }

  lemma AbsoluteShown(path: Bytes)
    ensures Display(Absolute(path)) == "/" + Join(DisplayAll(NormalComponents(path)), '/')
  {
    DisplayAtSlash([], Relative(path));
    DisplayNothing();
    assert [] + [0x2F] + Relative(path) == Absolute(path);
    DisplayJoin(NormalComponents(path));
  }

  /** The rendering of a normalized absolute path is a canonical spelling. */
  lemma ShownCanonical(path: Bytes)
    ensures Canonical(Display(Absolute(path)))
    ensures Components(Display(Absolute(path))) == DisplayAll(NormalComponents(path))
  {
    hide *;
    NormalIsClean(path);
    CleanShown(NormalComponents(path));
    AbsoluteShown(path);
    CanonicalPieces(DisplayAll(NormalComponents(path)));
  }

  /** Two paths land on one node of the tree exactly when their normal forms are equal. */
  lemma SameNodeIffSameNormalForm(a: Bytes, b: Bytes)
    ensures Place(Display(Absolute(a))) == Place(Display(Absolute(b))) <==> Absolute(a) == Absolute(b)
  {
    hide *;
    ShownCanonical(a);
    ShownCanonical(b);
    CanonicalUnique(Display(Absolute(a)), Display(Absolute(b)));
    if Display(Absolute(a)) == Display(Absolute(b)) { DisplayInjective(Absolute(a), Absolute(b)); }
  }

  // --- Container names ---

  lemma DecoratedComponents(name: Option<string>, path: string)
    requires Canonical(path)
    ensures Components(Decorate(name, path))
         == (if name.Some? then Components("/[" + name.value + "]") else []) + Components(path)
    ensures !("//" <= Decorate(name, path)) && Decorate(name, path) != ""
  {
    CanonicalSingleSlash(path);
    if name.Some? {
      var front := "/[" + name.value + "]";
      SplitAt(front, path[1..], '/');
      assert front + path == front + ['/'] + path[1..];
      NonEmptyConcat(Split(front, '/'), Split(path[1..], '/'));
      AfterSlash(path[1..]);
      assert "/" + path[1..] == path;
      assert (front + path)[1] == '[';
    }
  }

  lemma {:induction false} NonEmptyConcat<T>(a: seq<seq<T>>, b: seq<seq<T>>)
    ensures NonEmpty(a + b) == NonEmpty(a) + NonEmpty(b)
  {
    hide NonEmpty;
    if a == [] {
      assert a + b == b;
      NonEmptyNothing<T>();
    } else {
      NonEmptyNext(a);
      NonEmptyNext(a + b);
      NonEmptyConcat(a[1..], b);
      assert (a + b)[1..] == a[1..] + b;
    }
  }

  lemma NonEmptyNothing<T>()
    ensures NonEmpty<T>([]) == []
  {
  }

  lemma NonEmptyNext<T>(pieces: seq<seq<T>>)
    requires pieces != []
    ensures NonEmpty(pieces) == (if pieces[0] == [] then [] else [pieces[0]]) + NonEmpty(pieces[1..])
  {
  }

  /** Decoration keeps canonical spellings of different places apart. */
  lemma DecoratedUnique(name: Option<string>, s: string, t: string)
    requires Canonical(s) && Canonical(t)
    ensures Place(Decorate(name, s)) == Place(Decorate(name, t)) <==> s == t
  {
    hide Decorate, Components, Canonical;
    DecoratedComponents(name, s);
    DecoratedComponents(name, t);
    if Place(Decorate(name, s)) == Place(Decorate(name, t)) {
      var front := if name.Some? then Components("/[" + name.value + "]") else [];
      PathOfInjective(Components(Decorate(name, s)), Components(Decorate(name, t)));
      assert (front + Components(s))[|front|..] == Components(s);
      assert (front + Components(t))[|front|..] == Components(t);
      CanonicalUnique(s, t);
    }
  }

  /** A container's activity is kept below a directory of its own at the top. */
  lemma DecoratedBelow(name: string, path: string)
    requires name != "" && '/' !in name
    ensures Components(Decorate(Some(name), "/" + path)) == ["[" + name + "]"] + Components(path)
    ensures Decorate(None, path) == path
  {
    var top := "/[" + name + "]";
    assert Decorate(Some(name), "/" + path) == top + ['/'] + path;
    ComponentsAt(top, path);
    AfterSlash("[" + name + "]");
    assert top == "/" + ("[" + name + "]");
    SplitWhole("[" + name + "]", '/');
    assert NonEmpty(["[" + name + "]"]) == ["[" + name + "]"] by { assert ["[" + name + "]"][1..] == []; }
  }

  // --- Exclusion ---

  /** `trim_end_matches('/')`. */
  function Trimmed(prefix: string): (r: string)
    ensures r == "" || r[|r| - 1] != '/'
  {
    if prefix != "" && prefix[|prefix| - 1] == '/' then Trimmed(prefix[..|prefix| - 1]) else prefix
  }

  predicate Excludes(prefix: string, path: string) {
    var p := Trimmed(prefix);
    path == p || (p <= path && |p| < |path| && path[|p|] == '/')
  }

  /** `is_excluded`. */
  predicate IsExcluded(prefixes: seq<string>, path: string) {
    exists i :: 0 <= i < |prefixes| && Excludes(prefixes[i], path)
  }

  lemma {:induction false} AboveIffPrefix(a: seq<string>, b: seq<string>)
    ensures Above(PathOf(a), PathOf(b)) <==> a <= b
    decreases |b|
  {
    if a <= b {
      PrefixIsAbove(b, |a|);
      assert b[..|a|] == a;
    } else if Above(PathOf(a), PathOf(b)) {
      if PathOf(a) == PathOf(b) {
        PathOfInjective(a, b);
      } else {
        AboveIffPrefix(a, b[..|b| - 1]);
      }
    }
  }

  lemma {:induction false} JoinConcat(a: seq<string>, b: seq<string>)
    requires a != [] && b != []
    ensures Join(a + b, '/') == Join(a, '/') + "/" + Join(b, '/')
  {
    assert (a + b)[1..] == a[1..] + b;
    if |a| > 1 { JoinConcat(a[1..], b); }
  }

  lemma PrefixStrings(p: string, path: string)
    requires Canonical(p) && p != "/" && Canonical(path)
    ensures (path == p || (p <= path && |p| < |path| && path[|p|] == '/')) <==> Components(p) <= Components(path)
  {
    hide Canonical, Components;
    var a, b := Components(p), Components(path);
    CanonicalRebuilds(p);
    CanonicalRebuilds(path);
    RootIffNone(p);
    if p <= path && |p| < |path| && path[|p|] == '/' {
      var rest := path[|p| + 1..];
      assert path == p + ['/'] + rest;
      ComponentsAt(p, rest);
    }
    if a <= b && a != b {
      var more := b[|a|..];
      assert b == a + more;
      JoinConcat(a, more);
      assert path == p + "/" + Join(more, '/');
    }
  }

  lemma ComponentsAt(a: string, b: string)
    ensures Components(a + ['/'] + b) == Components(a) + Components(b)
  {
    SplitAt(a, b, '/');
    NonEmptyConcat(Split(a, '/'), Split(b, '/'));
  }

  /** Excluding a prefix excludes exactly the subtree of the place it names. */
  lemma ExclusionIsSubtree(prefix: string, path: string)
    requires Canonical(path) && (Trimmed(prefix) == "" || Canonical(Trimmed(prefix)))
    ensures Excludes(prefix, path) <==> Above(Place(prefix), Place(path))
  {
    TrimmedPlace(prefix);
    CanonicalSingleSlash(path);
    AboveIffPrefix(Components(Trimmed(prefix)), Components(path));
    hide Components, Canonical;
    if Trimmed(prefix) == "" {
      NoComponents();
    } else {
      PrefixStrings(Trimmed(prefix), path);
    }
  }

  /** The canonical spelling of the place that a text names. */
  function Respelled(text: string): string { "/" + Join(Components(text), '/') }

  lemma {:induction false} NonEmptyPieces<T>(pieces: seq<seq<T>>, sep: T)
    requires forall i :: 0 <= i < |pieces| ==> sep !in pieces[i]
    ensures forall i :: 0 <= i < |NonEmpty(pieces)| ==> NonEmpty(pieces)[i] != [] && sep !in NonEmpty(pieces)[i]
  {
    if pieces != [] { NonEmptyPieces(pieces[1..], sep); }
  }

  lemma RespelledCanonical(text: string)
    ensures Canonical(Respelled(text)) && Components(Respelled(text)) == Components(text)
  {
    JoinSplit(text, '/');
    NonEmptyPieces(Split(text, '/'), '/');
    hide Canonical, Split, Join;
    CanonicalPieces(Components(text));
  }

  /** What precedes a slash in a canonical spelling is empty or canonical itself. */
  lemma CanonicalFront(p: string, rest: string)
    requires Canonical(p + "/" + rest)
    ensures p == "" || Canonical(p)
  {
    var path := p + ['/'] + rest;
    if p != "" {
      assert path[1..] == p[1..] + ['/'] + rest;
      SplitAt(p[1..], rest, '/');
      assert p[0] == path[0];
      hide Split, Join;
      assert forall piece :: piece in Split(p[1..], '/') ==> piece in Split(path[1..], '/');
    }
  }

  /** A prefix that is neither empty nor canonical once trimmed does not exclude the place
      that it names. */
  lemma SloppyPrefixMisses(prefix: string)
    requires Trimmed(prefix) != "" && !Canonical(Trimmed(prefix))
    ensures var path := Respelled(prefix);
            Canonical(path) && Place(path) == Place(prefix) && !Excludes(prefix, path)
  {
    var p, path := Trimmed(prefix), Respelled(prefix);
    RespelledCanonical(prefix);
    hide Canonical, Components, Respelled, Trimmed;
    if p <= path && |p| < |path| && path[|p|] == '/' {
      assert path == p + "/" + path[|p| + 1..];
      CanonicalFront(p, path[|p| + 1..]);
    }
  }

  /** A prefix excludes exactly the subtree of the place it names, for all canonical paths,
      if and only if it is empty or canonical once trailing slashes are trimmed. */
  lemma ExclusionIsSubtreeIff(prefix: string)
    ensures (forall path :: Canonical(path) ==> (Excludes(prefix, path) <==> Above(Place(prefix), Place(path))))
       <==> Trimmed(prefix) == "" || Canonical(Trimmed(prefix))
  {
    hide Canonical, Excludes, Place, Trimmed, Respelled, Above;
    if Trimmed(prefix) == "" || Canonical(Trimmed(prefix)) {
      forall path | Canonical(path)
        ensures Excludes(prefix, path) <==> Above(Place(prefix), Place(path))
      {
        ExclusionIsSubtree(prefix, path);
      }
    } else {
      SloppyPrefixMisses(prefix);
      AboveItself(Place(prefix));
    }
  }

  lemma AboveItself(p: Path)
    ensures Above(p, p)
  {
  }

  /** A path is excluded exactly when it lies below the place that some prefix names, as long
      as the prefixes are empty or canonical without trailing slashes. */
  lemma ExcludedIffBelow(prefixes: seq<string>, path: string)
    requires Canonical(path)
    requires forall i :: 0 <= i < |prefixes| ==> Trimmed(prefixes[i]) == "" || Canonical(Trimmed(prefixes[i]))
    ensures IsExcluded(prefixes, path) <==> exists i :: 0 <= i < |prefixes| && Above(Place(prefixes[i]), Place(path))
  {
    hide Canonical, Excludes, Place, Trimmed, Above;
    forall i | 0 <= i < |prefixes|
      ensures Excludes(prefixes[i], path) <==> Above(Place(prefixes[i]), Place(path))
    {
      ExclusionIsSubtree(prefixes[i], path);
    }
  }

  /** For instance, `/a//b` names the place of `/a/b` and does not exclude it. */
  lemma DoubledPrefixMisses()
    ensures Place("/a//b") == Place("/a/b") && Canonical("/a/b") && !Excludes("/a//b", "/a/b")
  {
    hide Components, Canonical;
    OneName("a");
    OneName("b");
    ComponentsAt("/a", "/b");
    ComponentsAt("/a", "b");
    assert "/" + "a" == "/a" && "/" + "b" == "/b";
    assert "/a" + ['/'] + "/b" == "/a//b" && "/a" + ['/'] + "b" == "/a/b";
    assert "/" + ("a" + ['/'] + "b") == "/a/b";
    TwoNames("a", "b");
  }

  lemma TwoNames(a: string, b: string)
    requires a != "" && '/' !in a && b != "" && '/' !in b
    ensures Canonical("/" + (a + ['/'] + b))
  {
    hide Canonical;
    var pieces := [a, b];
    CanonicalPieces(pieces);
    assert pieces[1..] == [b];
  }

  lemma OneName(name: string)
    requires name != "" && '/' !in name
    ensures Components(name) == [name] && Components("/" + name) == [name]
  {
    AfterSlash(name);
    SplitWhole(name, '/');
    AllNonEmpty([name]);
  }

  lemma NoComponents()
    ensures Components("") == []
  {
    SplitNothing('/');
  }

  lemma {:induction false} TrimmedPlace(prefix: string)
    ensures Components(Trimmed(prefix)) == Components(prefix)
  {
    if prefix != "" && prefix[|prefix| - 1] == '/' {
      var rest := prefix[..|prefix| - 1];
      TrimmedPlace(rest);
      ComponentsAt(rest, "");
      NoComponents();
      assert prefix == rest + ['/'] + "";
    }
  }
}
