/** Slash-separated paths: splitting, joining and the components of a path. */
module Paths {
  /** A place in the activity tree, named by the components leading to it. */
  datatype Path = Root | Child(parent: Path, name: string)

  /** `p` lies on the way from the root to `q`, ends included. */
  predicate Above(p: Path, q: Path) {
    p == q || (q.Child? && Above(p, q.parent))
  }

  function Ancestors(p: Path): (s: set<Path>)
    ensures forall q :: q in s <==> Above(q, p)
  {
    match p
    case Root => {Root}
    case Child(parent, _) => Ancestors(parent) + {p}
  }

  function Depth(p: Path): nat {
    match p
    case Root => 0
    case Child(parent, _) => 1 + Depth(parent)
  }

  lemma AboveIsShallower(p: Path, q: Path)
    requires Above(p, q)
    ensures Depth(p) <= Depth(q)
    ensures Depth(p) == Depth(q) ==> p == q
  {
  }

  lemma AboveTransitive(p: Path, q: Path, r: Path)
    requires Above(p, q) && Above(q, r)
    ensures Above(p, r)
  {
  }

  lemma RootAbove(p: Path)
    ensures Above(Root, p)
  {
  }

  function PathOf(components: seq<string>): (p: Path)
    ensures Depth(p) == |components|
  {
    if components == [] then Root
    else Child(PathOf(components[..|components| - 1]), components[|components| - 1])
  }

  lemma {:induction false} PrefixIsAbove(components: seq<string>, i: nat)
    requires i <= |components|
    ensures Above(PathOf(components[..i]), PathOf(components))
  {
    if i == |components| {
      assert components[..i] == components;
    } else {
      var shorter := components[..|components| - 1];
      PrefixIsAbove(shorter, i);
      assert shorter[..i] == components[..i];
    }
  }

  /** `slice::split` / `str::split`: never empty, and keeps empty pieces. */
  function Split<T(==)>(s: seq<T>, sep: T): (pieces: seq<seq<T>>)
    ensures |pieces| >= 1
  {
    if s == [] then [[]]
    else
      var rest := Split(s[1..], sep);
      if s[0] == sep then [[]] + rest else [[s[0]] + rest[0]] + rest[1..]
  }

  function NonEmpty<T>(pieces: seq<seq<T>>): (kept: seq<seq<T>>)
    ensures [] !in kept
  {
    if pieces == [] then []
    else if |pieces[0]| == 0 then NonEmpty(pieces[1..])
    else [pieces[0]] + NonEmpty(pieces[1..])
  }

  /** `path.split('/').filter(|c| !c.is_empty())`. */
  function Components(path: string): seq<string> { NonEmpty(Split(path, '/')) }

  /** The place that a path string denotes. */
  function Place(path: string): Path { PathOf(Components(path)) }

  /** Only slashes name the root itself. */
  lemma {:induction false} NamesRoot(path: string)
    ensures Place(path) == Root <==> forall i :: 0 <= i < |path| ==> path[i] == '/'
  {
    if path != "" {
      NamesRoot(path[1..]);
      var rest := Split(path[1..], '/');
      if path[0] == '/' {
        assert ([[]] + rest)[1..] == rest;
        assert forall i :: 0 < i < |path| ==> path[i] == path[1..][i - 1];
      }
    }
  }
}
