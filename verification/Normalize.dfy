/** Lexical normalization of pathname bytes (`normalize_relative_path` and
    `normalize_absolute_path` in `ncda/src/bpf.rs`). */
module Normalize {
  import opened Saturating
  import opened Paths

  const SLASH: u8 := 0x2F
  const DOT: Bytes := [0x2E]
  const DOT_DOT: Bytes := [0x2E, 0x2E]

  // --- Splitting and joining ---

  function Join<T>(pieces: seq<seq<T>>, sep: T): seq<T> {
    if pieces == [] then []
    else if |pieces| == 1 then pieces[0]
    else pieces[0] + [sep] + Join(pieces[1..], sep)
  }

  lemma {:induction false} JoinLast<T>(pieces: seq<seq<T>>, last: seq<T>, sep: T)
    requires pieces != []
    ensures Join(pieces + [last], sep) == Join(pieces, sep) + [sep] + last
  {
    var all := pieces + [last];
    if |pieces| == 1 {
      assert all[1..] == [last];
    } else {
      JoinLast(pieces[1..], last, sep);
      assert all[1..] == pieces[1..] + [last];
    }
  }

  lemma SplitNext<T>(first: T, rest: seq<T>, sep: T)
    ensures var pieces := Split(rest, sep);
            Split([first] + rest, sep) == if first == sep then [[]] + pieces else [[first] + pieces[0]] + pieces[1..]
  {
    assert ([first] + rest)[1..] == rest;
  }

  /** Putting one element in front of some pieces. */
  function InFront<T(==)>(first: T, pieces: seq<seq<T>>, sep: T): seq<seq<T>>
    requires pieces != []
  {
    if first == sep then [[]] + pieces else [[first] + pieces[0]] + pieces[1..]
  }

  lemma InFrontOfBoth<T>(first: T, x: seq<seq<T>>, y: seq<seq<T>>, sep: T)
    requires x != []
    ensures InFront(first, x + y, sep) == InFront(first, x, sep) + y
  {
    assert (x + y)[0] == x[0] && (x + y)[1..] == x[1..] + y;
  }

  lemma SplitInFront<T>(first: T, rest: seq<T>, sep: T)
    ensures Split([first] + rest, sep) == InFront(first, Split(rest, sep), sep)
  {
    SplitNext(first, rest, sep);
  }

  lemma {:induction false} SplitAt<T>(a: seq<T>, b: seq<T>, sep: T)
    ensures Split(a + [sep] + b, sep) == Split(a, sep) + Split(b, sep)
  {
    hide Split, InFront;
    if a == [] {
      SplitNext(sep, b, sep);
      assert a + [sep] + b == [sep] + b;
      SplitNothing(sep);
    } else {
      var rest := a[1..] + [sep] + b;
      SplitAt(a[1..], b, sep);
      SplitInFront(a[0], a[1..], sep);
      SplitInFront(a[0], rest, sep);
      InFrontOfBoth(a[0], Split(a[1..], sep), Split(b, sep), sep);
      assert a == [a[0]] + a[1..] && a + [sep] + b == [a[0]] + rest;
    }
  }

  lemma SplitNothing<T>(sep: T)
    ensures Split([], sep) == [[]]
  {
  }

  lemma {:induction false} SplitWhole<T>(s: seq<T>, sep: T)
    requires sep !in s
    ensures Split(s, sep) == [s]
  {
    if s != [] {
      assert s[0] != sep && [s[0]] + s[1..] == s;
      SplitWhole(s[1..], sep);
    }
  }

  lemma {:induction false} SplitJoin<T>(pieces: seq<seq<T>>, sep: T)
    requires pieces != [] && forall i :: 0 <= i < |pieces| ==> sep !in pieces[i]
    ensures Split(Join(pieces, sep), sep) == pieces
  {
    SplitWhole(pieces[0], sep);
    if |pieces| > 1 {
      SplitJoin(pieces[1..], sep);
      SplitAt(pieces[0], Join(pieces[1..], sep), sep);
    }
  }

  lemma {:induction false} JoinSplit<T>(s: seq<T>, sep: T)
    ensures Join(Split(s, sep), sep) == s
    ensures forall i :: 0 <= i < |Split(s, sep)| ==> sep !in Split(s, sep)[i]
  {
    if s != [] {
      var rest := Split(s[1..], sep);
      JoinSplit(s[1..], sep);
      if s[0] == sep {
        assert ([[]] + rest)[1..] == rest;
      } else {
        assert ([[s[0]] + rest[0]] + rest[1..])[1..] == rest[1..];
      }
    }
  }

  // --- The stack of components ---

  function Pushed(stack: seq<Bytes>, component: Bytes): seq<Bytes> {
    if component == [] || component == DOT then stack
    else if component == DOT_DOT then (if stack == [] then [] else stack[..|stack| - 1])
    else stack + [component]
  }

  function PushedAll(stack: seq<Bytes>, components: seq<Bytes>): seq<Bytes> {
    if components == [] then stack
    else Pushed(PushedAll(stack, components[..|components| - 1]), components[|components| - 1])
  }

  function NormalComponents(path: Bytes): seq<Bytes> { PushedAll([], Split(path, SLASH)) }

  /** A path without empty, `.` and `..` components that names the same place lexically. */
  function Relative(path: Bytes): Bytes { Join(NormalComponents(path), SLASH) }

  function Absolute(path: Bytes): Bytes { [SLASH] + Relative(path) }

  predicate Clean(component: Bytes) {
    component != [] && component != DOT && component != DOT_DOT && SLASH !in component
  }

  ghost predicate AllClean(components: seq<Bytes>) { forall i :: 0 <= i < |components| ==> Clean(components[i]) }

  lemma {:induction false} PushedConcat(stack: seq<Bytes>, a: seq<Bytes>, b: seq<Bytes>)
    ensures PushedAll(stack, a + b) == PushedAll(PushedAll(stack, a), b)
    decreases |b|
  {
    if b == [] {
      assert a + b == a;
    } else {
      assert (a + b)[..|a + b| - 1] == a + b[..|b| - 1];
      PushedConcat(stack, a, b[..|b| - 1]);
    }
  }

  lemma {:induction false} PushedClean(stack: seq<Bytes>, components: seq<Bytes>)
    requires AllClean(stack) && forall i :: 0 <= i < |components| ==> SLASH !in components[i]
    ensures AllClean(PushedAll(stack, components))
    decreases |components|
  {
    if components != [] { PushedClean(stack, components[..|components| - 1]); }
  }

  lemma {:induction false} CleanStays(stack: seq<Bytes>, components: seq<Bytes>)
    requires AllClean(components)
    ensures PushedAll(stack, components) == stack + components
    decreases |components|
  {
    if components != [] {
      var rest := components[..|components| - 1];
      CleanStays(stack, rest);
      assert components == rest + [components[|components| - 1]];
    }
  }

  /** The components of a normalized path are clean and are found again by splitting it. */
  lemma NormalIsClean(path: Bytes)
    ensures AllClean(NormalComponents(path))
    ensures Relative(path) == [] <==> NormalComponents(path) == []
    ensures Relative(path) != [] ==> Split(Relative(path), SLASH) == NormalComponents(path)
    ensures NormalComponents(Relative(path)) == NormalComponents(path)
  {
    var components := NormalComponents(path);
    JoinSplit(path, SLASH);
    PushedClean([], Split(path, SLASH));
    if components == [] {
      assert NormalComponents([]) == [] by {
        assert Split<u8>([], SLASH) == [[]];
        assert PushedAll([], [[]]) == Pushed(PushedAll([], []), []);
      }
    } else {
      SplitJoin(components, SLASH);
      CleanStays([], components);
      assert Clean(components[0]);
    }
  }

  /** Normalizing twice is normalizing once. */
  lemma NormalizationIdempotent(path: Bytes)
    ensures Relative(Relative(path)) == Relative(path)
    ensures Absolute(Absolute(path)) == Absolute(path)
  {
    NormalIsClean(path);
    AbsoluteNormal(Relative(path));
    hide NormalComponents, PushedAll;
  }

  /** A slash in front changes nothing. */
  lemma AbsoluteNormal(path: Bytes)
    ensures NormalComponents([SLASH] + path) == NormalComponents(path)
  {
    var nothing: Bytes := [];
    hide Split, PushedAll, Pushed;
    SplitAt(nothing, path, SLASH);
    SplitNothing(SLASH);
    assert nothing + [SLASH] + path == [SLASH] + path;
    PushedConcat([], [nothing], Split(path, SLASH));
    PushedNothing();
  }

  lemma PushedNothing()
    ensures PushedAll([], [[]]) == []
  {
    assert PushedAll([], [[]]) == Pushed(PushedAll([], []), []);
  }

  /** A prefix may be normalized first. */
  lemma NormalizationComposes(a: Bytes, b: Bytes)
    ensures Relative(a + [SLASH] + b) == Relative(Relative(a) + [SLASH] + b)
  {
    NormalIsClean(a);
    SplitAt(a, b, SLASH);
    SplitAt(Relative(a), b, SLASH);
    PushedConcat([], Split(a, SLASH), Split(b, SLASH));
    PushedConcat([], Split(Relative(a), SLASH), Split(b, SLASH));
  }

  /** Exactly the paths of clean components are left alone. */
  lemma FixedIffClean(path: Bytes)
    ensures Relative(path) == path <==> path == [] || AllClean(Split(path, SLASH))
  {
    NormalIsClean(path);
    JoinSplit(path, SLASH);
    if path == [] {
      assert Split<u8>([], SLASH) == [[]];
      assert PushedAll([], [[]]) == Pushed(PushedAll([], []), []);
    } else if AllClean(Split(path, SLASH)) {
      CleanStays([], Split(path, SLASH));
      assert [] + Split(path, SLASH) == Split(path, SLASH);
    }
  }

  // --- What `.` and `..` mean ---

  lemma PushedOne(stack: seq<Bytes>, c: Bytes)
    ensures PushedAll(stack, [c]) == Pushed(stack, c)
  {
    assert PushedAll(stack, []) == stack && [c][..0] == [];
  }

  /** The components of a path are pushed in two parts, split at any slash. */
  lemma PushedAt(a: Bytes, b: Bytes)
    ensures NormalComponents(a + [SLASH] + b) == PushedAll(NormalComponents(a), Split(b, SLASH))
  {
    SplitAt(a, b, SLASH);
    PushedConcat([], Split(a, SLASH), Split(b, SLASH));
  }

  lemma PushedBetween(a: Bytes, c: Bytes, b: Bytes)
    requires SLASH !in c
    ensures NormalComponents(a + [SLASH] + (c + [SLASH] + b)) == PushedAll(Pushed(NormalComponents(a), c), Split(b, SLASH))
  {
    PushedAt(a, c + [SLASH] + b);
    SplitAt(c, b, SLASH);
    SplitWhole(c, SLASH);
    PushedConcat(NormalComponents(a), [c], Split(b, SLASH));
    PushedOne(NormalComponents(a), c);
  }

  lemma Regrouped(a: Bytes, c: Bytes, b: Bytes)
    ensures a + [SLASH] + c + [SLASH] + b == a + [SLASH] + (c + [SLASH] + b)
  {
  }

  /** `..` takes back the component before it. */
  lemma DotDotGoesUp(a: Bytes, c: Bytes, b: Bytes)
    requires c != [] && c != [0x2E] && c != [0x2E, 0x2E] && 0x2F !in c
    ensures Relative(a + [0x2F] + c + [0x2F, 0x2E, 0x2E] + [0x2F] + b) == Relative(a + [0x2F] + b)
  {
    var up: Bytes := [0x2E, 0x2E];
    var front := a + [SLASH] + c;
    assert a + [0x2F] + c + [0x2F, 0x2E, 0x2E] + [0x2F] + b == front + [SLASH] + (up + [SLASH] + b);
    PushedBetween(front, up, b);
    PushedAt(a, c);
    SplitWhole(c, SLASH);
    PushedOne(NormalComponents(a), c);
    PushedAt(a, b);
    assert (NormalComponents(a) + [c])[..|NormalComponents(a)|] == NormalComponents(a);
  }

  /** At the top there is nothing to take back. */
  lemma DotDotStaysAtTop(b: Bytes)
    ensures Relative([0x2E, 0x2E] + [0x2F] + b) == Relative(b)
  {
    var up: Bytes := [0x2E, 0x2E];
    NothingNormal();
    SplitWhole(up, SLASH);
    PushedOne([], up);
    PushedAt(up, b);
  }

  lemma NothingNormal()
    ensures NormalComponents([]) == []
  {
    SplitNothing(SLASH);
    PushedOne([], []);
  }

  /** An empty component or `.` means nothing, wherever it stands. */
  lemma EmptyAndDotMeanNothing(a: Bytes, c: Bytes, b: Bytes)
    requires c == [] || c == [0x2E]
    ensures Relative(a + [0x2F] + c + [0x2F] + b) == Relative(a + [0x2F] + b)
    ensures Relative(c + [0x2F] + b) == Relative(b)
    ensures Relative(a + [0x2F] + c) == Relative(a)
  {
    Regrouped(a, c, b);
    PushedBetween(a, c, b);
    PushedAt(a, b);
    PushedAt(a, c);
    PushedAt(c, b);
    SplitWhole(c, SLASH);
    PushedOne(NormalComponents(a), c);
    PushedOne([], c);
  }

  // --- The loops of normalization ---

  function Length(components: seq<Bytes>): nat {
    if components == [] then 0 else Length(components[..|components| - 1]) + |components[|components| - 1]|
  }

  lemma {:induction false} JoinLength(components: seq<Bytes>)
    ensures |Join(components, SLASH)| == Length(components) + Max(|components| - 1, 0)
    decreases |components|
  {
    if |components| > 1 {
      var rest, last := components[..|components| - 1], components[|components| - 1];
      JoinLength(rest);
      JoinLast(rest, last, SLASH);
      assert components == rest + [last];
    } else if |components| == 1 {
      assert components[..0] == [];
    }
  }

  /** Joins components: the capacity computed up front is the exact length. */
  method JoinComponents(components: seq<Bytes>) returns (normalized: Bytes, capacity: nat)
    ensures normalized == Join(components, SLASH) && |normalized| == capacity
  {
    capacity := Length(components) + Max(|components| - 1, 0);
    JoinLength(components);
    normalized := [];
    for i := 0 to |components|
      invariant normalized == Join(components[..i], SLASH)
    {
      if i > 0 {
        JoinLast(components[..i], components[i], SLASH);
        normalized := normalized + [SLASH];
      }
      assert components[..i + 1] == components[..i] + [components[i]];
      normalized := normalized + components[i];
    }
    assert components[..|components|] == components;
  }

  /** `normalize_relative_path`. */
  method NormalizeRelativePath(path: Bytes) returns (normalized: Bytes, capacity: nat)
    ensures normalized == Relative(path) && |normalized| == capacity
  {
    hide Split, Join;
    var pieces := Split(path, SLASH);
    var components: seq<Bytes> := [];
    for i := 0 to |pieces|
      invariant components == PushedAll([], pieces[..i])
    {
      assert pieces[..i + 1][..i] == pieces[..i];
      if pieces[i] == [] || pieces[i] == DOT {
      } else if pieces[i] == DOT_DOT {
        if components != [] {
          components := components[..|components| - 1];
        }
      } else {
        components := components + [pieces[i]];
      }
    }
    assert pieces[..|pieces|] == pieces;
    normalized, capacity := JoinComponents(components);
  }

  /** `normalize_absolute_path`. */
  method NormalizeAbsolutePath(path: Bytes) returns (absolute: Bytes)
    ensures absolute == Absolute(path)
  {
    var normalized, _ := NormalizeRelativePath(path);
    if normalized == [] {
      absolute := [SLASH];
    } else {
      absolute := [SLASH];
      absolute := absolute + normalized;
    }
  }
}
