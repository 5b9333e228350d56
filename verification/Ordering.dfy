/** Sorting with a total order: the result does not depend on the order of the input. */
module Ordering {
  /** Irreflexive, transitive and total on the elements of a set. */
  ghost predicate StrictOrder<T(!new)>(before: (T, T) -> bool, s: set<T>) {
    && (forall x :: x in s ==> !before(x, x))
    && (forall x, y :: x in s && y in s ==> x == y || before(x, y) || before(y, x))
    && (forall x, y, z :: x in s && y in s && z in s && before(x, y) && before(y, z) ==> before(x, z))
  }

  ghost predicate Increasing<T(!new)>(before: (T, T) -> bool, q: seq<T>) {
    forall i, j :: 0 <= i < j < |q| ==> before(q[i], q[j])
  }

  function Elements<T>(q: seq<T>): set<T> { set x | x in q }

  ghost predicate Least<T(!new)>(before: (T, T) -> bool, s: set<T>, x: T) {
    x in s && forall y :: y in s && y != x ==> before(x, y)
  }

  lemma {:induction false} LeastExists<T(!new)>(before: (T, T) -> bool, s: set<T>)
    requires StrictOrder(before, s) && s != {}
    ensures exists x :: Least(before, s, x)
    decreases |s|
  {
    var x :| x in s;
    var rest := s - {x};
    if rest == {} {
      assert forall y :: y in s && y != x ==> y in rest;
      assert Least(before, s, x);
    } else {
      LeastExists(before, rest);
      var y :| Least(before, rest, y);
      assert Least(before, s, if before(x, y) then x else y);
    }
  }

  /** The elements in increasing order. */
  ghost function Arranged<T(!new)>(before: (T, T) -> bool, s: set<T>): (q: seq<T>)
    requires StrictOrder(before, s)
    ensures Elements(q) == s
    decreases |s|
  {
    if s == {} then []
    else
      LeastExists(before, s);
      var x :| Least(before, s, x);
      ElementsCons(x, Arranged(before, s - {x}));
      [x] + Arranged(before, s - {x})
  }

  lemma ElementsCons<T>(x: T, q: seq<T>)
    ensures Elements([x] + q) == {x} + Elements(q)
  {
    assert forall y :: y in [x] + q <==> y == x || y in q;
  }

  lemma {:induction false} ArrangedIncreases<T(!new)>(before: (T, T) -> bool, s: set<T>)
    requires StrictOrder(before, s)
    ensures Increasing(before, Arranged(before, s))
    decreases |s|
  {
    if s != {} {
      var q := Arranged(before, s);
      ArrangedIncreases(before, s - {q[0]});
      assert q[1..] == Arranged(before, s - {q[0]}) && Elements(q[1..]) == s - {q[0]};
      forall i, j | 0 <= i < j < |q|
        ensures before(q[i], q[j])
      {
        assert q[j] == q[1..][j - 1] && q[j] in Elements(q[1..]);
        if i > 0 { assert q[i] == q[1..][i - 1]; }
      }
    }
  }

  lemma SomeElement<T>(q: seq<T>)
    ensures q != [] ==> Elements(q) != {}
  {
    if q != [] { assert q[0] in Elements(q); }
  }

  /** There is only one way to put a set in order. */
  lemma {:induction false} OneArrangement<T(!new)>(before: (T, T) -> bool, a: seq<T>, b: seq<T>)
    requires StrictOrder(before, Elements(a)) && Elements(a) == Elements(b)
    requires Increasing(before, a) && Increasing(before, b)
    ensures a == b
    decreases |a|
  {
    if a == [] {
      SomeElement(b);
    } else {
      assert a[0] in Elements(a);
      var i :| 0 <= i < |b| && b[i] == a[0];
      assert b[0] in Elements(a);
      var j :| 0 <= j < |a| && a[j] == b[0];
      assert a[0] == b[0];
      RestElements(before, a);
      RestElements(before, b);
      OneArrangement(before, a[1..], b[1..]);
      assert a == [a[0]] + a[1..] && b == [b[0]] + b[1..];
    }
  }

  lemma RestElements<T(!new)>(before: (T, T) -> bool, q: seq<T>)
    requires q != [] && Increasing(before, q) && StrictOrder(before, Elements(q))
    ensures Elements(q[1..]) == Elements(q) - {q[0]} && Increasing(before, q[1..])
    ensures StrictOrder(before, Elements(q[1..]))
  {
    forall x
      ensures x in Elements(q[1..]) <==> x in Elements(q) && x != q[0]
    {
      if x in Elements(q) && x != q[0] {
        var i :| 0 <= i < |q| && q[i] == x;
        assert q[1..][i - 1] == x;
      }
      if x in Elements(q[1..]) {
        var i :| 0 <= i < |q[1..]| && q[1..][i] == x;
        assert q[i + 1] == x && q[0] in Elements(q) && before(q[0], q[i + 1]);
      }
    }
  }

  /** `sort_by`: whatever the order of the input, the result is the arrangement. */
  method Sort<T(==,!new)>(before: (T, T) -> bool, q: seq<T>) returns (sorted: seq<T>)
    requires StrictOrder(before, Elements(q)) && forall i, j :: 0 <= i < j < |q| ==> q[i] != q[j]
    ensures sorted == Arranged(before, Elements(q))
  {
    sorted := [];
    for n := 0 to |q|
      invariant Increasing(before, sorted) && Elements(sorted) == Elements(q[..n])
    {
      assert q[n] in Elements(q) && q[n] !in Elements(q[..n]);
      sorted := Insert(before, sorted, q[n], Elements(q));
      assert q[..n + 1] == q[..n] + [q[n]];
    }
    assert q[..|q|] == q;
    ArrangedIncreases(before, Elements(q));
    OneArrangement(before, sorted, Arranged(before, Elements(q)));
  }

  method Insert<T(==,!new)>(before: (T, T) -> bool, sorted: seq<T>, x: T, ghost all: set<T>) returns (longer: seq<T>)
    requires StrictOrder(before, all) && Elements(sorted) <= all && x in all && x !in sorted
    requires Increasing(before, sorted)
    ensures Increasing(before, longer) && Elements(longer) == Elements(sorted) + {x}
  {
    var i := 0;
    while i < |sorted| && before(sorted[i], x)
      invariant i <= |sorted| && forall k :: 0 <= k < i ==> before(sorted[k], x)
    {
      i := i + 1;
    }
    longer := sorted[..i] + [x] + sorted[i..];
    forall k | i <= k < |sorted|
      ensures before(x, sorted[k])
    {
      assert sorted[i] in Elements(sorted) && sorted[k] in Elements(sorted);
    }
  }

  // --- Names ---

  /** The order of Rust strings, by code points. */
  predicate NameLess(a: string, b: string) {
    b != "" && (a == "" || a[0] < b[0] || (a[0] == b[0] && NameLess(a[1..], b[1..])))
  }

  /** The names agree up to `i`, and there the first one ends or has the smaller character. */
  ghost predicate PartsAt(a: string, b: string, i: nat) {
    i <= |a| && i < |b| && a[..i] == b[..i] && (i == |a| || a[i] < b[i])
  }

  /** Names are ordered lexicographically. */
  lemma {:induction false} NamesLexicographic(a: string, b: string)
    ensures NameLess(a, b) <==> exists i :: PartsAt(a, b, i)
  {
    if b != "" && (a == "" || a[0] < b[0]) {
      assert PartsAt(a, b, 0);
    } else if a != "" && b != "" && a[0] == b[0] {
      NamesLexicographic(a[1..], b[1..]);
      if i: nat :| PartsAt(a[1..], b[1..], i) {
        assert a[..i + 1] == [a[0]] + a[1..][..i] && b[..i + 1] == [b[0]] + b[1..][..i];
        assert PartsAt(a, b, i + 1);
      }
      if i: nat :| PartsAt(a, b, i) {
        assert i > 0 && a[1..][..i - 1] == a[..i][1..] && b[1..][..i - 1] == b[..i][1..];
        assert PartsAt(a[1..], b[1..], i - 1);
      }
    } else if a != "" && b != "" {
      if i: nat :| PartsAt(a, b, i) && i > 0 { PartsStart(a, b, i); }
    }
  }

  lemma PartsStart(a: string, b: string, i: nat)
    requires PartsAt(a, b, i) && i > 0
    ensures a[0] == b[0]
  {
    assert a[0] == a[..i][0] && b[0] == b[..i][0];
  }

  /** Of two figures the first one comes first: the smaller, or if descending the larger;
      equal figures leave the decision to something else. */
  ghost predicate Ranked(descending: bool, first: int, second: int, equal: bool) {
    (if descending then first >= second else first <= second) && (first == second ==> equal)
  }

  lemma {:induction false} NamesOrdered(a: string, b: string)
    ensures !NameLess(a, a) && (a == b || NameLess(a, b) || NameLess(b, a)) && !(NameLess(a, b) && NameLess(b, a))
  {
    if a != "" && b != "" && a[0] == b[0] {
      NamesOrdered(a[1..], b[1..]);
      assert a == [a[0]] + a[1..] && b == [b[0]] + b[1..];
    } else if a != "" {
      NamesOrdered(a[1..], a[1..]);
    }
  }

  lemma {:induction false} NamesTransitive(a: string, b: string, c: string)
    requires NameLess(a, b) && NameLess(b, c)
    ensures NameLess(a, c)
  {
    if a != "" && a[0] == b[0] == c[0] { NamesTransitive(a[1..], b[1..], c[1..]); }
  }

  lemma NamesChain(a: string, b: string, c: string)
    ensures NameLess(a, b) && NameLess(b, c) ==> NameLess(a, c)
  {
    if NameLess(a, b) && NameLess(b, c) { NamesTransitive(a, b, c); }
  }
}
