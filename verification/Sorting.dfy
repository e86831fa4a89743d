/** Sorting a finite set by a strict order: the meaning of SQL's `ORDER BY` and of a Redis sorted
    set, both of which list a set of rows in an order that has no ties on those rows. */
module Sorting {

  ghost predicate StrictOrder<T(!new)>(before: (T, T) -> bool) {
    && (forall x :: !before(x, x))
    && (forall x, y, z :: before(x, y) && before(y, z) ==> before(x, z))
  }

  /** The order decides between any two different elements of `s`. */
  ghost predicate TotalOn<T>(s: set<T>, before: (T, T) -> bool) {
    forall x, y | x in s && y in s :: x == y || before(x, y) || before(y, x)
  }

  ghost predicate Sorted<T>(xs: seq<T>, before: (T, T) -> bool) {
    forall i, j | 0 <= i < j < |xs| :: before(xs[i], xs[j])
  }

  function Elements<T(==)>(xs: seq<T>): set<T> {
    set x | x in xs
  }

  predicate IsLeast<T(==)>(m: T, s: set<T>, before: (T, T) -> bool) {
    m in s && forall x | x in s && x != m :: before(m, x)
  }

  lemma {:induction false} LeastExists<T(!new)>(s: set<T>, before: (T, T) -> bool) returns (m: T)
    requires StrictOrder(before) && TotalOn(s, before) && s != {}
    ensures IsLeast(m, s, before)
    decreases |s|
  {
    var x :| x in s;
    m := x;
    if s != {x} {
      var rest := s - {x};
      assert s == {x} + rest;
      var least := LeastExists(rest, before);
      if before(least, x) {
        m := least;
      } else {
        assert before(x, least);
      }
    }
  }

  function Least<T(==, !new)>(s: set<T>, before: (T, T) -> bool): (m: T)
    requires StrictOrder(before) && TotalOn(s, before) && s != {}
    ensures IsLeast(m, s, before)
  {
    assert exists m :: IsLeast(m, s, before) by {
      var m := LeastExists(s, before);
    }
    var m :| m in s && IsLeast(m, s, before);
    m
  }

  /** The elements of `s`, least first. */
  function SortSet<T(==, !new)>(s: set<T>, before: (T, T) -> bool): (xs: seq<T>)
    requires StrictOrder(before) && TotalOn(s, before)
    ensures |xs| == |s|
    decreases |s|
  {
    if s == {} then
      []
    else
      var m := Least(s, before);
      [m] + SortSet(s - {m}, before)
  }

  lemma {:induction false} SortSetSorts<T(!new)>(s: set<T>, before: (T, T) -> bool)
    requires StrictOrder(before) && TotalOn(s, before)
    ensures Elements(SortSet(s, before)) == s
    ensures Sorted(SortSet(s, before), before)
    decreases |s|
  {
    if s != {} {
      var m := Least(s, before);
      var rest := SortSet(s - {m}, before);
      SortSetSorts(s - {m}, before);
      ElementsCons(m, rest);
      forall y | y in rest ensures before(m, y) {
        assert y in Elements(rest);
      }
      SortedCons(m, rest, before);
    }
  }

  lemma ElementsCons<T(!new)>(x: T, xs: seq<T>)
    ensures Elements([x] + xs) == {x} + Elements(xs)
  {
  }

  lemma SortedCons<T(!new)>(x: T, xs: seq<T>, before: (T, T) -> bool)
    requires Sorted(xs, before) && forall y | y in xs :: before(x, y)
    ensures Sorted([x] + xs, before)
  {
  }

  /** A sorted list has as many entries as elements. */
  lemma {:induction false} SortedLength<T(!new)>(xs: seq<T>, before: (T, T) -> bool)
    requires StrictOrder(before) && Sorted(xs, before)
    ensures |Elements(xs)| == |xs|
  {
    if xs != [] {
      var rest := xs[1..];
      SortedLength(rest, before);
      assert xs[0] !in rest;
      assert Elements(xs) == {xs[0]} + Elements(rest);
    }
  }

  /** Two sorted lists of the same elements are the same list. */
  lemma {:induction false} SortedUnique<T(!new)>(xs: seq<T>, ys: seq<T>, before: (T, T) -> bool)
    requires StrictOrder(before) && Sorted(xs, before) && Sorted(ys, before)
    requires Elements(xs) == Elements(ys)
    ensures xs == ys
  {
    SortedLength(xs, before);
    SortedLength(ys, before);
    if xs != [] {
      assert xs[0] in Elements(ys) && ys[0] in Elements(xs);
      assert xs[0] == ys[0];
      forall x ensures x in Elements(xs[1..]) <==> x in Elements(xs) && x != xs[0] {
        if x in Elements(xs) && x != xs[0] {
          var i :| 0 <= i < |xs| && xs[i] == x;
          assert xs[1..][i - 1] == x;
        }
      }
      forall x ensures x in Elements(ys[1..]) <==> x in Elements(ys) && x != ys[0] {
        if x in Elements(ys) && x != ys[0] {
          var i :| 0 <= i < |ys| && ys[i] == x;
          assert ys[1..][i - 1] == x;
        }
      }
      SortedUnique(xs[1..], ys[1..], before);
      assert xs == [xs[0]] + xs[1..] && ys == [ys[0]] + ys[1..];
    }
  }

  /** Sorting a set gives the one sorted list of its elements. */
  lemma SortSetIs<T(!new)>(s: set<T>, before: (T, T) -> bool, xs: seq<T>)
    requires StrictOrder(before) && TotalOn(s, before)
    requires Sorted(xs, before) && Elements(xs) == s
    ensures SortSet(s, before) == xs
  {
    SortSetSorts(s, before);
    SortedUnique(SortSet(s, before), xs, before);
  }

  ghost function Earlier<T>(xs: seq<T>, before: (T, T) -> bool, x: T): set<T> {
    set y | y in xs && before(y, x)
  }

  /** The elements before position `i` of a sorted list are exactly the first `i`. */
  lemma SortedRank<T(!new)>(xs: seq<T>, before: (T, T) -> bool, i: nat)
    requires StrictOrder(before) && Sorted(xs, before) && i < |xs|
    ensures |Earlier(xs, before, xs[i])| == i
  {
    var earlier := Earlier(xs, before, xs[i]);
    forall x ensures x in earlier <==> x in Elements(xs[..i]) {
      if x in earlier {
        var k :| 0 <= k < |xs| && xs[k] == x;
        assert k < i;
        assert xs[..i][k] == x;
      }
    }
    assert earlier == Elements(xs[..i]);
    SortedLength(xs[..i], before);
  }
}
