/** Lists without repeats, sums over lists, sizes of sets and quotients. */
module Sequences {
  function SetOf<T>(s: seq<T>): set<T> { set x | x in s }

  ghost predicate NoRepeats<T>(s: seq<T>) {
    forall i, j :: 0 <= i < j < |s| ==> s[i] != s[j]
  }

  lemma SubsetIsSmaller<T>(a: set<T>, b: set<T>)
    requires a <= b
    ensures |a| <= |b|
    ensures |a| == |b| <==> a == b
  {
    assert b == a + (b - a);
    assert |b| == |a| + |b - a|;
  }

  lemma {:induction false} SetSizeMeansNoRepeats<T>(s: seq<T>)
    ensures |SetOf(s)| <= |s|
    ensures |SetOf(s)| == |s| <==> NoRepeats(s)
  {
    if s != [] {
      var front, last := s[..|s| - 1], s[|s| - 1];
      SetSizeMeansNoRepeats(front);
      assert SetOf(s) == SetOf(front) + {last};
      assert NoRepeats(s) <==> NoRepeats(front) && last !in front;
    }
  }

  lemma {:induction false} CountWithoutRepeats<T>(s: seq<T>, x: T)
    requires NoRepeats(s)
    ensures multiset(s)[x] == if x in s then 1 else 0
  {
    if s != [] {
      var front, last := s[..|s| - 1], s[|s| - 1];
      CountWithoutRepeats(front, x);
      assert s == front + [last];
    }
  }

  /** A list whose length and elements are those of a list without repeats is a reordering of it. */
  lemma SameElementsIsReordering<T>(a: seq<T>, b: seq<T>)
    requires NoRepeats(b)
    ensures |SetOf(a)| == |a| && SetOf(a) == SetOf(b) <==> multiset(a) == multiset(b)
  {
    SetSizeMeansNoRepeats(a);
    SetSizeMeansNoRepeats(b);
    if multiset(a) == multiset(b) {
      forall x ensures x in SetOf(a) <==> x in SetOf(b) {
        assert x in multiset(a) <==> x in multiset(b);
      }
      assert SetOf(a) == SetOf(b) && |multiset(a)| == |multiset(b)|;
    }
    if |SetOf(a)| == |a| && SetOf(a) == SetOf(b) {
      forall x ensures multiset(a)[x] == multiset(b)[x] {
        CountWithoutRepeats(a, x);
        CountWithoutRepeats(b, x);
        assert x in SetOf(a) <==> x in SetOf(b);
      }
      assert multiset(a) == multiset(b);
    }
  }

  function SumBy<T>(f: T -> int, s: seq<T>): int {
    if s == [] then 0 else SumBy(f, s[..|s| - 1]) + f(s[|s| - 1])
  }

  lemma {:induction false} SumOfConcat<T>(f: T -> int, a: seq<T>, b: seq<T>)
    ensures SumBy(f, a + b) == SumBy(f, a) + SumBy(f, b)
  {
    if b == [] {
      assert a + b == a;
    } else {
      assert (a + b)[..|a + b| - 1] == a + b[..|b| - 1];
      SumOfConcat(f, a, b[..|b| - 1]);
    }
  }

  lemma SumAround<T>(f: T -> int, a: seq<T>, x: T, b: seq<T>)
    ensures SumBy(f, a + [x] + b) == SumBy(f, a + b) + f(x)
  {
    SumOfConcat(f, a + [x], b);
    SumOfConcat(f, a, [x]);
    SumOfConcat(f, a, b);
  }

  lemma RemoveOne<T>(front: seq<T>, x: T, before: seq<T>, after: seq<T>)
    requires multiset(front + [x]) == multiset(before + [x] + after)
    ensures multiset(front) == multiset(before + after)
  {
    forall y ensures multiset(front)[y] == multiset(before + after)[y] {
      assert multiset(front + [x])[y] == multiset(front)[y] + multiset([x])[y];
      assert multiset(before + [x] + after)[y] == multiset(before)[y] + multiset([x])[y] + multiset(after)[y];
    }
  }

  /** A sum does not depend on the order of the list. */
  lemma {:induction false} SumOfReordering<T>(f: T -> int, a: seq<T>, b: seq<T>)
    requires multiset(a) == multiset(b)
    ensures SumBy(f, a) == SumBy(f, b)
  {
    if a == [] {
      assert |multiset(b)| == 0;
    } else {
      var front, last := a[..|a| - 1], a[|a| - 1];
      assert a == front + [last] && last in multiset(b);
      var k :| 0 <= k < |b| && b[k] == last;
      var before, after := b[..k], b[k + 1..];
      assert b == before + [last] + after;
      RemoveOne(front, last, before, after);
      SumOfReordering(f, front, before + after);
      SumAround(f, before, last, after);
    }
  }

  function MapBy<T, U>(f: T -> U, s: seq<T>): seq<U> { seq(|s|, i requires 0 <= i < |s| => f(s[i])) }

  lemma {:induction false} MapOfReordering<T, U>(f: T -> U, a: seq<T>, b: seq<T>)
    requires multiset(a) == multiset(b)
    ensures multiset(MapBy(f, a)) == multiset(MapBy(f, b))
  {
    if a == [] {
      assert |multiset(b)| == 0;
    } else {
      var front, last := a[..|a| - 1], a[|a| - 1];
      assert a == front + [last] && last in multiset(b);
      var k :| 0 <= k < |b| && b[k] == last;
      var before, after := b[..k], b[k + 1..];
      assert b == before + [last] + after;
      RemoveOne(front, last, before, after);
      MapOfReordering(f, front, before + after);
      MapsAround(f, front, last, before, after);
    }
  }

  lemma MapsAround<T, U>(f: T -> U, front: seq<T>, x: T, before: seq<T>, after: seq<T>)
    requires multiset(MapBy(f, front)) == multiset(MapBy(f, before + after))
    ensures multiset(MapBy(f, front + [x])) == multiset(MapBy(f, before + [x] + after))
  {
    assert MapBy(f, front + [x]) == MapBy(f, front) + [f(x)];
    assert MapBy(f, before + [x] + after) == MapBy(f, before) + [f(x)] + MapBy(f, after);
    assert MapBy(f, before + after) == MapBy(f, before) + MapBy(f, after);
  }

  lemma {:induction false} SumOverLists<T>(f: T -> int, s: seq<T>, t: seq<T>)
    requires |s| == |t| && forall i :: 0 <= i < |s| ==> f(s[i]) <= f(t[i])
    ensures SumBy(f, s) <= SumBy(f, t)
  {
    if s != [] {
      SumOverLists(f, s[..|s| - 1], t[..|t| - 1]);
    }
  }

  /** A part of a positive whole is a fraction of it, and all of it exactly when the fraction is 1. */
  lemma Quotient(part: real, whole: real)
    requires 0.0 <= part <= whole && whole > 0.0
    ensures 0.0 <= part / whole <= 1.0
    ensures part / whole == 1.0 <==> part == whole
  {
    var ratio := part / whole;
    assert ratio * whole == part;
    assert (1.0 - ratio) * whole == whole - part;
  }
}
