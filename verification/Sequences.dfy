/** Sorting and permutation facts used wherever the source calls Go's sort package. */
module Sequences {

  ghost predicate TotalPreorder<T(!new)>(leq: (T, T) -> bool) {
    && (forall x, y :: leq(x, y) || leq(y, x))
    && (forall x, y, z :: leq(x, y) && leq(y, z) ==> leq(x, z))
  }

  ghost predicate SortedBy<T>(s: seq<T>, leq: (T, T) -> bool) {
    forall i, j :: 0 <= i < j < |s| ==> leq(s[i], s[j])
  }

  ghost predicate Distinct<T>(s: seq<T>) {
    forall i, j :: 0 <= i < j < |s| ==> s[i] != s[j]
  }

  /** What sort.Slice promises, and no more: it is not stable. */
  ghost predicate IsSortOf<T>(r: seq<T>, s: seq<T>, leq: (T, T) -> bool) {
    multiset(r) == multiset(s) && SortedBy(r, leq)
  }

  function Insert<T(!new)>(x: T, s: seq<T>, leq: (T, T) -> bool): (r: seq<T>)
    requires TotalPreorder(leq) && SortedBy(s, leq)
    ensures IsSortOf(r, [x] + s, leq)
  {
    if s == [] then [x]
    else if leq(x, s[0]) then [x] + s
    else
      var tail := Insert(x, s[1..], leq);
      InsertedBelow(s[0], x, s[1..], tail, leq);
      assert s == [s[0]] + s[1..];
      [s[0]] + tail
  }

  lemma InsertedBelow<T(!new)>(h: T, x: T, s: seq<T>, r: seq<T>, leq: (T, T) -> bool)
    requires TotalPreorder(leq) && leq(h, x) && IsSortOf(r, [x] + s, leq)
    requires forall i :: 0 <= i < |s| ==> leq(h, s[i])
    ensures IsSortOf([h] + r, [x] + ([h] + s), leq)
  {
    PermutationMembers(r, [x] + s);
    forall j | 0 <= j < |r| ensures leq(h, r[j]) {
      assert r[j] in [x] + s;
    }
    assert multiset([h] + r) == multiset{h} + multiset(r);
    assert multiset(r) == multiset{x} + multiset(s);
    assert multiset([x] + ([h] + s)) == multiset{x} + multiset([h] + s);
    assert multiset([h] + s) == multiset{h} + multiset(s);
  }

  function Sort<T(!new)>(s: seq<T>, leq: (T, T) -> bool): (r: seq<T>)
    requires TotalPreorder(leq)
    ensures IsSortOf(r, s, leq)
  {
    if s == [] then []
    else
      assert s == [s[0]] + s[1..];
      Insert(s[0], Sort(s[1..], leq), leq)
  }

  lemma PermutationMembers<T>(a: seq<T>, b: seq<T>)
    requires multiset(a) == multiset(b)
    ensures |a| == |b|
    ensures forall x :: x in a <==> x in b
  {
    assert |multiset(a)| == |multiset(b)|;
    forall x ensures x in a <==> x in b {
      assert x in multiset(a) <==> x in multiset(b);
    }
  }

  lemma SortedHead<T>(a: seq<T>, x: T, leq: (T, T) -> bool)
    requires SortedBy(a, leq) && x in a
    ensures a[0] == x || leq(a[0], x)
  {
    var j :| 0 <= j < |a| && a[j] == x;
  }

  lemma PermutationTail<T>(a: seq<T>, b: seq<T>)
    requires multiset(a) == multiset(b) && a != [] && b != [] && a[0] == b[0]
    ensures multiset(a[1..]) == multiset(b[1..])
  {
    assert a == [a[0]] + a[1..] && b == [b[0]] + b[1..];
    assert multiset(a[1..]) == multiset(a) - multiset{a[0]};
    assert multiset(b[1..]) == multiset(b) - multiset{b[0]};
  }

  ghost predicate NoTies<T>(s: seq<T>, leq: (T, T) -> bool) {
    forall i, j :: 0 <= i < |s| && 0 <= j < |s| && leq(s[i], s[j]) && leq(s[j], s[i]) ==> s[i] == s[j]
  }

  /** Two sort results of the same elements agree when ties are impossible. */
  lemma {:induction false} SortUnique<T(!new)>(a: seq<T>, b: seq<T>, leq: (T, T) -> bool)
    requires SortedBy(a, leq) && SortedBy(b, leq) && multiset(a) == multiset(b)
    requires NoTies(a, leq)
    ensures a == b
  {
    PermutationMembers(a, b);
    if a != [] {
      assert a[0] in b && b[0] in a;
      SortedHead(a, b[0], leq);
      SortedHead(b, a[0], leq);
      assert a[0] == b[0] by {
        var j :| 0 <= j < |a| && a[j] == b[0];
      }
      PermutationTail(a, b);
      SortUnique(a[1..], b[1..], leq);
    }
  }

  lemma DistinctPermutation<T>(a: seq<T>, b: seq<T>)
    requires multiset(a) == multiset(b) && Distinct(a)
    ensures Distinct(b)
  {
    forall i, j | 0 <= i < j < |b| ensures b[i] != b[j] {
      if b[i] == b[j] {
        assert b == b[..j] + [b[j]] + b[j + 1..] && b[i] in b[..j];
        assert multiset(b)[b[j]] >= 2;
        DistinctMultiplicity(a, b[j]);
      }
    }
  }

  lemma {:induction false} DistinctMultiplicity<T>(a: seq<T>, x: T)
    requires Distinct(a)
    ensures multiset(a)[x] <= 1
  {
    if a != [] {
      assert a == [a[0]] + a[1..];
      DistinctMultiplicity(a[1..], x);
      if a[0] == x {
        assert x !in a[1..];
      }
    }
  }

  // ----- what a loop over a map accumulates, for a visiting order of the map -----

  function Sum<T>(s: seq<T>, f: T -> int): int {
    if s == [] then 0 else Sum(s[..|s| - 1], f) + f(s[|s| - 1])
  }

  function FlatMap<T, U>(s: seq<T>, f: T -> seq<U>): seq<U> {
    if s == [] then [] else FlatMap(s[..|s| - 1], f) + f(s[|s| - 1])
  }

  lemma {:induction false} SumConcat<T>(a: seq<T>, b: seq<T>, f: T -> int)
    ensures Sum(a + b, f) == Sum(a, f) + Sum(b, f)
  {
    if b == [] {
      assert a + b == a;
    } else {
      assert (a + b)[..|a + b| - 1] == a + b[..|b| - 1];
      SumConcat(a, b[..|b| - 1], f);
    }
  }

  lemma {:induction false} FlatMapConcat<T, U>(a: seq<T>, b: seq<T>, f: T -> seq<U>)
    ensures FlatMap(a + b, f) == FlatMap(a, f) + FlatMap(b, f)
  {
    if b == [] {
      assert a + b == a;
    } else {
      assert (a + b)[..|a + b| - 1] == a + b[..|b| - 1];
      FlatMapConcat(a, b[..|b| - 1], f);
    }
  }

  lemma WithoutLast<T>(a: seq<T>)
    requires a != []
    ensures multiset(a[..|a| - 1]) == multiset(a) - multiset{a[|a| - 1]}
  {
    assert a == a[..|a| - 1] + [a[|a| - 1]];
    assert multiset(a) == multiset(a[..|a| - 1]) + multiset{a[|a| - 1]};
  }

  lemma WithoutElement<T>(b: seq<T>, j: nat)
    requires j < |b|
    ensures b == (b[..j] + [b[j]]) + b[j + 1..]
    ensures multiset(b[..j] + b[j + 1..]) == multiset(b) - multiset{b[j]}
  {
    assert b == (b[..j] + [b[j]]) + b[j + 1..];
    assert multiset(b) == multiset(b[..j]) + multiset{b[j]} + multiset(b[j + 1..]);
    assert multiset(b[..j] + b[j + 1..]) == multiset(b[..j]) + multiset(b[j + 1..]);
  }

  /** Where the last element of a sits in a permutation b of a, and what is left without it. */
  lemma SplitAtLast<T>(a: seq<T>, b: seq<T>) returns (j: nat)
    requires a != [] && multiset(a) == multiset(b)
    ensures j < |b| && b[j] == a[|a| - 1]
    ensures b == (b[..j] + [b[j]]) + b[j + 1..]
    ensures multiset(a[..|a| - 1]) == multiset(b[..j] + b[j + 1..])
  {
    PermutationMembers(a, b);
    assert a[|a| - 1] in b;
    j :| 0 <= j < |b| && b[j] == a[|a| - 1];
    WithoutLast(a);
    WithoutElement(b, j);
  }

  lemma {:induction false} SumPermutation<T>(a: seq<T>, b: seq<T>, f: T -> int)
    requires multiset(a) == multiset(b)
    ensures Sum(a, f) == Sum(b, f)
    decreases |a|
  {
    PermutationMembers(a, b);
    if a != [] {
      var j := SplitAtLast(a, b);
      SumPermutation(a[..|a| - 1], b[..j] + b[j + 1..], f);
      SumConcat(b[..j], b[j + 1..], f);
      SumConcat(b[..j] + [b[j]], b[j + 1..], f);
      SumConcat(b[..j], [b[j]], f);
    }
  }

  lemma {:induction false} FlatMapPermutation<T, U>(a: seq<T>, b: seq<T>, f: T -> seq<U>)
    requires multiset(a) == multiset(b)
    ensures multiset(FlatMap(a, f)) == multiset(FlatMap(b, f))
    decreases |a|
  {
    PermutationMembers(a, b);
    if a != [] {
      var j := SplitAtLast(a, b);
      FlatMapPermutation(a[..|a| - 1], b[..j] + b[j + 1..], f);
      FlatMapConcat(b[..j], b[j + 1..], f);
      FlatMapConcat(b[..j] + [b[j]], b[j + 1..], f);
      FlatMapConcat(b[..j], [b[j]], f);
    }
  }

  /** Every element a FlatMap yields comes from some element of the input. */
  lemma {:induction false} FlatMapOrigin<T, U>(s: seq<T>, f: T -> seq<U>, y: U)
    requires y in FlatMap(s, f)
    ensures exists x :: x in s && y in f(x)
  {
    if s != [] {
      if y in f(s[|s| - 1]) {
        assert s[|s| - 1] in s;
      } else {
        FlatMapOrigin(s[..|s| - 1], f, y);
      }
    }
  }

  lemma {:induction false} FlatMapContains<T, U>(s: seq<T>, f: T -> seq<U>, x: T, y: U)
    requires x in s && y in f(x)
    ensures y in FlatMap(s, f)
  {
    if x != s[|s| - 1] {
      FlatMapContains(s[..|s| - 1], f, x, y);
    }
  }
}
