/** Array.prototype.filter, map and a first-occurrence Set, as functions with their meaning. */
module Sequences {

  function Filter<T(!new)>(keep: T -> bool, xs: seq<T>): (ys: seq<T>)
    ensures forall y :: y in ys <==> y in xs && keep(y)
    ensures |ys| <= |xs|
  {
    if xs == [] then []
    else (if keep(xs[0]) then [xs[0]] else []) + Filter(keep, xs[1..])
  }

  function Map<T, U>(f: T -> U, xs: seq<T>): (ys: seq<U>)
    ensures |ys| == |xs| && forall i | 0 <= i < |xs| :: ys[i] == f(xs[i])
  {
    seq(|xs|, i requires 0 <= i < |xs| => f(xs[i]))
  }

  predicate NoRepeats<T(==)>(xs: seq<T>) { forall a, b | 0 <= a < b < |xs| :: xs[a] != xs[b] }

  /** `[...new Set(xs)]`: insertion order, first occurrences. */
  function Distinct<T(==, !new)>(xs: seq<T>): (ys: seq<T>)
    ensures forall y :: y in ys <==> y in xs
    ensures forall i, j | 0 <= i < j < |ys| :: ys[i] != ys[j]
  {
    if xs == [] then []
    else
      var init := Distinct(xs[..|xs| - 1]);
      var last := xs[|xs| - 1];
      assert xs == xs[..|xs| - 1] + [last];
      if last in init then init else init + [last]
  }

  lemma {:induction false} FilterAppend<T(!new)>(keep: T -> bool, xs: seq<T>, ys: seq<T>)
    ensures Filter(keep, xs + ys) == Filter(keep, xs) + Filter(keep, ys)
  {
    if xs == [] {
      assert xs + ys == ys;
    } else {
      assert (xs + ys)[1..] == xs[1..] + ys;
      FilterAppend(keep, xs[1..], ys);
    }
  }

  lemma {:induction false} FilterMultiset<T(!new)>(keep: T -> bool, xs: seq<T>, y: T)
    ensures multiset(Filter(keep, xs))[y] == if keep(y) then multiset(xs)[y] else 0
  {
    if xs != [] {
      FilterMultiset(keep, xs[1..], y);
      assert xs == [xs[0]] + xs[1..];
    }
  }

  lemma FilterPermutation<T(!new)>(keep: T -> bool, xs: seq<T>, ys: seq<T>)
    requires multiset(xs) == multiset(ys)
    ensures multiset(Filter(keep, xs)) == multiset(Filter(keep, ys))
  {
    forall y ensures multiset(Filter(keep, xs))[y] == multiset(Filter(keep, ys))[y] {
      FilterMultiset(keep, xs, y);
      FilterMultiset(keep, ys, y);
    }
  }

  /** Take one occurrence of `x` out of `ys`, and its image out of the image of `ys`. */
  lemma TakeOut<T, U>(f: T -> U, ys: seq<T>, x: T) returns (rest: seq<T>)
    requires x in ys
    ensures multiset(rest) == multiset(ys) - multiset{x}
    ensures multiset(Map(f, ys)) == multiset(Map(f, rest)) + multiset{f(x)}
    ensures |rest| == |ys| - 1
  {
    var i :| 0 <= i < |ys| && ys[i] == x;
    rest := ys[..i] + ys[i + 1..];
    RemovedOne(ys, i);
    RemovedOne(Map(f, ys), i);
    assert Map(f, rest) == Map(f, ys)[..i] + Map(f, ys)[i + 1..];
  }

  lemma RemovedOne<T>(ys: seq<T>, i: nat)
    requires i < |ys|
    ensures multiset(ys) == multiset{ys[i]} + multiset(ys[..i] + ys[i + 1..])
  {
    assert ys == ys[..i] + [ys[i]] + ys[i + 1..];
  }

  lemma {:induction false} MapMultiset<T, U>(f: T -> U, xs: seq<T>, ys: seq<T>)
    requires multiset(xs) == multiset(ys)
    ensures multiset(Map(f, xs)) == multiset(Map(f, ys))
    decreases |xs|
  {
    if xs == [] {
      assert |multiset(ys)| == |ys|;
    } else {
      assert xs[0] in multiset(xs);
      var xs' := TakeOut(f, xs, xs[0]);
      var ys' := TakeOut(f, ys, xs[0]);
      MapMultiset(f, xs', ys');
    }
  }

  lemma DistinctPermutation<T(!new)>(xs: seq<T>, ys: seq<T>)
    requires multiset(xs) == multiset(ys)
    ensures multiset(Distinct(xs)) == multiset(Distinct(ys))
  {
    forall y ensures multiset(Distinct(xs))[y] == multiset(Distinct(ys))[y] {
      assert y in xs <==> y in multiset(xs);
      assert y in ys <==> y in multiset(ys);
      OnceEach(Distinct(xs), y);
      OnceEach(Distinct(ys), y);
    }
  }

  lemma {:induction false} OnceEach<T>(xs: seq<T>, y: T)
    requires forall i, j | 0 <= i < j < |xs| :: xs[i] != xs[j]
    ensures multiset(xs)[y] == if y in xs then 1 else 0
  {
    if xs != [] {
      assert xs == [xs[0]] + xs[1..];
      OnceEach(xs[1..], y);
    }
  }

  lemma SubsetSize<T>(a: set<T>, b: set<T>)
    requires a <= b
    ensures |a| <= |b|
  {
    assert b == a + (b - a);
  }
}
