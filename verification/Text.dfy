/**
 The order of strings the source relies on (`a < b`) and the stable sort built on it, with the one
 fact every canonical form needs: a keyed sort forgets the input order exactly when equal keys mean
 equal elements. Strings compare character by character, a character being a Unicode scalar; the
 source compares UTF-16 code units, which differs only for a character beyond U+FFFF against one in
 U+E000 to U+FFFF. No theorem turns on which of the two orders it is.
 */
module Text {

  predicate Less(a: string, b: string) {
    if b == "" then false
    else if a == "" then true
    else a[0] < b[0] || (a[0] == b[0] && Less(a[1..], b[1..]))
  }

  lemma {:induction false} LessIrreflexive(a: string)
    ensures !Less(a, a)
  {
    if a != "" {
      LessIrreflexive(a[1..]);
    }
  }

  lemma {:induction false} LessTotal(a: string, b: string)
    ensures Less(a, b) || Less(b, a) || a == b
  {
    if a != "" && b != "" && a[0] == b[0] {
      LessTotal(a[1..], b[1..]);
      assert a == [a[0]] + a[1..] && b == [b[0]] + b[1..];
    }
  }

  lemma {:induction false} LessTransitive(a: string, b: string, c: string)
    requires Less(a, b) && Less(b, c)
    ensures Less(a, c)
  {
    if a != "" && a[0] == b[0] && b[0] == c[0] {
      LessTransitive(a[1..], b[1..], c[1..]);
    }
  }

  lemma LessAsymmetric(a: string, b: string)
    requires Less(a, b)
    ensures !Less(b, a)
  {
    if Less(b, a) {
      LessTransitive(a, b, a);
      LessIrreflexive(a);
    }
  }

  lemma LessComparable(a: string, b: string, c: string)
    requires !Less(b, a) && !Less(c, b)
    ensures !Less(c, a)
  {
    LessTotal(a, b);
    if Less(c, a) && Less(a, b) {
      LessTransitive(c, a, b);
    }
  }

  // ---- Digits. ----

  predicate IsDigit(c: char) { '0' <= c <= '9' }

  function DigitValue(c: char): nat
    requires IsDigit(c)
  {
    c as int - '0' as int
  }

  function Decimal(n: nat): string {
    if n < 10 then [(n + '0' as int) as char] else Decimal(n / 10) + [(n % 10 + '0' as int) as char]
  }

  function IntText(n: int): string { if n < 0 then "-" + Decimal(-n) else Decimal(n) }

  // ---- Array.prototype.sort with a string-key comparator: stable, ascending. ----

  /** The key of a plain `.sort()` on strings. */
  function Self(s: string): string { s }

  function Insert<T>(key: T -> string, x: T, sorted: seq<T>): seq<T> {
    if sorted == [] || !Less(key(sorted[0]), key(x)) then [x] + sorted
    else [sorted[0]] + Insert(key, x, sorted[1..])
  }

  function SortBy<T>(key: T -> string, xs: seq<T>): seq<T> {
    if xs == [] then [] else Insert(key, xs[0], SortBy(key, xs[1..]))
  }

  predicate Ascending<T>(key: T -> string, xs: seq<T>) {
    forall i, j | 0 <= i < j < |xs| :: !Less(key(xs[j]), key(xs[i]))
  }

  /** The elements carrying one key, in order: what a stable sort may not disturb. */
  function Group<T>(key: T -> string, k: string, xs: seq<T>): seq<T> {
    if xs == [] then []
    else (if key(xs[0]) == k then [xs[0]] else []) + Group(key, k, xs[1..])
  }

  lemma {:induction false} InsertContract<T>(key: T -> string, x: T, xs: seq<T>)
    requires Ascending(key, xs)
    ensures Ascending(key, Insert(key, x, xs))
    ensures multiset(Insert(key, x, xs)) == multiset([x] + xs)
  {
    hide Less;
    if xs == [] {
    } else if !Less(key(xs[0]), key(x)) {
      var r := [x] + xs;
      forall i, j | 0 <= i < j < |r| ensures !Less(key(r[j]), key(r[i])) {
        if i == 0 && j > 1 {
          assert r[j] == xs[j - 1];
          LessComparable(key(x), key(xs[0]), key(r[j]));
        }
      }
    } else {
      assert xs == [xs[0]] + xs[1..];
      InsertContract(key, x, xs[1..]);
      var rest := Insert(key, x, xs[1..]);
      LessAsymmetric(key(xs[0]), key(x));
      forall y | y in rest ensures !Less(key(y), key(xs[0])) {
        assert y in multiset(rest);
        assert y in [x] + xs[1..];
      }
    }
  }

  lemma {:induction false} SortByContract<T>(key: T -> string, xs: seq<T>)
    ensures Ascending(key, SortBy(key, xs))
    ensures multiset(SortBy(key, xs)) == multiset(xs)
    ensures |SortBy(key, xs)| == |xs|
  {
    if xs != [] {
      SortByContract(key, xs[1..]);
      InsertContract(key, xs[0], SortBy(key, xs[1..]));
      assert xs == [xs[0]] + xs[1..];
      assert |multiset(SortBy(key, xs))| == |multiset(xs)|;
    }
  }

  lemma {:induction false} InsertGroup<T>(key: T -> string, k: string, x: T, xs: seq<T>)
    ensures Group(key, k, Insert(key, x, xs)) == Group(key, k, [x] + xs)
  {
    if xs == [] || !Less(key(xs[0]), key(x)) {
    } else {
      InsertGroup(key, k, x, xs[1..]);
      LessIrreflexive(key(x));
      var rest := Insert(key, x, xs[1..]);
      assert ([x] + xs)[1..] == xs && ([x] + xs[1..])[1..] == xs[1..];
      assert ([xs[0]] + rest)[1..] == rest;
    }
  }

  /** Stability: equal keys keep their input order. */
  lemma {:induction false} SortByStable<T>(key: T -> string, k: string, xs: seq<T>)
    ensures Group(key, k, SortBy(key, xs)) == Group(key, k, xs)
  {
    if xs != [] {
      SortByStable(key, k, xs[1..]);
      InsertGroup(key, k, xs[0], SortBy(key, xs[1..]));
      var rest := SortBy(key, xs[1..]);
      assert ([xs[0]] + rest)[1..] == rest;
    }
  }

  /** Equal sort keys imply equal elements. */
  predicate KeysSeparate<T(==)>(key: T -> string, xs: seq<T>) {
    forall i, j | 0 <= i < |xs| && 0 <= j < |xs| && key(xs[i]) == key(xs[j]) :: xs[i] == xs[j]
  }

  lemma HeadsAgree<T>(key: T -> string, xs: seq<T>, ys: seq<T>)
    requires Ascending(key, xs) && Ascending(key, ys) && xs != []
    requires multiset(xs) == multiset(ys) && KeysSeparate(key, xs)
    ensures ys != [] && xs[0] == ys[0]
  {
    assert xs[0] in multiset(xs);
    assert xs[0] in ys;
    var i :| 0 <= i < |ys| && ys[i] == xs[0];
    assert ys[0] in multiset(ys);
    assert ys[0] in xs;
    var j :| 0 <= j < |xs| && xs[j] == ys[0];
    LessTotal(key(xs[0]), key(ys[0]));
  }

  lemma TailMultiset<T>(xs: seq<T>)
    requires xs != []
    ensures multiset(xs[1..]) == multiset(xs) - multiset{xs[0]}
  {
    assert xs == [xs[0]] + xs[1..];
  }

  lemma {:induction false} AscendingUnique<T>(key: T -> string, xs: seq<T>, ys: seq<T>)
    requires Ascending(key, xs) && Ascending(key, ys)
    requires multiset(xs) == multiset(ys) && KeysSeparate(key, xs)
    ensures xs == ys
  {
    if xs == [] {
      assert |multiset(ys)| == |ys|;
    } else {
      HeadsAgree(key, xs, ys);
      TailMultiset(xs);
      TailMultiset(ys);
      AscendingUnique(key, xs[1..], ys[1..]);
      assert xs == [xs[0]] + xs[1..] && ys == [ys[0]] + ys[1..];
    }
  }

  lemma SeparateUnderPermutation<T>(key: T -> string, xs: seq<T>, ys: seq<T>)
    requires multiset(xs) == multiset(ys) && KeysSeparate(key, xs)
    ensures KeysSeparate(key, ys)
  {
    forall i, j | 0 <= i < |ys| && 0 <= j < |ys| && key(ys[i]) == key(ys[j])
      ensures ys[i] == ys[j]
    {
      assert ys[i] in multiset(xs) && ys[j] in multiset(xs);
    }
  }

  /** One direction: separating keys make the sorted list a function of the contents alone. */
  lemma SortForgetsOrder<T>(key: T -> string, xs: seq<T>, ys: seq<T>)
    requires multiset(xs) == multiset(ys) && KeysSeparate(key, xs)
    ensures SortBy(key, xs) == SortBy(key, ys)
  {
    SortByContract(key, xs);
    SortByContract(key, ys);
    SeparateUnderPermutation(key, xs, SortBy(key, xs));
    AscendingUnique(key, SortBy(key, xs), SortBy(key, ys));
  }

  ghost predicate OrderFree<T(!new)>(key: T -> string, xs: seq<T>) {
    forall ys: seq<T> | multiset(ys) == multiset(xs) :: SortBy(key, ys) == SortBy(key, xs)
  }

  /** Both directions: a keyed sort is order-free on `xs` iff equal keys mean equal elements. */
  lemma SortOrderFreeIff<T(!new)>(key: T -> string, xs: seq<T>)
    ensures OrderFree(key, xs) <==> KeysSeparate(key, xs)
  {
    if KeysSeparate(key, xs) {
      forall ys: seq<T> | multiset(ys) == multiset(xs) ensures SortBy(key, ys) == SortBy(key, xs) {
        SortForgetsOrder(key, xs, ys);
      }
    } else {
      var i, j :| 0 <= i < |xs| && 0 <= j < |xs| && key(xs[i]) == key(xs[j]) && xs[i] != xs[j];
      if i < j {
        SwapVisible(key, xs, i, j);
      } else {
        SwapVisible(key, xs, j, i);
      }
    }
  }

  lemma PullToFront<T>(xs: seq<T>, i: nat, j: nat)
    requires i < j < |xs|
    ensures multiset(xs) == multiset{xs[i], xs[j]} + multiset(xs[..i] + xs[i + 1..j] + xs[j + 1..])
  {
    assert xs == xs[..i] + [xs[i]] + xs[i + 1..j] + [xs[j]] + xs[j + 1..];
  }

  /** Two different elements under one key: moving either to the front shows in the sorted list. */
  lemma SwapVisible<T(!new)>(key: T -> string, xs: seq<T>, i: nat, j: nat)
    requires i < j < |xs| && key(xs[i]) == key(xs[j]) && xs[i] != xs[j]
    ensures !OrderFree(key, xs)
  {
    var rest := xs[..i] + xs[i + 1..j] + xs[j + 1..];
    PullToFront(xs, i, j);
    TwoInFront(xs[i], xs[j], rest);
    TwoOrders(key, xs[i], xs[j], rest);
    OrderShows(key, xs, [xs[i]] + ([xs[j]] + rest), [xs[j]] + ([xs[i]] + rest));
  }

  lemma OrderShows<T(!new)>(key: T -> string, xs: seq<T>, us: seq<T>, vs: seq<T>)
    requires multiset(us) == multiset(xs) && multiset(vs) == multiset(xs)
    requires SortBy(key, us) != SortBy(key, vs)
    ensures !OrderFree(key, xs)
  {
  }

  lemma TwoOrders<T(!new)>(key: T -> string, u: T, v: T, rest: seq<T>)
    requires key(u) == key(v) && u != v
    ensures SortBy(key, [u] + ([v] + rest)) != SortBy(key, [v] + ([u] + rest))
  {
    FrontSurvives(key, u, [v] + rest);
    FrontSurvives(key, v, [u] + rest);
    assert ([u] + Group(key, key(u), [v] + rest))[0] != ([v] + Group(key, key(v), [u] + rest))[0];
  }

  lemma TwoInFront<T>(u: T, v: T, rest: seq<T>)
    ensures multiset([u] + ([v] + rest)) == multiset{u, v} + multiset(rest)
    ensures multiset([v] + ([u] + rest)) == multiset{u, v} + multiset(rest)
  {
  }

  lemma FrontSurvives<T>(key: T -> string, u: T, rest: seq<T>)
    ensures Group(key, key(u), SortBy(key, [u] + rest)) == [u] + Group(key, key(u), rest)
  {
    SortByStable(key, key(u), [u] + rest);
    assert ([u] + rest)[1..] == rest;
  }
}
