/** Finite sums of reals and counts over index ranges, with the few algebraic laws
    the other modules need: extensionality, linearity, re-tiling and exchange. */
module Sums {

  ghost function Sum(n: nat, f: int -> real): real {
    if n == 0 then 0.0 else Sum(n - 1, f) + f(n - 1)
  }

  ghost function Count(n: nat, p: int -> bool): nat {
    if n == 0 then 0 else Count(n - 1, p) + (if p(n - 1) then 1 else 0)
  }

  lemma NextMultiple(a: int, n: int)
    ensures (a + 1) * n == a * n + n
  {}

  lemma {:induction false} SumExt(n: nat, f: int -> real, g: int -> real)
    requires forall i :: 0 <= i < n ==> f(i) == g(i)
    ensures Sum(n, f) == Sum(n, g)
  {
    if n > 0 { SumExt(n - 1, f, g); }
  }

  lemma {:induction false} SumPlus(n: nat, f: int -> real, g: int -> real, h: int -> real)
    requires forall i :: 0 <= i < n ==> h(i) == f(i) + g(i)
    ensures Sum(n, h) == Sum(n, f) + Sum(n, g)
  {
    if n > 0 { SumPlus(n - 1, f, g, h); }
  }

  lemma {:induction false} SumScale(n: nat, c: real, f: int -> real, g: int -> real)
    requires forall i :: 0 <= i < n ==> g(i) == c * f(i)
    ensures Sum(n, g) == c * Sum(n, f)
  {
    if n > 0 { SumScale(n - 1, c, f, g); }
  }

  lemma {:induction false} SumLe(n: nat, f: int -> real, g: int -> real)
    requires forall i :: 0 <= i < n ==> f(i) <= g(i)
    ensures Sum(n, f) <= Sum(n, g)
  {
    if n > 0 { SumLe(n - 1, f, g); }
  }

  /** A sum of non-negative terms bounds each of them. */
  lemma {:induction false} SumTerm(n: nat, f: int -> real, k: int)
    requires 0 <= k < n
    requires forall i :: 0 <= i < n ==> f(i) >= 0.0
    ensures 0.0 <= f(k) <= Sum(n, f)
  {
    SumNonNegative(n - 1, f);
    if k < n - 1 { SumTerm(n - 1, f, k); }
  }

  lemma {:induction false} SumNonNegative(n: nat, f: int -> real)
    requires forall i :: 0 <= i < n ==> f(i) >= 0.0
    ensures Sum(n, f) >= 0.0
  {
    if n > 0 { SumNonNegative(n - 1, f); }
  }

  lemma {:induction false} SumZero(n: nat, f: int -> real)
    requires forall i :: 0 <= i < n ==> f(i) == 0.0
    ensures Sum(n, f) == 0.0
  {
    if n > 0 { SumZero(n - 1, f); }
  }

  /** Changing one term changes the sum by the same amount. */
  lemma {:induction false} SumUpdate(n: nat, f: int -> real, g: int -> real, k: int)
    requires 0 <= k < n
    requires forall i :: 0 <= i < n && i != k ==> f(i) == g(i)
    ensures Sum(n, g) == Sum(n, f) + g(k) - f(k)
  {
    if k < n - 1 { SumUpdate(n - 1, f, g, k); } else { SumExt(n - 1, f, g); }
  }

  lemma {:induction false} SumSingle(n: nat, f: int -> real, k: int)
    requires 0 <= k < n
    requires forall i :: 0 <= i < n && i != k ==> f(i) == 0.0
    ensures Sum(n, f) == f(k)
  {
    SumZero(n, (i: int) => 0.0);
    SumUpdate(n, (i: int) => 0.0, f, k);
  }

  lemma {:induction false} SumAppend(m: nat, n: nat, f: int -> real, g: int -> real)
    requires forall i :: 0 <= i < n ==> g(i) == f(m + i)
    ensures Sum(m + n, f) == Sum(m, f) + Sum(n, g)
  {
    if n > 0 { SumAppend(m, n - 1, f, g); }
  }

  /** Trailing zero terms may be dropped. */
  lemma {:induction false} SumTail(m: nat, n: nat, f: int -> real)
    requires m <= n && forall i :: m <= i < n ==> f(i) == 0.0
    ensures Sum(n, f) == Sum(m, f)
  {
    if m < n { SumTail(m, n - 1, f); }
  }

  lemma {:induction false} SumPadded(m: nat, n: nat, g: int -> real, f: int -> real)
    requires m <= n && forall i :: 0 <= i < n ==> f(i) == if i < m then g(i) else 0.0
    ensures Sum(n, f) == Sum(m, g)
  {
    SumTail(m, n, f);
    SumExt(m, f, g);
  }

  /** The terms of f inside the window [lo, hi). */
  lemma {:induction false} SumWindow(n: nat, f: int -> real, lo: nat, hi: nat, g: int -> real)
    requires lo <= hi
    requires forall k :: 0 <= k < n ==> g(k) == if lo <= k < hi then f(k) else 0.0
    ensures Sum(n, g) == Sum(if n < hi then n else hi, f) - Sum(if n < lo then n else lo, f)
  {
    if n > 0 { SumWindow(n - 1, f, lo, hi, g); }
  }

  /** Cutting a range of a * b indices into a tiles of b leaves the sum unchanged. */
  lemma {:induction false} SumTile(a: nat, b: nat, f: int -> real, g: int -> real)
    requires forall i :: 0 <= i < a ==> g(i) == Sum(b, j => f(i * b + j))
    ensures a * b >= 0 && Sum(a * b, f) == Sum(a, g)
  {
    if a > 0 {
      SumTile(a - 1, b, f, g);
      NextMultiple(a - 1, b);
      SumNextTile((a - 1) * b, b, f, g(a - 1));
    }
  }

  lemma SumNextTile(m: nat, b: nat, f: int -> real, tile: real)
    requires tile == Sum(b, j => f(m + j))
    ensures Sum(m + b, f) == Sum(m, f) + tile
  {
    SumAppend(m, b, f, j => f(m + j));
  }

  /** Exchanging the order of a double sum. */
  lemma {:induction false} SumSwap(a: nat, b: nat, f: (int, int) -> real, rows: int -> real, cols: int -> real)
    requires forall i :: 0 <= i < a ==> rows(i) == Sum(b, j => f(i, j))
    requires forall j :: 0 <= j < b ==> cols(j) == Sum(a, i => f(i, j))
    ensures Sum(a, rows) == Sum(b, cols)
  {
    if a == 0 {
      SumZero(b, cols);
    } else {
      var last := (j: int) => f(a - 1, j);
      var cols' := (j: int) => Sum(a - 1, i => f(i, j));
      SumSwap(a - 1, b, f, rows, cols');
      forall j | 0 <= j < b ensures cols(j) == cols'(j) + last(j) {
        SumExt(a - 1, i => f(i, j), i => f(i, j));
      }
      SumPlus(b, cols', last, cols);
      SumExt(b, j => f(a - 1, j), last);
    }
  }

  /** A constant summed over the indices that satisfy p. */
  lemma {:induction false} SumIndicator(n: nat, p: int -> bool, c: real, f: int -> real)
    requires forall i :: 0 <= i < n ==> f(i) == if p(i) then c else 0.0
    ensures Sum(n, f) == c * (Count(n, p) as real)
  {
    if n > 0 { SumIndicator(n - 1, p, c, f); }
  }

  lemma {:induction false} CountExt(n: nat, p: int -> bool, q: int -> bool)
    requires forall i :: 0 <= i < n ==> p(i) == q(i)
    ensures Count(n, p) == Count(n, q)
  {
    if n > 0 { CountExt(n - 1, p, q); }
  }

  lemma {:induction false} CountPositive(n: nat, p: int -> bool)
    ensures Count(n, p) > 0 <==> exists i :: 0 <= i < n && p(i)
  {
    if n > 0 { CountPositive(n - 1, p); }
  }

  ghost predicate ChosenIn<T>(xs: seq<T>, p: int -> bool, x: T) { exists i :: 0 <= i < |xs| && p(i) && xs[i] == x }

  /** Over a sequence without repetition, the elements selected by p form a set of Count(p) members. */
  lemma {:induction false} CountIsCardinality<T>(xs: seq<T>, p: int -> bool, s: set<T>)
    requires forall i, j :: 0 <= i < j < |xs| ==> xs[i] != xs[j]
    requires forall x {:trigger ChosenIn(xs, p, x)} :: x in s <==> ChosenIn(xs, p, x)
    ensures |s| == Count(|xs|, p)
  {
    if |xs| == 0 {
      assert s == {} by { forall x | x in s ensures ChosenIn(xs, p, x) {} }
    } else {
      var n := |xs| - 1;
      var s' := s - {xs[n]};
      ChosenBefore(xs, p, s, xs[..n], s');
      CountIsCardinality(xs[..n], p, s');
      OneElement(s, s', xs[n]);
    }
  }

  lemma ChosenBefore<T>(xs: seq<T>, p: int -> bool, s: set<T>, rest: seq<T>, s': set<T>)
    requires xs != [] && rest == xs[..|xs| - 1] && s' == s - {xs[|xs| - 1]}
    requires forall i, j :: 0 <= i < j < |xs| ==> xs[i] != xs[j]
    requires forall x {:trigger ChosenIn(xs, p, x)} :: x in s <==> ChosenIn(xs, p, x)
    ensures forall x {:trigger ChosenIn(rest, p, x)} :: x in s' <==> ChosenIn(rest, p, x)
    ensures xs[|xs| - 1] in s <==> p(|xs| - 1)
  {
    var last := xs[|xs| - 1];
    assert last in s <==> ChosenIn(xs, p, last);
    forall x ensures x in s' <==> ChosenIn(rest, p, x) {
      assert x in s <==> ChosenIn(xs, p, x);
      if i :| 0 <= i < |xs| && p(i) && xs[i] == x && x != last { assert rest[i] == x; }
      if i :| 0 <= i < |rest| && p(i) && rest[i] == x { assert xs[i] == x; }
    }
  }

  lemma OneElement<T>(s: set<T>, s': set<T>, x: T)
    requires s' == s - {x}
    ensures |s| == |s'| + if x in s then 1 else 0
  {
    if x !in s { assert s == s'; }
  }

  /** The total of a sequence of naturals, and of reals. */
  function Total(xs: seq<nat>): nat {
    if xs == [] then 0 else Total(xs[..|xs| - 1]) + xs[|xs| - 1]
  }

  function RealTotal(xs: seq<real>): real {
    if xs == [] then 0.0 else RealTotal(xs[..|xs| - 1]) + xs[|xs| - 1]
  }

  lemma {:induction false} RealTotalNext(xs: seq<real>, x: real)
    ensures RealTotal(xs + [x]) == RealTotal(xs) + x
  {
    assert (xs + [x])[..|xs|] == xs;
  }
}
