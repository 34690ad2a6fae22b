/** The mixing weights of the pre-block kernel: soft-max and Sinkhorn normalisation of one token's
    combination matrix, in place (rps-serve/vllm/_tilelang_ops.py, mhc_pre_big_fuse_tilelang). */
module Sinkhorn {
  import opened Sums

  type Matrix = seq<seq<real>>

  ghost predicate Square(a: Matrix, n: nat) {
    |a| == n && forall j :: 0 <= j < n ==> |a[j]| == n
  }

  ghost function At(a: Matrix, j: int, k: int): real {
    if 0 <= j < |a| && 0 <= k < |a[j]| then a[j][k] else 0.0
  }

  ghost function RowSum(a: Matrix, j: int): real { Sum(|a|, k => At(a, j, k)) }
  ghost function ColSum(a: Matrix, k: int): real { Sum(|a|, j => At(a, j, k)) }

  ghost predicate Positive(a: Matrix) {
    forall j, k :: 0 <= j < |a| && 0 <= k < |a[j]| ==> a[j][k] > 0.0
  }

  /** Of the exponential only its positivity matters, except where a shift is to cancel. */
  ghost predicate AllPositive(exp: real -> real) { forall x :: exp(x) > 0.0 }

  ghost predicate IsExp(exp: real -> real) {
    AllPositive(exp) && forall x, y :: AddsToProduct(exp, x, y)
  }

  ghost predicate AddsToProduct(exp: real -> real, x: real, y: real) {
    exp(x + y) == exp(x) * exp(y)
  }

  // ---------------------------------------------------------------- the steps as functions

  ghost function Tabulate(n: nat, f: (int, int) -> real): (a: Matrix)
    ensures Square(a, n) && forall j, k :: 0 <= j < n && 0 <= k < n ==> a[j][k] == f(j, k)
  {
    seq(n, j => seq(n, k => f(j, k)))
  }

  ghost function Quotient(x: real, d: real): real { if d == 0.0 then 0.0 else x / d }

  /** a soft-maxed along rows, plus eps in every entry. */
  ghost function SoftmaxPlus(a: Matrix, exp: real -> real, eps: real): Matrix {
    var e := Tabulate(|a|, (j, k) => exp(At(a, j, k)));
    Tabulate(|a|, (j, k) => Quotient(At(e, j, k), RowSum(e, j)) + eps)
  }

  ghost function RowStep(a: Matrix, eps: real): Matrix {
    Tabulate(|a|, (j, k) => Quotient(At(a, j, k), RowSum(a, j) + eps))
  }

  ghost function ColStep(a: Matrix, eps: real): Matrix {
    Tabulate(|a|, (j, k) => Quotient(At(a, j, k), ColSum(a, k) + eps))
  }

  ghost function Rounds(a: Matrix, eps: real, rounds: nat): Matrix {
    if rounds == 0 then a else ColStep(RowStep(Rounds(a, eps, rounds - 1), eps), eps)
  }

  /** What is saved: a repeat count of one or less makes no further round. */
  ghost function CombMix(a: Matrix, exp: real -> real, eps: real, sinkhornRepeat: int): Matrix {
    Rounds(ColStep(SoftmaxPlus(a, exp, eps), eps), eps, if sinkhornRepeat < 1 then 0 else sinkhornRepeat - 1)
  }

  // ---------------------------------------------------------------- sums of quotients

  lemma {:induction false} QuotientSum(n: nat, d: real, f: int -> real, g: int -> real)
    requires d > 0.0 && forall i :: 0 <= i < n ==> g(i) == Quotient(f(i), d)
    ensures Sum(n, g) == Quotient(Sum(n, f), d)
  {
    if n > 0 { QuotientSum(n - 1, d, f, g); }
  }

  lemma QuotientBelowOne(x: real, eps: real)
    requires x > 0.0 && eps > 0.0
    ensures 0.0 < Quotient(x, x + eps) < 1.0
  {}

  lemma QuotientPositive(x: real, d: real)
    requires x > 0.0 && d > 0.0
    ensures Quotient(x, d) > 0.0
  {}

  lemma PositiveSums(a: Matrix, n: nat, i: nat)
    requires Square(a, n) && Positive(a) && i < n
    ensures RowSum(a, i) > 0.0 && ColSum(a, i) > 0.0
  {
    SumTerm(n, k => At(a, i, k), 0);
    SumTerm(n, j => At(a, j, i), 0);
  }

  // ---------------------------------------------------------------- what one step does

  /** A row step keeps entries positive and brings every row sum below one. */
  lemma RowStepProper(a: Matrix, n: nat, eps: real)
    requires Square(a, n) && Positive(a) && eps > 0.0
    ensures Square(RowStep(a, eps), n) && Positive(RowStep(a, eps))
    ensures forall j :: 0 <= j < n ==>
      RowSum(RowStep(a, eps), j) == Quotient(RowSum(a, j), RowSum(a, j) + eps) && RowSum(RowStep(a, eps), j) < 1.0
  {
    var b := RowStep(a, eps);
    forall j, k | 0 <= j < n && 0 <= k < n ensures b[j][k] > 0.0 {
      PositiveSums(a, n, j);
      QuotientPositive(At(a, j, k), RowSum(a, j) + eps);
    }
    forall j | 0 <= j < n
      ensures RowSum(b, j) == Quotient(RowSum(a, j), RowSum(a, j) + eps) && RowSum(b, j) < 1.0
    {
      PositiveSums(a, n, j);
      QuotientSum(n, RowSum(a, j) + eps, k => At(a, j, k), k => At(b, j, k));
      QuotientBelowOne(RowSum(a, j), eps);
    }
  }

  /** A column step keeps entries positive and brings every column sum below one. */
  lemma ColStepProper(a: Matrix, n: nat, eps: real)
    requires Square(a, n) && Positive(a) && eps > 0.0
    ensures Square(ColStep(a, eps), n) && Positive(ColStep(a, eps))
    ensures forall k :: 0 <= k < n ==>
      ColSum(ColStep(a, eps), k) == Quotient(ColSum(a, k), ColSum(a, k) + eps) && ColSum(ColStep(a, eps), k) < 1.0
  {
    var b := ColStep(a, eps);
    forall j, k | 0 <= j < n && 0 <= k < n ensures b[j][k] > 0.0 {
      PositiveSums(a, n, k);
      QuotientPositive(At(a, j, k), ColSum(a, k) + eps);
    }
    forall k | 0 <= k < n
      ensures ColSum(b, k) == Quotient(ColSum(a, k), ColSum(a, k) + eps) && ColSum(b, k) < 1.0
    {
      PositiveSums(a, n, k);
      QuotientSum(n, ColSum(a, k) + eps, j => At(a, j, k), j => At(b, j, k));
      QuotientBelowOne(ColSum(a, k), eps);
    }
  }

  /** The soft-max stage is positive, and every row sums to exactly 1 + n * eps. */
  lemma SoftmaxProper(a: Matrix, n: nat, exp: real -> real, eps: real)
    requires Square(a, n) && AllPositive(exp) && eps > 0.0
    ensures Square(SoftmaxPlus(a, exp, eps), n) && Positive(SoftmaxPlus(a, exp, eps))
    ensures forall j :: 0 <= j < n ==> RowSum(SoftmaxPlus(a, exp, eps), j) == 1.0 + n as real * eps
  {
    var e := Tabulate(n, (j, k) => exp(At(a, j, k)));
    var b := SoftmaxPlus(a, exp, eps);
    forall j, k | 0 <= j < n && 0 <= k < n ensures b[j][k] > 0.0 {
      PositiveSums(e, n, j);
      QuotientPositive(At(e, j, k), RowSum(e, j));
    }
    forall j | 0 <= j < n ensures RowSum(b, j) == 1.0 + n as real * eps {
      SoftmaxRow(e, b, n, eps, j);
    }
  }

  lemma SoftmaxRow(e: Matrix, b: Matrix, n: nat, eps: real, j: nat)
    requires Square(e, n) && Positive(e) && Square(b, n) && j < n
    requires forall k :: 0 <= k < n ==> b[j][k] == Quotient(At(e, j, k), RowSum(e, j)) + eps
    ensures RowSum(b, j) == 1.0 + n as real * eps
  {
    var share := k => Quotient(At(e, j, k), RowSum(e, j));
    PositiveSums(e, n, j);
    QuotientSum(n, RowSum(e, j), k => At(e, j, k), share);
    SelfQuotient(RowSum(e, j));
    var flat := k => eps;
    ConstantSum(n, eps, flat);
    SumPlus(n, share, flat, k => At(b, j, k));
  }

  lemma {:induction false} ConstantSum(n: nat, c: real, f: int -> real)
    requires forall k :: f(k) == c
    ensures Sum(n, f) == n as real * c
  {
    if n > 0 {
      ConstantSum(n - 1, c, f);
      OneMore((n - 1) as real, c);
      assert (n - 1) as real + 1.0 == n as real;
    }
  }

  lemma OneMore(x: real, c: real)
    ensures x * c + c == (x + 1.0) * c
  {}

  lemma SelfQuotient(x: real)
    requires x > 0.0
    ensures Quotient(x, x) == 1.0
  {}

  /** Subtracting the row maximum first, as the kernel does, does not change the soft-max. */
  lemma {:induction false} ShiftInvariant(n: nat, exp: real -> real, x: int -> real, shift: real, e: int -> real,
                                          k: nat)
    requires IsExp(exp) && k < n
    requires forall k :: 0 <= k < n ==> e(k) == exp(x(k) - shift)
    ensures Sum(n, e) > 0.0
    ensures Quotient(e(k), Sum(n, e)) == Quotient(exp(x(k)), Sum(n, k => exp(x(k))))
  {
    ShiftQuotient(n, exp, x, shift, e, k => exp(x(k)), k);
  }

  lemma {:induction false} ShiftQuotient(n: nat, exp: real -> real, x: int -> real, shift: real, e: int -> real,
                                         raw: int -> real, k: nat)
    requires IsExp(exp) && k < n
    requires forall k :: 0 <= k < n ==> e(k) == exp(x(k) - shift) && raw(k) == exp(x(k))
    ensures Sum(n, e) > 0.0 && Quotient(e(k), Sum(n, e)) == Quotient(raw(k), Sum(n, raw))
  {
    var c := exp(-shift);
    forall k | 0 <= k < n ensures Scaled(e(k), c, raw(k)) {
      ShiftTerm(exp, x(k), shift);
    }
    ScaledSum(n, c, raw, e);
    PositiveSum(n, raw);
    SharedFactor(e(k), Sum(n, e), c, raw(k), Sum(n, raw));
  }

  ghost predicate Scaled(y: real, c: real, x: real) { y == c * x }

  lemma ShiftTerm(exp: real -> real, x: real, shift: real)
    requires IsExp(exp)
    ensures Scaled(exp(x - shift), exp(-shift), exp(x))
  {
    assert AddsToProduct(exp, -shift, x);
    assert -shift + x == x - shift;
  }

  lemma {:induction false} ScaledSum(n: nat, c: real, f: int -> real, g: int -> real)
    requires forall i :: 0 <= i < n ==> Scaled(g(i), c, f(i))
    ensures Scaled(Sum(n, g), c, Sum(n, f))
  {
    SumScale(n, c, f, g);
  }

  lemma {:induction false} PositiveSum(n: nat, f: int -> real)
    requires n > 0 && forall i :: 0 <= i < n ==> f(i) > 0.0
    ensures Sum(n, f) > 0.0
  {
    SumTerm(n, f, 0);
  }

  lemma SharedFactor(e: real, s: real, c: real, x: real, d: real)
    requires c > 0.0 && d > 0.0 && e == c * x && s == c * d
    ensures s > 0.0 && Quotient(e, s) == Quotient(x, d)
  {
    MulPositive(c, d);
    CancelFactor(c, x, d);
  }

  lemma MulPositive(x: real, y: real)
    requires x > 0.0 && y > 0.0
    ensures x * y > 0.0
  {}

  lemma CancelFactor(c: real, x: real, d: real)
    requires c > 0.0 && d > 0.0
    ensures Quotient(c * x, c * d) == Quotient(x, d)
  {
    var q := x / d;
    assert q * d == x;
    assert q * (c * d) == c * x;
  }

  // ---------------------------------------------------------------- the whole normalisation

  ghost predicate ColumnsBelowOne(a: Matrix) {
    forall k :: 0 <= k < |a| ==> ColSum(a, k) < 1.0
  }

  lemma {:induction false} RoundsProper(a: Matrix, n: nat, eps: real, rounds: nat)
    requires Square(a, n) && Positive(a) && ColumnsBelowOne(a) && eps > 0.0
    ensures Square(Rounds(a, eps, rounds), n) && Positive(Rounds(a, eps, rounds)) &&
      ColumnsBelowOne(Rounds(a, eps, rounds))
  {
    if rounds > 0 {
      RoundsProper(a, n, eps, rounds - 1);
      var b := Rounds(a, eps, rounds - 1);
      RowStepProper(b, n, eps);
      ColStepProper(RowStep(b, eps), n, eps);
    }
  }

  /** For any input, any repeat count and any positive eps, every saved weight is positive and
      every column of the saved matrix sums to less than one; so every weight is below one. */
  lemma CombMixProper(a: Matrix, n: nat, exp: real -> real, eps: real, sinkhornRepeat: int)
    requires Square(a, n) && AllPositive(exp) && eps > 0.0
    ensures var m := CombMix(a, exp, eps, sinkhornRepeat);
      Square(m, n) && Positive(m) && ColumnsBelowOne(m) && forall j, k :: 0 <= j < n && 0 <= k < n ==> m[j][k] < 1.0
  {
    var s := SoftmaxPlus(a, exp, eps);
    SoftmaxProper(a, n, exp, eps);
    ColStepProper(s, n, eps);
    RoundsProper(ColStep(s, eps), n, eps, if sinkhornRepeat < 1 then 0 else sinkhornRepeat - 1);
    var m := CombMix(a, exp, eps, sinkhornRepeat);
    forall j, k | 0 <= j < n && 0 <= k < n ensures m[j][k] < 1.0 {
      EntryInColumn(m, n, j, k);
    }
  }

  lemma EntryInColumn(m: Matrix, n: nat, j: nat, k: nat)
    requires Square(m, n) && Positive(m) && j < n && k < n
    ensures m[j][k] <= ColSum(m, k)
  {
    var column := j => At(m, j, k);
    forall i | 0 <= i < n ensures column(i) >= 0.0 {
      assert column(i) == m[i][k];
    }
    SumTerm(n, column, j);
  }

  // ---------------------------------------------------------------- entry by entry, round by round

  /** An entry times the sum of its old row plus eps is the old entry. */
  lemma {:induction false} RowEntry(a: Matrix, n: nat, eps: real, j: nat, k: nat, row: int -> real)
    requires Square(a, n) && Positive(a) && eps > 0.0 && j < n && k < n
    requires forall l :: 0 <= l < n ==> row(l) == a[j][l]
    ensures RowStep(a, eps)[j][k] * (Sum(n, row) + eps) == a[j][k]
  {
    PositiveSums(a, n, j);
    SumExt(n, k => At(a, j, k), row);
    QuotientTimes(a[j][k], Sum(n, row) + eps);
  }

  /** An entry times the sum of its old column plus eps is the old entry. */
  lemma {:induction false} ColEntry(a: Matrix, n: nat, eps: real, j: nat, k: nat, column: int -> real)
    requires Square(a, n) && Positive(a) && eps > 0.0 && j < n && k < n
    requires forall l :: 0 <= l < n ==> column(l) == a[l][k]
    ensures ColStep(a, eps)[j][k] * (Sum(n, column) + eps) == a[j][k]
  {
    PositiveSums(a, n, k);
    SumExt(n, j => At(a, j, k), column);
    QuotientTimes(a[j][k], Sum(n, column) + eps);
  }

  /** Less eps, a soft-maxed entry times the sum of its row's exponentials is its own exponential. */
  lemma {:induction false} SoftmaxShare(a: Matrix, n: nat, exp: real -> real, eps: real, j: nat, k: nat,
                                        row: int -> real)
    requires Square(a, n) && AllPositive(exp) && j < n && k < n
    requires forall l :: 0 <= l < n ==> row(l) == exp(a[j][l])
    ensures (SoftmaxPlus(a, exp, eps)[j][k] - eps) * Sum(n, row) == exp(a[j][k])
  {
    ShareOf(Tabulate(n, (j, k) => exp(At(a, j, k))), n, j, k, row);
  }

  lemma {:induction false} ShareOf(e: Matrix, n: nat, j: nat, k: nat, row: int -> real)
    requires Square(e, n) && Positive(e) && j < n && k < n
    requires forall l :: 0 <= l < n ==> row(l) == e[j][l]
    ensures Quotient(At(e, j, k), RowSum(e, j)) * Sum(n, row) == e[j][k]
  {
    PositiveSums(e, n, j);
    SumExt(n, k => At(e, j, k), row);
    QuotientTimes(e[j][k], Sum(n, row));
  }

  lemma QuotientTimes(x: real, d: real)
    requires d > 0.0
    ensures Quotient(x, d) * d == x
  {}

  /** Matrices each made from the one before: the soft-max first, then the columns and the rows are
      normalised in turn. */
  ghost predicate History(h: seq<Matrix>, a: Matrix, exp: real -> real, eps: real) {
    && h != [] && h[0] == SoftmaxPlus(a, exp, eps)
    && forall i :: 0 < i < |h| ==> h[i] == Turn(h[i - 1], eps, i)
  }

  ghost function Turn(m: Matrix, eps: real, i: nat): Matrix {
    if i % 2 == 1 then ColStep(m, eps) else RowStep(m, eps)
  }

  /** What is saved is the end of the history with one column normalisation for every repeat, at least
      one, and a row normalisation between any two of them. */
  lemma {:induction false} CombMixHistory(h: seq<Matrix>, a: Matrix, exp: real -> real, eps: real, sinkhornRepeat: int)
    requires History(h, a, exp, eps) && |h| == if sinkhornRepeat < 1 then 2 else 2 * sinkhornRepeat
    ensures h[|h| - 1] == CombMix(a, exp, eps, sinkhornRepeat)
  {
    if sinkhornRepeat > 1 {
      var n := 2 * sinkhornRepeat - 1;
      CombMixHistory(h[..n - 1], a, exp, eps, sinkhornRepeat - 1);
      assert h[n] == Turn(h[n - 1], eps, n) && h[n - 1] == Turn(h[n - 2], eps, n - 1);
      assert h[..n - 1][n - 2] == h[n - 2];
    } else {
      assert h[1] == Turn(h[0], eps, 1);
    }
  }

  // ---------------------------------------------------------------- the kernel, in place

  /** The fragment cm holds matrix a. */
  ghost predicate Holds(cm: array2<real>, a: Matrix)
    reads cm
  {
    && cm.Length0 == cm.Length1 == |a| && Square(a, |a|)
    && forall j, k :: 0 <= j < |a| && 0 <= k < |a| ==> cm[j, k] == a[j][k]
  }

  method ReduceRows(cm: array2<real>, ghost a: Matrix) returns (rowSum: array<real>)
    requires Holds(cm, a)
    ensures fresh(rowSum) && rowSum.Length == |a|
    ensures forall j :: 0 <= j < |a| ==> rowSum[j] == RowSum(a, j)
  {
    rowSum := new real[cm.Length0];
    for j := 0 to cm.Length0
      invariant forall l :: 0 <= l < j ==> rowSum[l] == RowSum(a, l)
      invariant Holds(cm, a)
    {
      var s := 0.0;
      for k := 0 to cm.Length1
        invariant s == Sum(k, k => At(a, j, k))
      {
        s := s + cm[j, k];
      }
      rowSum[j] := s;
    }
  }

  method ReduceCols(cm: array2<real>, ghost a: Matrix) returns (colSum: array<real>)
    requires Holds(cm, a)
    ensures fresh(colSum) && colSum.Length == |a|
    ensures forall k :: 0 <= k < |a| ==> colSum[k] == ColSum(a, k)
  {
    colSum := new real[cm.Length1];
    for k := 0 to cm.Length1
      invariant forall l :: 0 <= l < k ==> colSum[l] == ColSum(a, l)
      invariant Holds(cm, a)
    {
      var s := 0.0;
      for j := 0 to cm.Length0
        invariant s == Sum(j, j => At(a, j, k))
      {
        s := s + cm[j, k];
      }
      colSum[k] := s;
    }
  }

  method NormalizeRows(cm: array2<real>, eps: real, ghost a: Matrix)
    requires Holds(cm, a) && Positive(a) && eps > 0.0
    modifies cm
    ensures Holds(cm, RowStep(a, eps))
  {
    var rowSum := ReduceRows(cm, a);
    forall j | 0 <= j < |a| ensures rowSum[j] > 0.0 { PositiveSums(a, |a|, j); }
    forall j, k | 0 <= j < cm.Length0 && 0 <= k < cm.Length1 {
      cm[j, k] := cm[j, k] / (rowSum[j] + eps);
    }
  }

  method NormalizeCols(cm: array2<real>, eps: real, ghost a: Matrix)
    requires Holds(cm, a) && Positive(a) && eps > 0.0
    modifies cm
    ensures Holds(cm, ColStep(a, eps))
  {
    var colSum := ReduceCols(cm, a);
    forall k | 0 <= k < |a| ensures colSum[k] + eps > 0.0 { PositiveSums(a, |a|, k); }
    assert forall j, k :: 0 <= j < |a| && 0 <= k < |a| ==> ColStep(a, eps)[j][k] == Quotient(a[j][k], colSum[k] + eps);
    forall j, k | 0 <= j < cm.Length0 && 0 <= k < cm.Length1 {
      cm[j, k] := cm[j, k] / (colSum[k] + eps);
    }
  }

  method ReduceMax(cm: array2<real>, ghost a: Matrix) returns (rowMax: array<real>)
    requires Holds(cm, a) && |a| > 0
    ensures fresh(rowMax) && rowMax.Length == |a|
    ensures forall j :: 0 <= j < |a| ==> rowMax[j] in a[j] && forall k :: 0 <= k < |a| ==> a[j][k] <= rowMax[j]
  {
    rowMax := new real[cm.Length0];
    for j := 0 to cm.Length0
      invariant Holds(cm, a)
      invariant forall l :: 0 <= l < j ==> rowMax[l] in a[l] && forall k :: 0 <= k < |a| ==> a[l][k] <= rowMax[l]
    {
      var m := cm[j, 0];
      for k := 1 to cm.Length1
        invariant m in a[j] && forall l :: 0 <= l < k ==> a[j][l] <= m
      {
        if cm[j, k] > m { m := cm[j, k]; }
      }
      rowMax[j] := m;
    }
  }

  /** Soft-max with the row maximum subtracted, so that no exponent is positive. */
  method SoftmaxRows(cm: array2<real>, exp: real -> real, eps: real, ghost a: Matrix)
    requires Holds(cm, a) && |a| > 0 && IsExp(exp) && eps > 0.0
    modifies cm
    ensures Holds(cm, SoftmaxPlus(a, exp, eps))
  {
    var rowMax := ReduceMax(cm, a);
    Exponentiate(cm, exp, rowMax, a);
    ghost var e := Shifted(a, exp, rowMax[..]);
    var rowSum := ReduceRows(cm, e);
    forall j, k | 0 <= j < |a| && 0 <= k < |a|
      ensures RowSum(e, j) > 0.0 && Quotient(At(e, j, k), RowSum(e, j)) + eps == At(SoftmaxPlus(a, exp, eps), j, k)
    {
      SoftmaxEntry(a, exp, eps, rowMax[..], j, k);
    }
    DivideRows(cm, rowSum, eps, e, SoftmaxPlus(a, exp, eps));
  }

  /** Every exponent is at most zero, and in each row some exponent is zero. */
  method Exponentiate(cm: array2<real>, exp: real -> real, rowMax: array<real>, ghost a: Matrix)
    requires Holds(cm, a) && rowMax.Length == |a|
    requires forall j :: 0 <= j < |a| ==> rowMax[j] in a[j] && forall k :: 0 <= k < |a| ==> a[j][k] <= rowMax[j]
    modifies cm
    ensures Holds(cm, Shifted(a, exp, rowMax[..]))
  {
    assert forall j, k :: 0 <= j < |a| && 0 <= k < |a| ==> cm[j, k] - rowMax[j] <= 0.0;
    forall j, k | 0 <= j < cm.Length0 && 0 <= k < cm.Length1 {
      cm[j, k] := exp(cm[j, k] - rowMax[j]);
    }
  }

  method DivideRows(cm: array2<real>, rowSum: array<real>, eps: real, ghost e: Matrix, ghost r: Matrix)
    requires Holds(cm, e) && rowSum.Length == |e| && Square(r, |e|)
    requires forall j :: 0 <= j < |e| ==> rowSum[j] == RowSum(e, j)
    requires forall j, k :: 0 <= j < |e| && 0 <= k < |e| ==>
      RowSum(e, j) > 0.0 && Quotient(At(e, j, k), RowSum(e, j)) + eps == At(r, j, k)
    modifies cm
    ensures Holds(cm, r)
  {
    forall j, k | 0 <= j < |e| && 0 <= k < |e|
      ensures rowSum[j] > 0.0 && r[j][k] == Quotient(cm[j, k], rowSum[j]) + eps
    {
      assert At(r, j, k) == r[j][k] && At(e, j, k) == cm[j, k];
    }
    forall j, k | 0 <= j < cm.Length0 && 0 <= k < cm.Length1 {
      cm[j, k] := cm[j, k] / rowSum[j] + eps;
    }
  }

  ghost function Shifted(a: Matrix, exp: real -> real, shift: seq<real>): Matrix {
    Tabulate(|a|, (j: int, k: int) => if 0 <= j < |shift| then exp(At(a, j, k) - shift[j]) else 0.0)
  }

  lemma SoftmaxEntry(a: Matrix, exp: real -> real, eps: real, shift: seq<real>, j: nat, k: nat)
    requires Square(a, |a|) && |shift| == |a| && j < |a| && k < |a| && IsExp(exp)
    ensures var e := Shifted(a, exp, shift);
      RowSum(e, j) > 0.0 && Quotient(At(e, j, k), RowSum(e, j)) + eps == At(SoftmaxPlus(a, exp, eps), j, k)
  {
    var e := Shifted(a, exp, shift);
    var plain := Tabulate(|a|, (j, k) => exp(At(a, j, k)));
    ShiftInvariant(|a|, exp, k => At(a, j, k), shift[j], k => At(e, j, k), k);
    SumExt(|a|, k => At(plain, j, k), k => exp(At(a, j, k)));
    SumExt(|a|, k => exp((k => At(a, j, k))(k)), k => exp(At(a, j, k)));
  }

  /** The normalisation as the kernel runs it. */
  method SinkhornForward(cm: array2<real>, exp: real -> real, eps: real, sinkhornRepeat: int, ghost a: Matrix)
    requires Holds(cm, a) && |a| > 0 && IsExp(exp) && eps > 0.0
    modifies cm
    ensures Holds(cm, CombMix(a, exp, eps, sinkhornRepeat))
  {
    SoftmaxRows(cm, exp, eps, a);
    SoftmaxProper(a, |a|, exp, eps);
    ghost var first := ColStep(SoftmaxPlus(a, exp, eps), eps);
    NormalizeCols(cm, eps, SoftmaxPlus(a, exp, eps));
    ColStepProper(SoftmaxPlus(a, exp, eps), |a|, eps);
    var r := 0;
    while r < sinkhornRepeat - 1
      invariant 0 <= r && (r <= sinkhornRepeat - 1 || r == 0)
      invariant Holds(cm, Rounds(first, eps, r))
    {
      ghost var b := Rounds(first, eps, r);
      RoundsProper(first, |a|, eps, r);
      NormalizeRows(cm, eps, b);
      RowStepProper(b, |a|, eps);
      NormalizeCols(cm, eps, RowStep(b, eps));
      r := r + 1;
    }
  }
}
