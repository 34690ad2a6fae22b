/** What the kernels of rps-serve/vllm/_tilelang_ops.py compute, by laws that hold of their results: what a
    single entry of each operand contributes, and that contributions add up. */
module KernelLaws {
  import opened Sums
  import opened FusedKernel
  import opened PreMix
  import opened HeadFuse

  // ---------------------------------------------------------------- the new residual

  /** The mixing matrix of token i has v at row k0, column j0, and zeros elsewhere. */
  ghost predicate OneRoute(inp: Input, i: int, k0: int, j0: int, v: real) {
    forall k, j :: At3(inp.comb, i, k, j) == if k == k0 && j == j0 then v else 0.0
  }

  ghost predicate NoPost(inp: Input, i: int) { forall j :: At2(inp.post, i, j) == 0.0 }

  ghost predicate NoComb(inp: Input, i: int) { forall k, j :: At3(inp.comb, i, k, j) == 0.0 }

  /** Entry (k0, j0) of the mixing matrix takes the old residual of channel k0 to channel j0. */
  lemma RouteStored(inp: Input, r: array3<real>, i: nat, x: nat, k0: nat, j0: nat, v: real)
    requires Shaped(inp) && ResidualRight(inp, r, i, x) && k0 < inp.hc && j0 < inp.hc
    requires NoPost(inp, i) && OneRoute(inp, i, k0, j0, v)
    ensures r[i, j0, x] == v * At3(inp.residual, i, k0, x)
    ensures forall j :: 0 <= j < inp.hc && j != j0 ==> r[i, j, x] == 0.0
  {
    forall j | 0 <= j < inp.hc ensures NewR(inp, i, j, x) == if j == j0 then v * At3(inp.residual, i, k0, x) else 0.0 {
      SumSingle(inp.hc, k => At3(inp.comb, i, k, j) * At3(inp.residual, i, k, x), k0);
    }
  }

  /** Without mixing, channel j stores the layer's output times its post-mapping weight. */
  lemma PostStored(inp: Input, r: array3<real>, i: nat, x: nat, j: nat)
    requires Shaped(inp) && ResidualRight(inp, r, i, x) && NoComb(inp, i) && j < inp.hc
    ensures r[i, j, x] == At2(inp.post, i, j) * At2(inp.x, i, x)
  {
    SumZero(inp.hc, k => At3(inp.comb, i, k, j) * At3(inp.residual, i, k, x));
  }

  /** c has the sums of the mixing matrices and post-mapping weights of a and b for token i, and otherwise
      the same operands. */
  ghost predicate AddsUp(a: Input, b: Input, c: Input, i: int) {
    && b.hc == a.hc == c.hc
    && (forall k, x :: At3(b.residual, i, k, x) == At3(a.residual, i, k, x) == At3(c.residual, i, k, x))
    && (forall x :: At2(b.x, i, x) == At2(a.x, i, x) == At2(c.x, i, x))
    && (forall k, j :: At3(c.comb, i, k, j) == At3(a.comb, i, k, j) + At3(b.comb, i, k, j))
    && (forall j :: At2(c.post, i, j) == At2(a.post, i, j) + At2(b.post, i, j))
  }

  lemma ResidualAdds(a: Input, b: Input, c: Input, i: int, j: int, x: int)
    requires AddsUp(a, b, c, i)
    ensures NewR(c, i, j, x) == NewR(a, i, j, x) + NewR(b, i, j, x)
  {
    var f := k => At3(a.comb, i, k, j) * At3(a.residual, i, k, x);
    var g := k => At3(b.comb, i, k, j) * At3(b.residual, i, k, x);
    var h := k => At3(c.comb, i, k, j) * At3(c.residual, i, k, x);
    forall k | 0 <= k < a.hc ensures h(k) == f(k) + g(k) {
      Distributes(At3(a.comb, i, k, j), At3(b.comb, i, k, j), At3(a.residual, i, k, x));
    }
    SumPlus(a.hc, f, g, h);
    Distributes(At2(a.post, i, j), At2(b.post, i, j), At2(a.x, i, x));
  }

  lemma Distributes(a: real, b: real, x: real)
    ensures (a + b) * x == a * x + b * x
  {}

  /** What is stored is additive in the mixing matrix and the post-mapping weights. */
  lemma StoredAdds(a: Input, b: Input, c: Input, p: array3<real>, q: array3<real>, r: array3<real>, i: nat, x: nat,
                   j: nat)
    requires AddsUp(a, b, c, i) && j < a.hc
    requires ResidualRight(a, p, i, x) && ResidualRight(b, q, i, x) && ResidualRight(c, r, i, x)
    ensures r[i, j, x] == p[i, j, x] + q[i, j, x]
  {
    ResidualAdds(a, b, c, i, j, x);
  }

  /** Two channels and one hidden index, the second channel fed by the first. */
  lemma SwapStores(r: array3<real>)
    requires var inp := Input(1, 2, 1, 0, [[[0.0, 1.0], [0.0, 0.0]]], [[[5.0], [0.0]]], [[0.0, 0.0]], [[0.0]], []);
      ResidualRight(inp, r, 0, 0)
    ensures r[0, 0, 0] == 0.0 && r[0, 1, 0] == 5.0
  {
    var inp := Input(1, 2, 1, 0, [[[0.0, 1.0], [0.0, 0.0]]], [[[5.0], [0.0]]], [[0.0, 0.0]], [[0.0]], []);
    assert Shaped(inp) && NoPost(inp, 0) && OneRoute(inp, 0, 0, 1, 1.0);
    RouteStored(inp, r, 0, 0, 0, 1, 1.0);
  }

  // ---------------------------------------------------------------- the projections and the squares

  /** Row col of the weights has v at channel j0 and hidden index x0, and zeros elsewhere. */
  ghost predicate OneWeight(inp: Input, col: int, j0: int, x0: int, v: real) {
    forall j, x :: At3(inp.weight, col, j, x) == if j == j0 && x == x0 then v else 0.0
  }

  /** For a tiling that divides, that entry's output is v times what is stored there, whatever the rest. */
  lemma {:induction false} ColumnPicks(inp: Input, t: Tiling, r: array3<real>, i: nat, col: nat, j0: nat, x0: nat,
                                       v: real)
    requires Shaped(inp) && ValidTiling(t) && inp.h % t.splitK == 0 && (inp.h / t.splitK) % t.nThr == 0
    requires i < inp.m && col < inp.nOut && j0 < inp.hc && x0 < inp.h
    requires OneWeight(inp, col, j0, x0, v) && ResidualRight(inp, r, i, x0)
    ensures SplitTotal(inp, t, i, col) == v * r[i, j0, x0]
  {
    PlainSum(inp, t, i, col);
    PlainPicks(inp, i, col, j0, x0, v, r[i, j0, x0]);
  }

  lemma {:induction false} PlainSum(inp: Input, t: Tiling, i: int, col: int)
    requires ValidTiling(t) && inp.h % t.splitK == 0 && (inp.h / t.splitK) % t.nThr == 0
    ensures SplitTotal(inp, t, i, col) == Plain(inp, i, col)
  {
    TiledIsPlain(inp, t, i, col);
  }

  ghost function Plain(inp: Input, i: int, col: int): real { Sum(inp.h, x => Addend(inp, i, col, x)) }

  lemma {:induction false} PlainPicks(inp: Input, i: int, col: int, j0: nat, x0: nat, v: real, stored: real)
    requires col != inp.nOut && j0 < inp.hc && x0 < inp.h && OneWeight(inp, col, j0, x0, v)
    requires stored == NewR(inp, i, j0, x0)
    ensures Plain(inp, i, col) == v * stored
  {
    forall x ensures Addend(inp, i, col, x) == if x == x0 then v * NewR(inp, i, j0, x0) else 0.0 {
      AddendPicks(inp, i, col, x, j0, x0, v);
    }
    SumSingle(inp.h, x => Addend(inp, i, col, x), x0);
  }

  lemma {:induction false} AddendPicks(inp: Input, i: int, col: int, x: int, j0: nat, x0: nat, v: real)
    requires col != inp.nOut && j0 < inp.hc && OneWeight(inp, col, j0, x0, v)
    ensures Addend(inp, i, col, x) == if x == x0 then v * NewR(inp, i, j0, x0) else 0.0
  {
    SumSingle(inp.hc, j => At3(inp.weight, col, j, x) * NewR(inp, i, j, x), j0);
  }

  /** At hidden index x the weights of c are the sums of those of a and b in row col; what is stored there
      for token i is the same. */
  ghost predicate WeightsAdd(a: Input, b: Input, c: Input, i: int, col: int, x: int, stored: int -> real) {
    && b.hc == a.hc == c.hc && col != a.nOut && col != b.nOut && col != c.nOut
    && (forall j :: NewR(a, i, j, x) == stored(j)) && (forall j :: NewR(b, i, j, x) == stored(j))
    && (forall j :: NewR(c, i, j, x) == stored(j))
    && (forall j :: At3(c.weight, col, j, x) == At3(a.weight, col, j, x) + At3(b.weight, col, j, x))
  }

  /** The contributions of the weights add up. */
  lemma {:induction false} ColumnAdds(a: Input, b: Input, c: Input, i: int, col: int, x: int, stored: int -> real)
    requires WeightsAdd(a, b, c, i, col, x, stored)
    ensures Addend(c, i, col, x) == Addend(a, i, col, x) + Addend(b, i, col, x)
  {
    var f, g := j => At3(a.weight, col, j, x), j => At3(b.weight, col, j, x);
    var h := j => At3(c.weight, col, j, x);
    DotIs(a, i, col, x, f, stored);
    DotIs(b, i, col, x, g, stored);
    DotIs(c, i, col, x, h, stored);
    ProductsAdd(a.hc, f, g, h, stored);
  }

  lemma {:induction false} DotIs(inp: Input, i: int, col: int, x: int, weight: int -> real, stored: int -> real)
    requires col != inp.nOut && forall j :: NewR(inp, i, j, x) == stored(j)
    requires forall j :: At3(inp.weight, col, j, x) == weight(j)
    ensures Addend(inp, i, col, x) == Sum(inp.hc, j => weight(j) * stored(j))
  {
    SumExt(inp.hc, j => At3(inp.weight, col, j, x) * NewR(inp, i, j, x), j => weight(j) * stored(j));
  }

  lemma {:induction false} ProductsAdd(n: nat, f: int -> real, g: int -> real, h: int -> real, y: int -> real)
    requires forall j :: h(j) == f(j) + g(j)
    ensures Sum(n, j => h(j) * y(j)) == Sum(n, j => f(j) * y(j)) + Sum(n, j => g(j) * y(j))
  {
    forall j ensures h(j) * y(j) == f(j) * y(j) + g(j) * y(j) {
      Distributes(f(j), g(j), y(j));
    }
    SumPlus(n, j => f(j) * y(j), j => g(j) * y(j), j => h(j) * y(j));
  }

  /** The squares are those of everything that is stored for the token. */
  lemma {:induction false} SquaresOfStored(inp: Input, t: Tiling, i: nat, stored: (int, int) -> real)
    requires Shaped(inp) && ValidTiling(t) && inp.h % t.splitK == 0 && (inp.h / t.splitK) % t.nThr == 0
    requires i < inp.m && forall j, x :: NewR(inp, i, j, x) == stored(j, x)
    ensures SplitTotal(inp, t, i, inp.nOut) == Sum(inp.h, x => Sum(inp.hc, j => stored(j, x) * stored(j, x)))
  {
    TiledIsPlain(inp, t, i, inp.nOut);
    PlainSquares(inp, i, stored);
  }

  lemma {:induction false} PlainSquares(inp: Input, i: int, stored: (int, int) -> real)
    requires forall j, x :: NewR(inp, i, j, x) == stored(j, x)
    ensures Sum(inp.h, x => Addend(inp, i, inp.nOut, x)) ==
      Sum(inp.h, x => Sum(inp.hc, j => stored(j, x) * stored(j, x)))
  {
    var g := x => Sum(inp.hc, j => stored(j, x) * stored(j, x));
    forall x ensures Addend(inp, i, inp.nOut, x) == g(x) {
      SumExt(inp.hc, j => NewR(inp, i, j, x) * NewR(inp, i, j, x), j => stored(j, x) * stored(j, x));
    }
    SumExt(inp.h, x => Addend(inp, i, inp.nOut, x), g);
  }

  // ---------------------------------------------------------------- the normalised mixes

  /** root is the root of the mean of n squares plus eps, and rsqrt inverts it. */
  ghost predicate IsRoot(root: real, squares: real, n: nat, eps: real, rsqrt: real -> real) {
    n > 0 && root * root == squares / n as real + eps && rsqrt(root * root) * root == 1.0
  }

  /** The consumer's mix, which depends on no tiling, is the plain projection of the stored residual divided
      by its root mean square. */
  lemma {:induction false} MixIsQuotient(inp: Input, i: int, j: int, rsqrt: real -> real, eps: real, root: real,
                                         projection: real, squares: real, n: nat)
    requires n == inp.hc * inp.h > 0 && IsRoot(root, squares, n, eps, rsqrt)
    requires squares == Plain(inp, i, inp.nOut) && projection == Plain(inp, i, j)
    ensures PlainMix(inp, i, j, rsqrt, eps) * root == projection
  {
    NormalizedIs(projection, squares, n, rsqrt, eps, root);
    assert PlainMix(inp, i, j, rsqrt, eps) == Normalized(projection, squares, n, rsqrt, eps);
  }

  lemma NormalizedIs(v: real, squares: real, n: nat, rsqrt: real -> real, eps: real, root: real)
    requires IsRoot(root, squares, n, eps, rsqrt)
    ensures Normalized(v, squares, n, rsqrt, eps) * root == v
  {
    assert squares / n as real + eps == root * root;
    TakesRoot(v, rsqrt(root * root), root);
  }

  lemma TakesRoot(v: real, inverse: real, root: real)
    requires inverse * root == 1.0
    ensures (v * inverse) * root == v
  {
    assert (v * inverse) * root == v * (inverse * root);
  }

  // ---------------------------------------------------------------- the head kernel

  /** Row m of fn has v for channel c0 and hidden index x0, and zeros elsewhere. */
  ghost predicate OneFn(d: Head, m: int, c0: int, x0: int, v: real) {
    forall y :: At2(d.fn, m, y) == if y == c0 * d.h + x0 then v else 0.0
  }

  /** That entry of fn is multiplied with the residual of channel c0 at hidden index x0. */
  lemma {:induction false} ProjectionPicks(d: Head, i: nat, m: nat, c0: nat, x0: nat, v: real)
    requires HeadShaped(d) && i < d.m && m < d.hc && c0 < d.hc && x0 < d.h && OneFn(d, m, c0, x0, v)
    ensures Projection(d, i, m) == d.residual[i][c0][x0] * v
  {
    FlatAt(d, i, c0, x0);
    SingleTerm(d, i, m, d.hc * d.h, c0 * d.h + x0, d.residual[i][c0][x0], v);
  }

  lemma {:induction false} SingleTerm(d: Head, i: int, m: int, n: nat, y0: nat, u: real, v: real)
    requires d.h > 0 && m != d.hc && n == d.hc * d.h && y0 < n
    requires Flat(d, i, y0) == u && forall y :: At2(d.fn, m, y) == if y == y0 then v else 0.0
    ensures Projection(d, i, m) == u * v
  {
    forall y | y != y0 ensures Term(d, i, m, y) == 0.0 { NoTerm(d, i, m, y); }
    TermIs(d, i, m, y0, u, v);
    SumSingle(n, y => Term(d, i, m, y), y0);
  }

  lemma NoTerm(d: Head, i: int, m: int, y: int)
    requires d.h > 0 && m != d.hc
    ensures At2(d.fn, m, y) == 0.0 ==> Term(d, i, m, y) == 0.0
  {}

  lemma TermIs(d: Head, i: int, m: int, y: int, u: real, v: real)
    requires d.h > 0 && m != d.hc && Flat(d, i, y) == u && At2(d.fn, m, y) == v
    ensures Term(d, i, m, y) == u * v
  {}

  /** The squares are those of all channels at all hidden indices. */
  lemma {:induction false} HeadSquares(d: Head, i: nat, row: int -> real)
    requires HeadShaped(d) && i < d.m && d.h > 0
    requires forall c :: 0 <= c < d.hc ==> row(c) == Sum(d.h, x => At3(d.residual, i, c, x) * At3(d.residual, i, c, x))
    ensures Projection(d, i, d.hc) == Sum(d.hc, row)
  {
    var f := y => Term(d, i, d.hc, y);
    forall c | 0 <= c < d.hc ensures row(c) == Sum(d.h, x => f(c * d.h + x)) {
      HeadSquareRow(d, i, c, f);
    }
    SumTile(d.hc, d.h, f, row);
  }

  lemma {:induction false} HeadSquareRow(d: Head, i: nat, c: nat, f: int -> real)
    requires HeadShaped(d) && i < d.m && d.h > 0 && c < d.hc && forall y :: f(y) == Term(d, i, d.hc, y)
    ensures Sum(d.h, x => At3(d.residual, i, c, x) * At3(d.residual, i, c, x)) == Sum(d.h, x => f(c * d.h + x))
  {
    var a, b := x => At3(d.residual, i, c, x) * At3(d.residual, i, c, x), x => f(c * d.h + x);
    forall x | 0 <= x < d.h ensures a(x) == b(x) {
      FlatAt(d, i, c, x);
    }
    SumExt(d.h, a, b);
  }

  /** A gate is the logistic function at z plus an epsilon, where z less the base is the projection divided
      by the root mean square and times the scale. */
  lemma GateIs(f: Functions, mix: real, squares: real, n: nat, scale: real, base: real, root: real) returns (z: real)
    requires IsRoot(root, squares, n, f.rmsEps, f.rsqrt)
    ensures Gate(f, mix, squares, n, scale, base) == f.sigmoid(z) + f.hcEps
    ensures (z - base) * root == mix * scale
  {
    var inverse := f.rsqrt(root * root);
    assert squares / n as real + f.rmsEps == root * root;
    z := Affine(Norm(f.rsqrt, mix, root * root), scale, base);
    TakesRoot(mix, inverse, root);
    assert (mix * inverse * scale) * root == ((mix * inverse) * root) * scale;
  }

  /** A single gate v at channel c0 takes that channel's residual to the output. */
  lemma MixedPicks(d: Head, pre: seq<real>, i: nat, x: nat, c0: nat, v: real)
    requires |pre| == d.hc && c0 < d.hc && forall c :: 0 <= c < d.hc ==> pre[c] == if c == c0 then v else 0.0
    ensures Mixed(d, pre, i, x) == v * At3(d.residual, i, c0, x)
  {
    SumSingle(d.hc, c => (if 0 <= c < |pre| then pre[c] else 0.0) * At3(d.residual, i, c, x), c0);
  }

  /** The contributions of the gates add up. */
  lemma MixedAdds(d: Head, p: seq<real>, q: seq<real>, r: seq<real>, i: nat, x: nat)
    requires |p| == |q| == |r| == d.hc && forall c :: 0 <= c < d.hc ==> r[c] == p[c] + q[c]
    ensures Mixed(d, r, i, x) == Mixed(d, p, i, x) + Mixed(d, q, i, x)
  {
    var f := c => (if 0 <= c < |p| then p[c] else 0.0) * At3(d.residual, i, c, x);
    var g := c => (if 0 <= c < |q| then q[c] else 0.0) * At3(d.residual, i, c, x);
    var h := c => (if 0 <= c < |r| then r[c] else 0.0) * At3(d.residual, i, c, x);
    forall c | 0 <= c < d.hc ensures h(c) == f(c) + g(c) {
      Distributes(p[c], q[c], At3(d.residual, i, c, x));
    }
    SumPlus(d.hc, f, g, h);
  }
}
