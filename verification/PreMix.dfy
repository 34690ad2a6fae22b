/** What the next kernel reads out of the split sums (rps-serve/vllm/_tilelang_ops.py,
    mhc_pre_big_fuse_tilelang), and the unfused post-mapping kernel (mhc_post_tilelang). */
module PreMix {
  import opened Sums
  import opened FusedKernel

  /** The normalised mix of column j of token i, from the sums over all splits. */
  ghost function Mix(inp: Input, t: Tiling, i: int, j: int, rsqrt: real -> real, eps: real): real
    requires ValidTiling(t) && inp.hc * inp.h > 0
  {
    Normalized(SplitTotal(inp, t, i, j), SplitTotal(inp, t, i, inp.nOut), inp.hc * inp.h, rsqrt, eps)
  }

  function Normalized(v: real, squares: real, n: nat, rsqrt: real -> real, eps: real): real
    requires n > 0
  {
    v * rsqrt(squares / n as real + eps)
  }

  /** The same from plain sums over all hidden indices: no tiling in sight. */
  ghost function PlainMix(inp: Input, i: int, j: int, rsqrt: real -> real, eps: real): real
    requires inp.hc * inp.h > 0
  {
    Normalized(Sum(inp.h, x => Addend(inp, i, j, x)), Sum(inp.h, x => Addend(inp, i, inp.nOut, x)), inp.hc * inp.h,
               rsqrt, eps)
  }

  /** The consumer's mixes are those of the plain sums, however the producer was tiled. */
  lemma MixTilingFree(inp: Input, t: Tiling, i: int, j: int, rsqrt: real -> real, eps: real)
    requires ValidTiling(t) && inp.hc * inp.h > 0
    requires inp.h % t.splitK == 0 && (inp.h / t.splitK) % t.nThr == 0
    ensures Mix(inp, t, i, j, rsqrt, eps) == PlainMix(inp, i, j, rsqrt, eps)
  {
    TiledIsPlain(inp, t, i, j);
    TiledIsPlain(inp, t, i, inp.nOut);
  }

  method SumSquares(rp: array2<real>, splitK: nat, i: nat, ghost part: int -> real) returns (s: real)
    requires rp.Length0 == splitK && i < rp.Length1
    requires forall ks :: 0 <= ks < splitK ==> rp[ks, i] == part(ks)
    ensures s == Sum(splitK, part)
  {
    s := 0.0;
    for ks := 0 to splitK
      invariant s == Sum(ks, part)
    {
      s := s + rp[ks, i];
    }
  }

  method SumColumn(yp: array3<real>, splitK: nat, i: nat, j: nat, ghost part: int -> real) returns (s: real)
    requires yp.Length0 == splitK && i < yp.Length1 && j < yp.Length2
    requires forall ks :: 0 <= ks < splitK ==> yp[ks, i, j] == part(ks)
    ensures s == Sum(splitK, part)
  {
    s := 0.0;
    for ks := 0 to splitK
      invariant s == Sum(ks, part)
    {
      s := s + yp[ks, i, j];
    }
  }

  lemma LaunchedColumn(inp: Input, t: Tiling, out: Output, i: nat, j: nat, ks: nat)
    requires ValidTiling(t) && out.Sized(inp, t) && Launched(inp, t, out) && i < inp.m && j < inp.nOut && ks < t.splitK
    requires inp.nOut % t.tileN == 0 && t.tileN <= 32
    ensures out.yp[ks, i, j] == BlockSum(inp, t, i, ks, j)
  {
    WritesAllIff(inp, t);
    assert ColumnWritten(inp, t, j);
    assert YpRight(Want(inp, t), out.yp, ks, i, j);
  }

  lemma LaunchedSquares(inp: Input, t: Tiling, out: Output, i: nat, ks: nat)
    requires ValidTiling(t) && out.Sized(inp, t) && Launched(inp, t, out) && i < inp.m && ks < t.splitK
    requires NTiles(inp, t) > 0
    ensures out.rp[ks, i] == BlockSum(inp, t, i, ks, inp.nOut)
  {
    assert RpRight(inp, t, out.rp, ks, i);
  }

  method ColumnTotal(inp: Input, t: Tiling, out: Output, i: nat, j: nat) returns (s: real)
    requires ValidTiling(t) && out.Sized(inp, t) && Launched(inp, t, out) && i < inp.m && j < inp.nOut
    requires inp.nOut % t.tileN == 0 && t.tileN <= 32
    ensures s == SplitTotal(inp, t, i, j)
  {
    forall ks | 0 <= ks < t.splitK ensures out.yp[ks, i, j] == BlockSum(inp, t, i, ks, j) {
      LaunchedColumn(inp, t, out, i, j, ks);
    }
    s := SumColumn(out.yp, t.splitK, i, j, ks => BlockSum(inp, t, i, ks, j));
  }

  method SquareTotal(inp: Input, t: Tiling, out: Output, i: nat) returns (s: real)
    requires ValidTiling(t) && out.Sized(inp, t) && Launched(inp, t, out) && i < inp.m && NTiles(inp, t) > 0
    ensures s == SplitTotal(inp, t, i, inp.nOut)
  {
    forall ks | 0 <= ks < t.splitK ensures out.rp[ks, i] == BlockSum(inp, t, i, ks, inp.nOut) {
      LaunchedSquares(inp, t, out, i, ks);
    }
    s := SumSquares(out.rp, t.splitK, i, ks => BlockSum(inp, t, i, ks, inp.nOut));
  }

  method ColumnTotals(inp: Input, t: Tiling, out: Output, i: nat) returns (totals: seq<real>)
    requires ValidTiling(t) && out.Sized(inp, t) && Launched(inp, t, out) && i < inp.m
    requires inp.nOut % t.tileN == 0 && t.tileN <= 32
    ensures |totals| == inp.nOut && forall j :: 0 <= j < inp.nOut ==> totals[j] == SplitTotal(inp, t, i, j)
  {
    totals := [];
    while |totals| < inp.nOut
      invariant |totals| <= inp.nOut && forall j :: 0 <= j < |totals| ==> totals[j] == SplitTotal(inp, t, i, j)
    {
      var s := ColumnTotal(inp, t, out, i, |totals|);
      totals := totals + [s];
    }
  }

  /** The consumer's first stage, on outputs that a launch filled in every column. */
  method Mixes(inp: Input, t: Tiling, out: Output, i: nat, rsqrt: real -> real, eps: real) returns (mixes: seq<real>)
    requires ValidTiling(t) && out.Sized(inp, t) && Launched(inp, t, out) && i < inp.m
    requires inp.hc * inp.h > 0 && NTiles(inp, t) > 0
    requires inp.nOut % t.tileN == 0 && t.tileN <= 32
    ensures |mixes| == inp.nOut
    ensures forall j :: 0 <= j < inp.nOut ==> mixes[j] == Mix(inp, t, i, j, rsqrt, eps)
  {
    var sqr := SquareTotal(inp, t, out, i);
    var totals := ColumnTotals(inp, t, out, i);
    mixes := Normalize(totals, sqr, inp.hc * inp.h, rsqrt, eps);
  }

  method Normalize(totals: seq<real>, squares: real, n: nat, rsqrt: real -> real, eps: real) returns (mixes: seq<real>)
    requires n > 0
    ensures |mixes| == |totals|
    ensures forall j :: 0 <= j < |totals| ==> mixes[j] == Normalized(totals[j], squares, n, rsqrt, eps)
  {
    var rms := rsqrt(squares / n as real + eps);
    mixes := seq(|totals|, j requires 0 <= j < |totals| => totals[j] * rms);
  }

  // ---------------------------------------------------------------- the unfused kernel

  function Gcd(a: nat, b: nat): nat
    decreases b
  {
    if b == 0 then a else Gcd(b, a % b)
  }

  /** The block length divides the hidden size, so the tiles cover it without a remainder. */
  lemma {:induction false} GcdDivides(a: nat, b: nat)
    requires a > 0 || b > 0
    ensures Gcd(a, b) > 0 && a % Gcd(a, b) == 0 && b % Gcd(a, b) == 0
    decreases b
  {
    if b > 0 {
      GcdDivides(b, a % b);
      DividesBoth(a, b, Gcd(b, a % b));
    }
  }

  /** It is the greatest such length: every common divisor divides it. */
  lemma {:induction false} GcdGreatest(a: nat, b: nat, d: nat)
    requires d > 0 && a % d == 0 && b % d == 0
    ensures Gcd(a, b) % d == 0
    decreases b
  {
    if b > 0 {
      RestDivides(a, b, d);
      GcdGreatest(b, a % b, d);
    }
  }

  lemma RestDivides(a: nat, b: nat, d: nat)
    requires d > 0 && b > 0 && a % d == 0 && b % d == 0
    ensures a % b % d == 0
  {
    var q := a / b;
    var k := a / d - q * (b / d);
    assert a == a / d * d && b == b / d * d && a == q * b + a % b;
    Distribute(a / d, q, b / d, d);
    assert a % b == k * d;
    if k < 0 { MulGe(-k, d); }
    DivMod(k, d, 0);
  }

  lemma Distribute(x: int, q: int, y: int, d: int)
    ensures (x - q * y) * d == x * d - q * (y * d)
  {}

  lemma DividesBoth(a: nat, b: nat, g: nat)
    requires g > 0 && b > 0 && b % g == 0 && (a % b) % g == 0
    ensures a % g == 0
  {
    SumDivides(a / b, b, a % b, g);
    assert a == a / b * b + a % b;
  }

  lemma SumDivides(q: nat, b: nat, r: nat, g: nat)
    requires g > 0 && b % g == 0 && r % g == 0
    ensures (q * b + r) % g == 0
  {
    assert b == b / g * g && r == r / g * g;
    var k := q * (b / g) + r / g;
    assert q * b == q * (b / g) * g;
    assert q * b + r == k * g;
    DivMod(k, g, 0);
  }

  /** Tile by tile, every channel of token i gets its new residual at every hidden index. */
  method MhcPost(inp: Input, hBlk: nat, i: nat, x: array3<real>)
    requires Shaped(inp) && i < inp.m && inp.h > 0
    requires x.Length0 == inp.m && x.Length1 == inp.hc && x.Length2 == inp.h
    modifies x
    ensures forall c :: 0 <= c < inp.h ==> ResidualRight(inp, x, i, c)
    ensures forall a, c :: old(ResidualRight(inp, x, a, c)) ==> ResidualRight(inp, x, a, c)
  {
    var blk := Gcd(inp.h, hBlk);
    GcdDivides(inp.h, hBlk);
    var tiles := (inp.h + blk - 1) / blk;
    CeilExact(inp.h, blk);
    PostTiles(inp, blk, tiles, i, x);
  }

  method PostTiles(inp: Input, blk: nat, tiles: nat, i: nat, x: array3<real>)
    requires Shaped(inp) && i < inp.m && tiles * blk == inp.h
    requires x.Length0 == inp.m && x.Length1 == inp.hc && x.Length2 == inp.h
    modifies x
    ensures forall c :: 0 <= c < inp.h ==> ResidualRight(inp, x, i, c)
    ensures forall a, c :: old(ResidualRight(inp, x, a, c)) ==> ResidualRight(inp, x, a, c)
  {
    var first := 0;
    for tile := 0 to tiles
      invariant first == tile * blk
      invariant forall c :: 0 <= c < first && c < inp.h ==> ResidualRight(inp, x, i, c)
      invariant forall a, c :: old(ResidualRight(inp, x, a, c)) ==> ResidualRight(inp, x, a, c)
    {
      MulLe(tile + 1, tiles, blk);
      PostTile(inp, i, first, blk, x);
      first := first + blk;
    }
  }

  lemma CeilExact(h: nat, blk: nat)
    requires blk > 0 && h % blk == 0
    ensures (h + blk - 1) / blk * blk == h
  {
    DivMod(h / blk, blk, blk - 1);
  }

  method PostTile(inp: Input, i: nat, first: nat, blk: nat, x: array3<real>)
    requires Shaped(inp) && i < inp.m && first + blk <= inp.h
    requires x.Length0 == inp.m && x.Length1 == inp.hc && x.Length2 == inp.h
    modifies x
    ensures forall c :: first <= c < first + blk ==> ResidualRight(inp, x, i, c)
    ensures forall a, c :: old(ResidualRight(inp, x, a, c)) ==> ResidualRight(inp, x, a, c)
  {
    for l := 0 to blk
      invariant forall c :: first <= c < first + l ==> ResidualRight(inp, x, i, c)
      invariant forall a, c :: old(ResidualRight(inp, x, a, c)) ==> ResidualRight(inp, x, a, c)
    {
      PostColumn(inp, i, first + l, x);
    }
  }

  method PostColumn(inp: Input, i: nat, c: nat, x: array3<real>)
    requires Shaped(inp) && i < inp.m && c < inp.h
    requires x.Length0 == inp.m && x.Length1 == inp.hc && x.Length2 == inp.h
    modifies x
    ensures ResidualRight(inp, x, i, c)
    ensures forall a, b :: old(ResidualRight(inp, x, a, b)) ==> ResidualRight(inp, x, a, b)
  {
    var newR := NewResidual(inp, i, c);
    var _ := StoreResidual(inp, i, c, newR, 0.0, x);
  }

  /** The fused kernel stores the same new residual as the unfused one, wherever every index is reached. */
  lemma FusedMatchesPost(inp: Input, t: Tiling, out: Output, x: array3<real>, i: int, j: int, c: int)
    requires ValidTiling(t) && Launched(inp, t, out) && NTiles(inp, t) > 0
    requires inp.h % t.splitK == 0 && (inp.h / t.splitK) % t.nThr == 0
    requires 0 <= i < inp.m && 0 <= j < inp.hc && 0 <= c < inp.h && ResidualRight(inp, x, i, c)
    ensures ResidualRight(inp, out.residual, i, c) && out.residual[i, j, c] == x[i, j, c]
  {
    ReachesAllIff(inp, t);
    assert Reached(inp, t, c);
  }
}
