/** The fused head kernel (rps-serve/vllm/_tilelang_ops.py, hc_head_fuse_tilelang): a blocked pass that
    projects and squares the residual of a token, and a blocked pass that mixes its channels. */
module HeadFuse {
  import opened Sums
  import opened FusedKernel
  import opened PreMix

  /** m tokens, hc residual channels of hidden size h; fn has a row of hc * h weights per channel. */
  datatype Head = Head(m: nat, hc: nat, h: nat, residual: seq<seq<seq<real>>>, fn: seq<seq<real>>,
                       scale: real, base: seq<real>)

  predicate HeadShaped(d: Head) {
    Shape3(d.residual, d.m, d.hc, d.h) && Shape2(d.fn, d.hc, d.hc * d.h) && |d.base| == d.hc
  }

  /** What the kernel needs from elsewhere. */
  datatype Functions = Functions(rsqrt: real -> real, sigmoid: real -> real, rmsEps: real, hcEps: real)

  // ---------------------------------------------------------------- what is to be computed

  /** The residual of token i as one row of hc * h numbers. */
  ghost function Flat(d: Head, i: int, y: int): real
    requires d.h > 0
  {
    At3(d.residual, i, y / d.h, y % d.h)
  }

  /** Term y of the projection on row m of fn, or, for m == hc, of the sum of squares. */
  ghost function Term(d: Head, i: int, m: int, y: int): real
    requires d.h > 0
  {
    Flat(d, i, y) * if m == d.hc then Flat(d, i, y) else At2(d.fn, m, y)
  }

  ghost function Projection(d: Head, i: int, m: int): real
    requires d.h > 0
  {
    Sum(d.hc * d.h, y => Term(d, i, m, y))
  }

  function Norm(rsqrt: real -> real, mix: real, x: real): real { mix * rsqrt(x) }

  function Affine(v: real, scale: real, base: real): real { v * scale + base }

  function Gate(f: Functions, mix: real, squares: real, n: nat, scale: real, base: real): real
    requires n > 0
  {
    f.sigmoid(Affine(Norm(f.rsqrt, mix, squares / n as real + f.rmsEps), scale, base)) + f.hcEps
  }

  ghost function PreMixOf(d: Head, f: Functions, i: int, m: int): real
    requires HeadShaped(d) && d.hc * d.h > 0 && d.h > 0 && 0 <= m < d.hc
  {
    Gate(f, Projection(d, i, m), Projection(d, i, d.hc), d.hc * d.h, d.scale, d.base[m])
  }

  ghost function Mixed(d: Head, pre: seq<real>, i: int, x: int): real {
    Sum(d.hc, c => (if 0 <= c < |pre| then pre[c] else 0.0) * At3(d.residual, i, c, x))
  }

  // ---------------------------------------------------------------- pass 1

  lemma FlatAt(d: Head, i: int, c: int, x: int)
    requires HeadShaped(d) && 0 <= i < d.m && 0 <= c < d.hc && 0 <= x < d.h
    ensures Flat(d, i, c * d.h + x) == d.residual[i][c][x] && 0 <= c * d.h + x < d.hc * d.h
    ensures |d.residual[i]| == d.hc && |d.residual[i][c]| == d.h
  {
    DivMod(c, d.h, x);
    MulLe(c + 1, d.hc, d.h);
    MulLe(0, c, d.h);
    assert Shape2(d.residual[i], d.hc, d.h);
  }

  /** term(m, y) is the term of the kernel's sums for token i. */
  ghost predicate TermsOf(d: Head, i: int, term: (int, int) -> real)
    requires d.h > 0
  {
    forall m, y {:trigger Term(d, i, m, y)} :: term(m, y) == Term(d, i, m, y)
  }

  ghost predicate IsTerm(d: Head, i: int, m: int, f: int -> real)
    requires d.h > 0
  {
    forall y {:trigger Term(d, i, m, y)} :: f(y) == Term(d, i, m, y)
  }

  ghost function SumTo(term: (int, int) -> real, m: int, y: nat): real { Sum(y, y => term(m, y)) }

  /** The sums so far: the terms before y, for the projections and the squares. */
  ghost predicate SumsTo(term: (int, int) -> real, hc: nat, y: nat, mixes: seq<real>, squares: real) {
    |mixes| == hc && squares == SumTo(term, hc, y) && forall m :: 0 <= m < hc ==> mixes[m] == SumTo(term, m, y)
  }

  /** Adding the products of two fragments to a sum that they continue. */
  method AddProducts(xs: seq<real>, ws: seq<real>, acc: real, ghost term: (int, int) -> real, ghost m: int,
                     ghost y: nat)
    returns (r: real)
    requires |xs| == |ws| && acc == SumTo(term, m, y)
    requires forall k :: 0 <= k < |xs| ==> term(m, y + k) == xs[k] * ws[k]
    ensures r == SumTo(term, m, y + |xs|)
  {
    r := acc;
    for k := 0 to |xs|
      invariant r == SumTo(term, m, y + k)
    {
      r := r + xs[k] * ws[k];
    }
  }

  /** The fragment of one block of one channel. */
  method LoadBlock(d: Head, i: nat, c: nat, first: nat, blk: nat, ghost y: nat) returns (xs: seq<real>)
    requires HeadShaped(d) && i < d.m && c < d.hc && first + blk <= d.h && d.h > 0 && y == c * d.h + first
    ensures |xs| == blk && forall k :: 0 <= k < blk ==> xs[k] == Flat(d, i, y + k)
  {
    assert Shape2(d.residual[i], d.hc, d.h);
    xs := d.residual[i][c][first..first + blk];
    forall k | 0 <= k < blk ensures xs[k] == Flat(d, i, y + k) {
      FlatAt(d, i, c, first + k);
      assert y + k == c * d.h + (first + k);
    }
  }

  method LoadWeights(d: Head, m: nat, c: nat, first: nat, blk: nat, ghost y: nat) returns (ws: seq<real>)
    requires HeadShaped(d) && m < d.hc && c < d.hc && first + blk <= d.h && y == c * d.h + first
    ensures |ws| == blk && forall k :: 0 <= k < blk ==> ws[k] == At2(d.fn, m, y + k)
  {
    MulLe(c + 1, d.hc, d.h);
    MulLe(0, c, d.h);
    ws := d.fn[m][c * d.h + first..c * d.h + first + blk];
  }

  lemma ProductsAreTerms(d: Head, i: int, xs: seq<real>, ws: seq<real>, term: (int, int) -> real, m: int, y: nat)
    requires d.h > 0 && TermsOf(d, i, term) && |xs| == |ws|
    requires forall k :: 0 <= k < |xs| ==> xs[k] == Flat(d, i, y + k)
    requires forall k :: 0 <= k < |xs| ==> ws[k] == if m == d.hc then Flat(d, i, y + k) else At2(d.fn, m, y + k)
    ensures forall k :: 0 <= k < |xs| ==> term(m, y + k) == xs[k] * ws[k]
  {
    forall k | 0 <= k < |xs| ensures term(m, y + k) == xs[k] * ws[k] {
      assert term(m, y + k) == Term(d, i, m, y + k);
    }
  }

  method AddBlock(d: Head, i: nat, c: nat, first: nat, blk: nat, mixes: seq<real>, squares: real,
                  ghost term: (int, int) -> real, ghost y: nat)
    returns (mixes': seq<real>, squares': real)
    requires HeadShaped(d) && i < d.m && c < d.hc && first + blk <= d.h && d.h > 0 && TermsOf(d, i, term)
    requires y == c * d.h + first && SumsTo(term, d.hc, y, mixes, squares)
    ensures SumsTo(term, d.hc, y + blk, mixes', squares')
  {
    var xs := LoadBlock(d, i, c, first, blk, y);
    ProductsAreTerms(d, i, xs, xs, term, d.hc, y);
    squares' := AddProducts(xs, xs, squares, term, d.hc, y);
    mixes' := [];
    for m := 0 to d.hc
      invariant |mixes'| == m && forall l :: 0 <= l < m ==> mixes'[l] == SumTo(term, l, y + blk)
    {
      var ws := LoadWeights(d, m, c, first, blk, y);
      ProductsAreTerms(d, i, xs, ws, term, m, y);
      var mix := AddProducts(xs, ws, mixes[m], term, m, y);
      mixes' := mixes' + [mix];
    }
  }

  /** All blocks of one channel. */
  method AddChannel(d: Head, i: nat, c: nat, blk: nat, nH: nat, mixes: seq<real>, squares: real,
                    ghost term: (int, int) -> real, ghost start: nat)
    returns (mixes': seq<real>, squares': real)
    requires HeadShaped(d) && i < d.m && c < d.hc && d.h > 0 && nH * blk == d.h && TermsOf(d, i, term)
    requires start == c * d.h && SumsTo(term, d.hc, start, mixes, squares)
    ensures SumsTo(term, d.hc, start + d.h, mixes', squares')
  {
    mixes', squares' := mixes, squares;
    var first := 0;
    ghost var y := start;
    for b := 0 to nH
      invariant first == b * blk && y == start + first && SumsTo(term, d.hc, y, mixes', squares')
    {
      MulLe(b + 1, nH, blk);
      mixes', squares' := AddBlock(d, i, c, first, blk, mixes', squares', term, y);
      first, y := first + blk, y + blk;
    }
  }

  method AddChannels(d: Head, i: nat, blk: nat, nH: nat, mixes: seq<real>, squares: real,
                     ghost term: (int, int) -> real)
    returns (mixes': seq<real>, squares': real)
    requires HeadShaped(d) && i < d.m && d.h > 0 && nH * blk == d.h && TermsOf(d, i, term)
    requires SumsTo(term, d.hc, 0, mixes, squares)
    ensures d.hc * d.h >= 0 && SumsTo(term, d.hc, d.hc * d.h, mixes', squares')
  {
    mixes', squares' := mixes, squares;
    ghost var y := 0;
    for c := 0 to d.hc
      invariant y == c * d.h && y >= 0 && SumsTo(term, d.hc, y, mixes', squares')
    {
      mixes', squares' := AddChannel(d, i, c, blk, nH, mixes', squares', term, y);
      y := y + d.h;
    }
  }

  method PassOne(d: Head, i: nat, blk: nat) returns (mixes: seq<real>, squares: real)
    requires HeadShaped(d) && i < d.m && d.h > 0 && blk > 0 && d.h % blk == 0
    ensures |mixes| == d.hc && squares == Projection(d, i, d.hc)
    ensures forall m :: 0 <= m < d.hc ==> mixes[m] == Projection(d, i, m)
  {
    ghost var term := (m, y) => Term(d, i, m, y);
    mixes, squares := seq(d.hc, _ => 0.0), 0.0;
    mixes, squares := AddChannels(d, i, blk, d.h / blk, mixes, squares, term);
    SumsAreProjections(d, i, term, mixes, squares);
  }

  lemma SumsAreProjections(d: Head, i: int, term: (int, int) -> real, mixes: seq<real>, squares: real)
    requires d.h > 0 && TermsOf(d, i, term) && d.hc * d.h >= 0 && SumsTo(term, d.hc, d.hc * d.h, mixes, squares)
    ensures squares == Projection(d, i, d.hc) && forall m :: 0 <= m < d.hc ==> mixes[m] == Projection(d, i, m)
  {
    ProjectionIs(d, i, d.hc, y => term(d.hc, y));
    forall m | 0 <= m < d.hc ensures mixes[m] == Projection(d, i, m) {
      ProjectionIs(d, i, m, y => term(m, y));
    }
  }

  // ---------------------------------------------------------------- pass 2

  ghost predicate OutRight(d: Head, pre: seq<real>, out: array2<real>, i: int, x: int)
    reads out
  {
    0 <= i < out.Length0 && 0 <= x < out.Length1 && out[i, x] == Mixed(d, pre, i, x)
  }

  method MixOne(d: Head, pre: seq<real>, i: nat, x: nat) returns (o: real)
    requires HeadShaped(d) && i < d.m && x < d.h && |pre| == d.hc
    ensures o == Mixed(d, pre, i, x)
  {
    o := 0.0;
    for c := 0 to d.hc
      invariant o == Sum(c, c => (if 0 <= c < |pre| then pre[c] else 0.0) * At3(d.residual, i, c, x))
    {
      assert Shape2(d.residual[i], d.hc, d.h);
      o := o + pre[c] * d.residual[i][c][x];
    }
  }

  /** Block by block, every hidden index of token i gets the mix of its channels; the pre-block kernel
      applies its mix in the same way. */
  method ApplyMix(d: Head, pre: seq<real>, i: nat, blk: nat, out: array2<real>)
    requires HeadShaped(d) && i < d.m && |pre| == d.hc && blk > 0 && d.h % blk == 0
    requires out.Length0 == d.m && out.Length1 == d.h
    modifies out
    ensures forall x :: 0 <= x < d.h ==> OutRight(d, pre, out, i, x)
    ensures forall a, x :: 0 <= a < d.m && 0 <= x < d.h && a != i ==> out[a, x] == old(out[a, x])
  {
    var first := 0;
    for b := 0 to d.h / blk
      invariant first == b * blk
      invariant forall x :: 0 <= x < first && x < d.h ==> OutRight(d, pre, out, i, x)
      invariant forall a, x :: 0 <= a < d.m && 0 <= x < d.h && a != i ==> out[a, x] == old(out[a, x])
    {
      MulLe(b + 1, d.h / blk, blk);
      ApplyBlock(d, pre, i, first, blk, out);
      first := first + blk;
    }
  }

  method StoreMix(d: Head, pre: seq<real>, i: nat, x: nat, out: array2<real>)
    requires HeadShaped(d) && i < d.m && |pre| == d.hc && x < d.h
    requires out.Length0 == d.m && out.Length1 == d.h
    modifies out
    ensures OutRight(d, pre, out, i, x)
    ensures forall b :: old(OutRight(d, pre, out, i, b)) ==> OutRight(d, pre, out, i, b)
    ensures forall a, b :: 0 <= a < d.m && 0 <= b < d.h && a != i ==> out[a, b] == old(out[a, b])
  {
    var o := MixOne(d, pre, i, x);
    out[i, x] := o;
  }

  method ApplyBlock(d: Head, pre: seq<real>, i: nat, first: nat, blk: nat, out: array2<real>)
    requires HeadShaped(d) && i < d.m && |pre| == d.hc && first + blk <= d.h
    requires out.Length0 == d.m && out.Length1 == d.h
    modifies out
    ensures forall x :: first <= x < first + blk ==> OutRight(d, pre, out, i, x)
    ensures forall x :: old(OutRight(d, pre, out, i, x)) ==> OutRight(d, pre, out, i, x)
    ensures forall a, x :: 0 <= a < d.m && 0 <= x < d.h && a != i ==> out[a, x] == old(out[a, x])
  {
    for k := 0 to blk
      invariant forall x :: first <= x < first + k ==> OutRight(d, pre, out, i, x)
      invariant forall x :: old(OutRight(d, pre, out, i, x)) ==> OutRight(d, pre, out, i, x)
      invariant forall a, x :: 0 <= a < d.m && 0 <= x < d.h && a != i ==> out[a, x] == old(out[a, x])
    {
      StoreMix(d, pre, i, first + k, out);
    }
  }

  /** The kernel on token i: the result does not depend on the block length. */
  method HcHead(d: Head, f: Functions, i: nat, hBlk: nat, out: array2<real>) returns (ghost pre: seq<real>)
    requires HeadShaped(d) && i < d.m && d.hc > 0 && d.h > 0
    requires out.Length0 == d.m && out.Length1 == d.h
    modifies out
    ensures |pre| == d.hc && d.hc * d.h > 0
    ensures forall m :: 0 <= m < d.hc ==> pre[m] == PreMixOf(d, f, i, m)
    ensures forall x :: 0 <= x < d.h ==> OutRight(d, pre, out, i, x)
    ensures forall a, x :: 0 <= a < d.m && 0 <= x < d.h && a != i ==> out[a, x] == old(out[a, x])
  {
    MulGe(d.hc, d.h);
    var blk := Gcd(hBlk, d.h);
    GcdDivides(hBlk, d.h);
    var mixes, squares := PassOne(d, i, blk);
    var preMix := seq(d.hc, m requires 0 <= m < d.hc => Gate(f, mixes[m], squares, d.hc * d.h, d.scale, d.base[m]));
    pre := preMix;
    ApplyMix(d, preMix, i, blk, out);
  }

  // ---------------------------------------------------------------- scale invariance

  /** The residual of token i scaled by s, all else unchanged. */
  ghost predicate ScaledBy(d: Head, e: Head, i: int, s: real) {
    && HeadShaped(d) && HeadShaped(e) && e == d.(residual := e.residual)
    && forall c, x :: At3(e.residual, i, c, x) == s * At3(d.residual, i, c, x)
  }

  /** The law of the reciprocal square root that is used. */
  ghost predicate IsRsqrt(rsqrt: real -> real) {
    forall x, s :: x > 0.0 && s > 0.0 ==> RsqrtScales(rsqrt, x, s)
  }

  ghost predicate RsqrtScales(rsqrt: real -> real, x: real, s: real) { s * rsqrt(s * s * x) == rsqrt(x) }

  lemma TermScales(d: Head, e: Head, i: int, m: int, y: int, s: real)
    requires ScaledBy(d, e, i, s) && d.h > 0
    ensures Term(e, i, m, y) == (if m == d.hc then s * s else s) * Term(d, i, m, y)
  {
    var a := Flat(d, i, y);
    assert Flat(e, i, y) == s * a;
    if m == d.hc {
      Regroup(s, a, s * a);
      assert a * (s * (s * a)) == (s * s) * (a * a) by { Regroup(s * s, a, a); Regroup(s, s, a); }
    } else {
      Associate(s, a, At2(d.fn, m, y));
    }
  }

  lemma Associate(a: real, b: real, c: real)
    ensures (a * b) * c == a * (b * c)
  {}

  lemma ProjectionIs(d: Head, i: int, m: int, f: int -> real)
    requires d.h > 0 && IsTerm(d, i, m, f)
    ensures d.hc * d.h >= 0 && Projection(d, i, m) == Sum(d.hc * d.h, f)
  {
    MulLe(0, d.hc, d.h);
    forall y | 0 <= y < d.hc * d.h ensures f(y) == (y => Term(d, i, m, y))(y) {
      assert f(y) == Term(d, i, m, y);
    }
    SumExt(d.hc * d.h, f, y => Term(d, i, m, y));
  }

  lemma ProjectionTimes(d: Head, e: Head, i: int, m: int, k: real, f: int -> real, g: int -> real)
    requires d.h > 0 && e.h == d.h && e.hc == d.hc && IsTerm(d, i, m, f) && IsTerm(e, i, m, g)
    requires forall y :: g(y) == k * f(y)
    ensures Projection(e, i, m) == k * Projection(d, i, m)
  {
    ProjectionIs(d, i, m, f);
    ProjectionIs(e, i, m, g);
    SumScale(d.hc * d.h, k, f, g);
  }

  lemma ProjectionScales(d: Head, e: Head, i: int, m: int, s: real)
    requires ScaledBy(d, e, i, s) && d.h > 0
    ensures Projection(e, i, m) == (if m == d.hc then s * s else s) * Projection(d, i, m)
  {
    var k := if m == d.hc then s * s else s;
    var f, g := y => Term(d, i, m, y), y => Term(e, i, m, y);
    TermsScale(d, e, i, m, s, k, f, g);
    ProjectionTimes(d, e, i, m, k, f, g);
  }

  lemma TermsScale(d: Head, e: Head, i: int, m: int, s: real, k: real, f: int -> real, g: int -> real)
    requires ScaledBy(d, e, i, s) && d.h > 0 && k == (if m == d.hc then s * s else s)
    requires IsTerm(d, i, m, f) && IsTerm(e, i, m, g)
    ensures forall y :: g(y) == k * f(y)
  {
    forall y ensures g(y) == k * f(y) {
      TermScales(d, e, i, m, y, s);
    }
  }

  /** The root takes the scale out of the projection again. */
  lemma NormScaleFree(rsqrt: real -> real, mix: real, x: real, s: real)
    requires x > 0.0 && s > 0.0 && IsRsqrt(rsqrt)
    ensures Norm(rsqrt, s * mix, s * s * x) == Norm(rsqrt, mix, x)
  {
    assert RsqrtScales(rsqrt, x, s);
    TakeOut(s, mix, rsqrt(s * s * x), rsqrt(x));
  }

  lemma TakeOut(s: real, a: real, b: real, c: real)
    requires s * b == c
    ensures (s * a) * b == a * c
  {
    Regroup(s, a, b);
    MulCongruent(a, s * b, c);
  }

  lemma MulCongruent(a: real, b: real, c: real)
    requires b == c
    ensures a * b == a * c
  {}

  /** f with its epsilon scaled along with the squares. */
  function WithEps(f: Functions, s: real): Functions { f.(rmsEps := s * s * f.rmsEps) }

  lemma GateScales(f: Functions, mix: real, squares: real, n: nat, scale: real, base: real, s: real)
    requires n > 0 && s > 0.0 && IsRsqrt(f.rsqrt) && squares / n as real + f.rmsEps > 0.0
    ensures Gate(WithEps(f, s), s * mix, s * s * squares, n, scale, base) == Gate(f, mix, squares, n, scale, base)
  {
    var x := squares / n as real + f.rmsEps;
    QuotientScales(s * s, squares, n as real);
    Distribute(s * s, squares / n as real, f.rmsEps);
    NormScaleFree(f.rsqrt, mix, x, s);
    SameNorm(f.rsqrt, s * mix, (s * s * squares) / n as real + WithEps(f, s).rmsEps, s * s * x);
    SameNorm(f.rsqrt, mix, squares / n as real + f.rmsEps, x);
  }

  lemma Distribute(c: real, a: real, b: real)
    ensures c * (a + b) == c * a + c * b
  {}

  lemma SameNorm(rsqrt: real -> real, mix: real, x: real, y: real)
    requires x == y
    ensures Norm(rsqrt, mix, x) == Norm(rsqrt, mix, y)
  {}

  lemma SameGate(f: Functions, p: real, q: real, sq: real, sr: real, n: nat, scale: real, base: real)
    requires n > 0 && p == q && sq == sr
    ensures Gate(f, p, sq, n, scale, base) == Gate(f, q, sr, n, scale, base)
  {}

  /** Scaling a token's residual by s and the epsilon under the root by s * s does not change the gates. */
  lemma GatesScale(d: Head, e: Head, f: Functions, i: int, m: int, s: real)
    requires ScaledBy(d, e, i, s) && d.hc * d.h > 0 && d.h > 0 && 0 <= m < d.hc && s > 0.0
    requires IsRsqrt(f.rsqrt) && UnderRoot(d, f, i) > 0.0
    ensures PreMixOf(e, WithEps(f, s), i, m) == PreMixOf(d, f, i, m)
  {
    var p, sq, n := Projection(d, i, m), Projection(d, i, d.hc), d.hc * d.h;
    assert e.hc * e.h == n;
    ProjectionScales(d, e, i, m, s);
    ProjectionScales(d, e, i, d.hc, s);
    GateScales(f, p, sq, n, d.scale, d.base[m], s);
    SameGate(WithEps(f, s), Projection(e, i, m), s * p, Projection(e, i, e.hc), s * s * sq, n, d.scale, d.base[m]);
  }

  /** What the root of the normalisation is taken of. */
  ghost function UnderRoot(d: Head, f: Functions, i: int): real
    requires d.hc * d.h > 0 && d.h > 0
  {
    Projection(d, i, d.hc) / (d.hc * d.h) as real + f.rmsEps
  }

  /** In particular, without the epsilon the gates do not change when a token's residual is scaled. */
  lemma GatesScaleFree(d: Head, e: Head, f: Functions, i: int, m: int, s: real)
    requires ScaledBy(d, e, i, s) && d.hc * d.h > 0 && d.h > 0 && 0 <= m < d.hc && s > 0.0
    requires IsRsqrt(f.rsqrt) && f.rmsEps == 0.0 && Projection(d, i, d.hc) > 0.0
    ensures PreMixOf(e, f, i, m) == PreMixOf(d, f, i, m)
  {
    QuotientScales(1.0, Projection(d, i, d.hc), (d.hc * d.h) as real);
    GatesScale(d, e, f, i, m, s);
    assert WithEps(f, s) == f;
  }

  lemma QuotientScales(c: real, a: real, n: real)
    requires n > 0.0
    ensures (c * a) / n == c * (a / n)
    ensures a > 0.0 ==> a / n > 0.0
  {}

  lemma Regroup(s: real, a: real, b: real)
    ensures (s * a) * b == a * (s * b)
  {}

  lemma MixedScales(d: Head, e: Head, pre: seq<real>, i: int, x: int, s: real)
    requires ScaledBy(d, e, i, s)
    ensures Mixed(e, pre, i, x) == s * Mixed(d, pre, i, x)
  {
    var f := c => (if 0 <= c < |pre| then pre[c] else 0.0) * At3(d.residual, i, c, x);
    var g := c => (if 0 <= c < |pre| then pre[c] else 0.0) * At3(e.residual, i, c, x);
    forall c ensures g(c) == s * f(c) {
      var p := if 0 <= c < |pre| then pre[c] else 0.0;
      Regroup(s, p, At3(d.residual, i, c, x));
      assert p * (s * At3(d.residual, i, c, x)) == s * (p * At3(d.residual, i, c, x));
    }
    SumScale(d.hc, s, f, g);
    SumExt(d.hc, f, c => (if 0 <= c < |pre| then pre[c] else 0.0) * At3(d.residual, i, c, x));
    SumExt(d.hc, g, c => (if 0 <= c < |pre| then pre[c] else 0.0) * At3(e.residual, i, c, x));
  }

  /** So the kernel's output for a token scales with the token's residual and, squared, with the epsilon. */
  lemma HeadScales(d: Head, e: Head, f: Functions, p: seq<real>, q: seq<real>, i: int, x: int, s: real)
    requires ScaledBy(d, e, i, s) && d.hc * d.h > 0 && d.h > 0 && s > 0.0
    requires IsRsqrt(f.rsqrt) && UnderRoot(d, f, i) > 0.0 && |p| == |q| == d.hc
    requires forall m :: 0 <= m < d.hc ==> p[m] == PreMixOf(d, f, i, m) && q[m] == PreMixOf(e, WithEps(f, s), i, m)
    ensures Mixed(e, q, i, x) == s * Mixed(d, p, i, x)
  {
    forall m | 0 <= m < d.hc ensures p[m] == q[m] { GatesScale(d, e, f, i, m, s); }
    assert p == q;
    MixedScales(d, e, p, i, x, s);
  }
}
