/** The fused post-mapping and projection kernel, cut over splits, iterations, threads, warps and
    lanes (rps-serve/vllm/_tilelang_ops.py, mhc_fused_tilelang), over the reals. */
module FusedKernel {
  import opened Sums

  /** The read-only tensors, with their sizes: m tokens, hc residual channels, hidden size h,
      nOut output columns. */
  datatype Input = Input(
    m: nat, hc: nat, h: nat, nOut: nat,
    comb: seq<seq<seq<real>>>,      // m x hc x hc
    residual: seq<seq<seq<real>>>,  // m x hc x h
    post: seq<seq<real>>,           // m x hc
    x: seq<seq<real>>,              // m x h
    weight: seq<seq<seq<real>>>     // nOut x hc x h
  )

  predicate Shape2(t: seq<seq<real>>, a: nat, b: nat) {
    |t| == a && forall i :: 0 <= i < a ==> |t[i]| == b
  }

  predicate Shape3(t: seq<seq<seq<real>>>, a: nat, b: nat, c: nat) {
    |t| == a && forall i :: 0 <= i < a ==> Shape2(t[i], b, c)
  }

  predicate Shaped(inp: Input) {
    && Shape3(inp.comb, inp.m, inp.hc, inp.hc) && Shape3(inp.residual, inp.m, inp.hc, inp.h)
    && Shape2(inp.post, inp.m, inp.hc) && Shape2(inp.x, inp.m, inp.h)
    && Shape3(inp.weight, inp.nOut, inp.hc, inp.h)
  }

  /** How the work is cut: threads per block, output columns per tile, splits of the hidden range. */
  datatype Tiling = Tiling(nThr: nat, tileN: nat, splitK: nat)

  // A warp has 32 lanes.

  predicate ValidTiling(t: Tiling) {
    t.nThr > 0 && t.nThr % 32 == 0 && t.tileN > 0 && t.splitK > 0
  }

  function HPerSplit(inp: Input, t: Tiling): nat requires t.splitK > 0 { inp.h / t.splitK }
  function HIters(inp: Input, t: Tiling): nat requires t.splitK > 0 && t.nThr > 0 { HPerSplit(inp, t) / t.nThr }
  function NumWarps(t: Tiling): nat { t.nThr / 32 }
  function NTiles(inp: Input, t: Tiling): nat requires t.tileN > 0 { inp.nOut / t.tileN }

  // ---------------------------------------------------------------- what is to be computed

  function At2(t: seq<seq<real>>, i: int, j: int): real {
    if 0 <= i < |t| && 0 <= j < |t[i]| then t[i][j] else 0.0
  }

  function At3(t: seq<seq<seq<real>>>, i: int, j: int, k: int): real {
    if 0 <= i < |t| then At2(t[i], j, k) else 0.0
  }

  /** Entry (j, x) of token i's new residual: the mixed layer output plus the mixed old residual. */
  ghost function NewR(inp: Input, i: int, j: int, x: int): real {
    At2(inp.post, i, j) * At2(inp.x, i, x)
      + Sum(inp.hc, k => At3(inp.comb, i, k, j) * At3(inp.residual, i, k, x))
  }

  /** What hidden index x adds to output column col, over all channels. */
  ghost function Dot(inp: Input, i: int, col: int, x: int): real {
    Sum(inp.hc, j => At3(inp.weight, col, j, x) * NewR(inp, i, j, x))
  }

  /** What hidden index x adds to the sum of squares. */
  ghost function Sq(inp: Input, i: int, x: int): real {
    Sum(inp.hc, j => NewR(inp, i, j, x) * NewR(inp, i, j, x))
  }

  /** Column nOut of Addend stands for the sum of squares, the other columns for the outputs. */
  ghost function Addend(inp: Input, i: int, col: int, x: int): real {
    if col == inp.nOut then Sq(inp, i, x) else Dot(inp, i, col, x)
  }

  // ---------------------------------------------------------------- the pieces of the tiled sum

  ghost function Index(inp: Input, t: Tiling, ks: int, it: int, tid: int): int
    requires t.splitK > 0
  {
    ks * HPerSplit(inp, t) + it * t.nThr + tid
  }

  ghost function ThreadSum(inp: Input, t: Tiling, i: int, ks: int, col: int, tid: int): real
    requires ValidTiling(t)
  {
    Sum(HIters(inp, t), it => Addend(inp, i, col, Index(inp, t, ks, it, tid)))
  }

  ghost function WarpSum(inp: Input, t: Tiling, i: int, ks: int, col: int, w: int): real
    requires ValidTiling(t)
  {
    Sum(32, lane => ThreadSum(inp, t, i, ks, col, w * 32 + lane))
  }

  ghost function BlockSum(inp: Input, t: Tiling, i: int, ks: int, col: int): real
    requires ValidTiling(t)
  {
    Sum(NumWarps(t), w => WarpSum(inp, t, i, ks, col, w))
  }

  // ---------------------------------------------------------------- the tiled sum is the plain sum

  /** Warps and lanes together are the threads. */
  lemma {:induction false} WarpsAreThreads(warps: nat, thread: int -> real, warp: int -> real)
    requires forall w :: 0 <= w < warps ==> warp(w) == Sum(32, lane => thread(w * 32 + lane))
    ensures Sum(warps, warp) == Sum(warps * 32, thread)
  {
    SumTile(warps, 32, thread, warp);
  }

  /** Threads and iterations together sweep one contiguous range. */
  lemma {:induction false} ThreadsSweepRange(threads: nat, iters: nat, g: int -> real, thread: int -> real)
    requires forall tid :: 0 <= tid < threads ==> thread(tid) == Sum(iters, it => g(it * threads + tid))
    ensures iters * threads >= 0 && Sum(threads, thread) == Sum(iters * threads, g)
  {
    var f := (it: int, tid: int) => g(it * threads + tid);
    var rows := it => Sum(threads, tid => f(it, tid));
    forall tid | 0 <= tid < threads ensures thread(tid) == Sum(iters, it => f(it, tid)) {
      SumExt(iters, it => g(it * threads + tid), it => f(it, tid));
    }
    SumSwap(iters, threads, f, rows, thread);
    forall it | 0 <= it < iters ensures rows(it) == Sum(threads, tid => g(it * threads + tid)) {
      SumExt(threads, tid => f(it, tid), tid => g(it * threads + tid));
    }
    SumTile(iters, threads, g, rows);
  }

  lemma BlockIsThreads(inp: Input, t: Tiling, i: int, ks: int, col: int, thread: int -> real)
    requires ValidTiling(t)
    requires forall tid :: thread(tid) == ThreadSum(inp, t, i, ks, col, tid)
    ensures BlockSum(inp, t, i, ks, col) == Sum(t.nThr, thread)
  {
    var warp := w => WarpSum(inp, t, i, ks, col, w);
    forall w | 0 <= w < NumWarps(t) ensures warp(w) == Sum(32, lane => thread(w * 32 + lane)) {
      WarpIsLanes(inp, t, i, ks, col, w, thread);
    }
    WarpsAreThreads(NumWarps(t), thread, warp);
    BlockIsWarps(inp, t, i, ks, col, warp);
  }

  lemma BlockIsWarps(inp: Input, t: Tiling, i: int, ks: int, col: int, warp: int -> real)
    requires ValidTiling(t)
    requires forall w :: warp(w) == WarpSum(inp, t, i, ks, col, w)
    ensures BlockSum(inp, t, i, ks, col) == Sum(NumWarps(t), warp)
  {
    SumExt(NumWarps(t), warp, w => WarpSum(inp, t, i, ks, col, w));
  }

  lemma WarpIsLanes(inp: Input, t: Tiling, i: int, ks: int, col: int, w: int, thread: int -> real)
    requires ValidTiling(t)
    requires forall tid :: thread(tid) == ThreadSum(inp, t, i, ks, col, tid)
    ensures WarpSum(inp, t, i, ks, col, w) == Sum(32, lane => thread(w * 32 + lane))
  {
    SumExt(32, lane => ThreadSum(inp, t, i, ks, col, w * 32 + lane), lane => thread(w * 32 + lane));
  }

  /** A block's reduced value is the plain sum over one contiguous range of its split. */
  lemma BlockIsRange(inp: Input, t: Tiling, i: int, ks: int, col: int, g: int -> real)
    requires ValidTiling(t)
    requires forall y :: g(y) == Addend(inp, i, col, ks * HPerSplit(inp, t) + y)
    ensures HIters(inp, t) * t.nThr >= 0
    ensures BlockSum(inp, t, i, ks, col) == Sum(HIters(inp, t) * t.nThr, g)
  {
    var thread := tid => ThreadSum(inp, t, i, ks, col, tid);
    BlockIsThreads(inp, t, i, ks, col, thread);
    ThreadsAreStrides(inp, t, i, ks, col, g, thread);
    ThreadsSweepRange(t.nThr, HIters(inp, t), g, thread);
  }

  lemma ThreadsAreStrides(inp: Input, t: Tiling, i: int, ks: int, col: int, g: int -> real, thread: int -> real)
    requires ValidTiling(t)
    requires forall y :: g(y) == Addend(inp, i, col, ks * HPerSplit(inp, t) + y)
    requires forall tid :: thread(tid) == ThreadSum(inp, t, i, ks, col, tid)
    ensures forall tid :: 0 <= tid < t.nThr ==> thread(tid) == Sum(HIters(inp, t), it => g(it * t.nThr + tid))
  {
    forall tid | 0 <= tid < t.nThr ensures thread(tid) == Sum(HIters(inp, t), it => g(it * t.nThr + tid)) {
      ThreadIsStride(inp, t, i, ks, col, tid, g);
    }
  }

  lemma ThreadIsStride(inp: Input, t: Tiling, i: int, ks: int, col: int, tid: int, g: int -> real)
    requires ValidTiling(t)
    requires forall y :: g(y) == Addend(inp, i, col, ks * HPerSplit(inp, t) + y)
    ensures ThreadSum(inp, t, i, ks, col, tid) == Sum(HIters(inp, t), it => g(it * t.nThr + tid))
  {
    var n := HIters(inp, t);
    var stride := it => g(it * t.nThr + tid);
    var direct := it => Addend(inp, i, col, Index(inp, t, ks, it, tid));
    forall it | 0 <= it < n ensures direct(it) == stride(it) {
      assert Index(inp, t, ks, it, tid) == ks * HPerSplit(inp, t) + (it * t.nThr + tid);
    }
    SumExt(n, direct, stride);
  }

  /** Hidden index x is visited by some thread of some split. */
  predicate Reached(inp: Input, t: Tiling, x: int)
    requires ValidTiling(t)
  {
    var hps := HPerSplit(inp, t);
    0 <= x < t.splitK * hps && x % hps < HIters(inp, t) * t.nThr
  }

  /** Output column col is written by some lane of some tile; only the 32 lanes of warp 0 write. */
  predicate ColumnWritten(inp: Input, t: Tiling, col: int)
    requires ValidTiling(t)
  {
    0 <= col && col / t.tileN < NTiles(inp, t) && col % t.tileN < 32
  }

  lemma DivMod(q: int, n: int, r: int)
    requires n > 0 && 0 <= r < n
    ensures (q * n + r) / n == q && (q * n + r) % n == r
  {
    var d := (q * n + r) / n;
    assert d * n + (q * n + r) % n == q * n + r;
    assert (d - q) * n == r - (q * n + r) % n;
    if d > q { MulGe(d - q, n); } else if d < q { MulGe(q - d, n); }
  }

  lemma MulGe(a: int, n: int)
    requires a >= 1 && n >= 0
    ensures a * n >= n
  {}

  lemma MulLe(a: int, b: int, n: int)
    requires a <= b && n >= 0
    ensures a * n <= b * n
  {}

  /** Every hidden index is reached exactly when the splits divide the hidden size and the threads
      divide a split; otherwise the tail of each split, or of the whole range, is never read. */
  lemma ReachesAllIff(inp: Input, t: Tiling)
    requires ValidTiling(t)
    ensures (forall x :: 0 <= x < inp.h ==> Reached(inp, t, x))
      <==> inp.h % t.splitK == 0 && HPerSplit(inp, t) % t.nThr == 0
  {
    if inp.h % t.splitK != 0 {
      RangeTailLost(inp, t);
    } else if HPerSplit(inp, t) % t.nThr != 0 {
      SplitTailLost(inp, t);
    } else {
      forall x | 0 <= x < inp.h ensures Reached(inp, t, x) { DividedReached(inp, t, x); }
    }
  }

  lemma DividedReached(inp: Input, t: Tiling, x: int)
    requires ValidTiling(t) && inp.h % t.splitK == 0 && HPerSplit(inp, t) % t.nThr == 0 && 0 <= x < inp.h
    ensures Reached(inp, t, x)
  {
    Parts(inp.h, t.splitK);
    Parts(HPerSplit(inp, t), t.nThr);
  }

  lemma RangeTailLost(inp: Input, t: Tiling)
    requires ValidTiling(t) && inp.h % t.splitK != 0
    ensures exists x :: 0 <= x < inp.h && !Reached(inp, t, x)
  {
    Parts(inp.h, t.splitK);
    var x := t.splitK * HPerSplit(inp, t);
    MulLe(0, t.splitK, HPerSplit(inp, t));
    assert !Reached(inp, t, x);
  }

  lemma SplitTailLost(inp: Input, t: Tiling)
    requires ValidTiling(t) && inp.h % t.splitK == 0 && HPerSplit(inp, t) % t.nThr != 0
    ensures exists x :: 0 <= x < inp.h && !Reached(inp, t, x)
  {
    var hps, used := HPerSplit(inp, t), HIters(inp, t) * t.nThr;
    Parts(inp.h, t.splitK);
    Parts(hps, t.nThr);
    MulGe(t.splitK, hps);
    MulLe(0, HIters(inp, t), t.nThr);
    DivMod(0, hps, used);
    assert !Reached(inp, t, used);
  }

  lemma Parts(a: nat, n: nat)
    requires n > 0
    ensures a / n * n == n * (a / n) == a - a % n && 0 <= a % n < n
  {}

  /** Every output column is written exactly when the tile width divides the number of columns and
      is at most a warp. */
  lemma WritesAllIff(inp: Input, t: Tiling)
    requires ValidTiling(t)
    ensures (forall col :: 0 <= col < inp.nOut ==> ColumnWritten(inp, t, col))
      <==> inp.nOut == 0 || (inp.nOut % t.tileN == 0 && t.tileN <= 32)
  {
    if inp.nOut % t.tileN != 0 {
      TailUnwritten(inp, t, NTiles(inp, t) * t.tileN);
    } else if inp.nOut > 0 && t.tileN > 32 {
      WideUnwritten(inp, t);
    } else {
      forall col | 0 <= col < inp.nOut ensures ColumnWritten(inp, t, col) { WithinTile(inp, t, col); }
    }
  }

  lemma WithinTile(inp: Input, t: Tiling, col: nat)
    requires ValidTiling(t) && inp.nOut % t.tileN == 0 && t.tileN <= 32 && col < inp.nOut
    ensures ColumnWritten(inp, t, col)
  {
    if col / t.tileN >= NTiles(inp, t) { MulLe(NTiles(inp, t), col / t.tileN, t.tileN); }
  }

  lemma TailUnwritten(inp: Input, t: Tiling, done: int)
    requires ValidTiling(t) && inp.nOut % t.tileN != 0 && done == NTiles(inp, t) * t.tileN
    ensures 0 <= done < inp.nOut && !ColumnWritten(inp, t, done)
  {
    assert done == inp.nOut - inp.nOut % t.tileN;
    DivMod(NTiles(inp, t), t.tileN, 0);
  }

  lemma WideUnwritten(inp: Input, t: Tiling)
    requires ValidTiling(t) && inp.nOut % t.tileN == 0 && inp.nOut > 0 && t.tileN > 32
    ensures 32 < inp.nOut && !ColumnWritten(inp, t, 32)
  {
    MulGe(NTiles(inp, t), t.tileN);
    DivMod(0, t.tileN, 32);
  }

  // ---------------------------------------------------------------- all splits together

  ghost function ReachedAddend(inp: Input, t: Tiling, i: int, col: int, x: int): real
    requires ValidTiling(t)
  {
    if Reached(inp, t, x) then Addend(inp, i, col, x) else 0.0
  }

  ghost function SplitTotal(inp: Input, t: Tiling, i: int, col: int): real
    requires ValidTiling(t)
  {
    Sum(t.splitK, ks => BlockSum(inp, t, i, ks, col))
  }

  lemma ReachedInSplit(inp: Input, t: Tiling, ks: int, y: int)
    requires ValidTiling(t) && 0 <= ks < t.splitK && 0 <= y < HPerSplit(inp, t)
    ensures Reached(inp, t, ks * HPerSplit(inp, t) + y) <==> y < HIters(inp, t) * t.nThr
  {
    DivMod(ks, HPerSplit(inp, t), y);
    MulLe(0, ks, HPerSplit(inp, t));
    MulLe(ks + 1, t.splitK, HPerSplit(inp, t));
  }

  lemma UsedPart(inp: Input, t: Tiling)
    requires ValidTiling(t)
    ensures 0 <= HIters(inp, t) * t.nThr <= HPerSplit(inp, t)
    ensures 0 <= t.splitK * HPerSplit(inp, t) <= inp.h
  {}

  lemma TermInSplit(inp: Input, t: Tiling, i: int, ks: int, col: int, y: int)
    requires ValidTiling(t) && 0 <= ks < t.splitK && 0 <= y < HPerSplit(inp, t)
    ensures ReachedAddend(inp, t, i, col, ks * HPerSplit(inp, t) + y)
         == if y < HIters(inp, t) * t.nThr then Addend(inp, i, col, ks * HPerSplit(inp, t) + y) else 0.0
  {
    ReachedInSplit(inp, t, ks, y);
  }

  lemma SplitIsTile(inp: Input, t: Tiling, i: int, ks: int, col: int, tile: int -> real)
    requires ValidTiling(t) && 0 <= ks < t.splitK
    requires forall y :: tile(y) == ReachedAddend(inp, t, i, col, ks * HPerSplit(inp, t) + y)
    ensures BlockSum(inp, t, i, ks, col) == Sum(HPerSplit(inp, t), tile)
  {
    var g := y => Addend(inp, i, col, ks * HPerSplit(inp, t) + y);
    BlockIsRange(inp, t, i, ks, col, g);
    SplitPadded(inp, t, i, ks, col, g, tile);
  }

  lemma SplitPadded(inp: Input, t: Tiling, i: int, ks: int, col: int, g: int -> real, tile: int -> real)
    requires ValidTiling(t) && 0 <= ks < t.splitK
    requires forall y :: g(y) == Addend(inp, i, col, ks * HPerSplit(inp, t) + y)
    requires forall y :: tile(y) == ReachedAddend(inp, t, i, col, ks * HPerSplit(inp, t) + y)
    ensures HIters(inp, t) * t.nThr >= 0 && Sum(HPerSplit(inp, t), tile) == Sum(HIters(inp, t) * t.nThr, g)
  {
    UsedPart(inp, t);
    forall y | 0 <= y < HPerSplit(inp, t) ensures tile(y) == if y < HIters(inp, t) * t.nThr then g(y) else 0.0 {
      TermInSplit(inp, t, i, ks, col, y);
    }
    SumPadded(HIters(inp, t) * t.nThr, HPerSplit(inp, t), g, tile);
  }

  /** The sum of a column over all splits is the plain sum over the hidden indices reached. */
  lemma SplitsSumReached(inp: Input, t: Tiling, i: int, col: int)
    requires ValidTiling(t)
    ensures SplitTotal(inp, t, i, col) == Sum(inp.h, x => ReachedAddend(inp, t, i, col, x))
  {
    var f := x => ReachedAddend(inp, t, i, col, x);
    var block := ks => BlockSum(inp, t, i, ks, col);
    forall ks | 0 <= ks < t.splitK
      ensures block(ks) == Sum(HPerSplit(inp, t), y => f(ks * HPerSplit(inp, t) + y))
    {
      var tile := y => f(ks * HPerSplit(inp, t) + y);
      SplitIsTile(inp, t, i, ks, col, tile);
    }
    SumTile(t.splitK, HPerSplit(inp, t), f, block);
    UsedPart(inp, t);
    SumTail(t.splitK * HPerSplit(inp, t), inp.h, f);
  }

  /** What the kernel is for: the plain sum over all hidden indices, whatever the tiling. */
  lemma TiledIsPlain(inp: Input, t: Tiling, i: int, col: int)
    requires ValidTiling(t) && inp.h % t.splitK == 0 && HPerSplit(inp, t) % t.nThr == 0
    ensures SplitTotal(inp, t, i, col) == Sum(inp.h, x => Addend(inp, i, col, x))
  {
    SplitsSumReached(inp, t, i, col);
    ReachesAllIff(inp, t);
    SumExt(inp.h, x => ReachedAddend(inp, t, i, col, x), x => Addend(inp, i, col, x));
  }

  // ---------------------------------------------------------------- the kernel

  /** The output tensors, with the sizes the kernel declares for them. */
  class Output {
    const yp: array3<real>        // splitK x m x nOut
    const rp: array2<real>        // splitK x m
    const residual: array3<real>  // m x hc x h

    constructor (inp: Input, t: Tiling)
      ensures Sized(inp, t) && fresh(yp) && fresh(rp) && fresh(residual)
    {
      yp := new real[t.splitK, inp.m, inp.nOut];
      rp := new real[t.splitK, inp.m];
      residual := new real[inp.m, inp.hc, inp.h];
    }

    ghost predicate Sized(inp: Input, t: Tiling) {
      && yp.Length0 == t.splitK && yp.Length1 == inp.m && yp.Length2 == inp.nOut
      && rp.Length0 == t.splitK && rp.Length1 == inp.m
      && residual.Length0 == inp.m && residual.Length1 == inp.hc && residual.Length2 == inp.h
      && yp != residual
    }
  }

  predicate ValidIndex(inp: Input, t: Tiling, ks: int, it: int, tid: int)
    requires ValidTiling(t)
  {
    0 <= ks < t.splitK && 0 <= it < HIters(inp, t) && 0 <= tid < t.nThr
  }

  /** No thread reads or writes outside the hidden range. */
  lemma IndexInRange(inp: Input, t: Tiling, ks: int, it: int, tid: int)
    requires ValidTiling(t) && ValidIndex(inp, t, ks, it, tid)
    ensures 0 <= Index(inp, t, ks, it, tid) < inp.h
  {
    var hps := HPerSplit(inp, t);
    UsedPart(inp, t);
    InTile(it, HIters(inp, t), t.nThr, tid);
    InTile(ks, t.splitK, hps, it * t.nThr + tid);
  }

  lemma InTile(a: int, b: int, n: int, r: int)
    requires 0 <= a < b && 0 <= r < n
    ensures 0 <= a * n + r < b * n
  {
    MulLe(a + 1, b, n);
    MulLe(0, a, n);
    NextMultiple(a, n);
  }

  /** The new residual of token i at hidden index x, for all channels. */
  method NewResidual(inp: Input, i: nat, x: nat) returns (newR: seq<real>)
    requires Shaped(inp) && i < inp.m && x < inp.h
    ensures |newR| == inp.hc && forall j :: 0 <= j < inp.hc ==> newR[j] == NewR(inp, i, j, x)
  {
    newR := [];
    for j := 0 to inp.hc
      invariant |newR| == j && forall l :: 0 <= l < j ==> newR[l] == NewR(inp, i, l, x)
    {
      assert Shape2(inp.comb[i], inp.hc, inp.hc) && Shape2(inp.residual[i], inp.hc, inp.h);
      var v := inp.post[i][j] * inp.x[i][x];
      ghost var made, mixed := v, 0.0;
      for k := 0 to inp.hc
        invariant v == made + mixed
        invariant mixed == Sum(k, k => At3(inp.comb, i, k, j) * At3(inp.residual, i, k, x))
      {
        assert inp.comb[i][k][j] == At3(inp.comb, i, k, j) && inp.residual[i][k][x] == At3(inp.residual, i, k, x);
        v := v + inp.comb[i][k][j] * inp.residual[i][k][x];
        mixed := mixed + inp.comb[i][k][j] * inp.residual[i][k][x];
      }
      NewRParts(inp, i, j, x, made, mixed);
      newR := newR + [v];
    }
  }

  lemma {:induction false} NewRParts(inp: Input, i: int, j: int, x: int, made: real, mixed: real)
    requires made == At2(inp.post, i, j) * At2(inp.x, i, x)
    requires mixed == Sum(inp.hc, k => At3(inp.comb, i, k, j) * At3(inp.residual, i, k, x))
    ensures NewR(inp, i, j, x) == made + mixed
  {}

  /** Adding one hidden index to a thread's accumulator for one output column. */
  method FusedMultiplyAdd(inp: Input, i: nat, col: nat, x: nat, newR: seq<real>, acc: real) returns (r: real)
    requires Shaped(inp) && i < inp.m && x < inp.h && col < inp.nOut
    requires |newR| == inp.hc && forall j :: 0 <= j < inp.hc ==> newR[j] == NewR(inp, i, j, x)
    ensures r == acc + Addend(inp, i, col, x)
  {
    r := acc;
    for j := 0 to inp.hc
      invariant r == acc + Sum(j, j => At3(inp.weight, col, j, x) * NewR(inp, i, j, x))
    {
      assert Shape2(inp.weight[col], inp.hc, inp.h);
      r := r + inp.weight[col][j][x] * newR[j];
    }
  }

  /** The first tile's blocks also store the new residual and accumulate its squares. */
  method StoreResidual(inp: Input, i: nat, x: nat, newR: seq<real>, sqr: real, residual: array3<real>)
    returns (r: real)
    requires Shaped(inp) && i < inp.m && x < inp.h
    requires residual.Length0 == inp.m && residual.Length1 == inp.hc && residual.Length2 == inp.h
    requires |newR| == inp.hc && forall j :: 0 <= j < inp.hc ==> newR[j] == NewR(inp, i, j, x)
    modifies residual
    ensures r == sqr + Addend(inp, i, inp.nOut, x)
    ensures ResidualRight(inp, residual, i, x)
    ensures forall a, c :: old(ResidualRight(inp, residual, a, c)) ==> ResidualRight(inp, residual, a, c)
  {
    r := sqr;
    for j := 0 to inp.hc
      invariant r == sqr + Sum(j, j => NewR(inp, i, j, x) * NewR(inp, i, j, x))
      invariant forall l :: 0 <= l < j ==> residual[i, l, x] == NewR(inp, i, l, x)
      invariant forall a, b, c :: 0 <= a < inp.m && 0 <= b < inp.hc && 0 <= c < inp.h && (a != i || c != x) ==>
        residual[a, b, c] == old(residual[a, b, c])
    {
      residual[i, j, x] := newR[j];
      r := r + newR[j] * newR[j];
    }
  }

  /** The stored residual of token i at hidden index x is the new one, in every channel. */
  ghost predicate ResidualRight(inp: Input, residual: array3<real>, i: int, x: int)
    reads residual
  {
    && residual.Length0 == inp.m && residual.Length1 == inp.hc && residual.Length2 == inp.h
    && 0 <= i < inp.m && 0 <= x < inp.h
    && forall j :: 0 <= j < inp.hc ==> residual[i, j, x] == NewR(inp, i, j, x)
  }

  /** A thread's accumulator for column col after its first n iterations. */
  ghost function Partial(inp: Input, t: Tiling, i: int, ks: int, col: int, tid: int, n: nat): real
    requires ValidTiling(t)
  {
    Sum(n, it => Addend(inp, i, col, Index(inp, t, ks, it, tid)))
  }

  method Accumulate(inp: Input, t: Tiling, i: nat, nt: nat, x: nat, newR: seq<real>, acc: seq<real>)
    returns (acc': seq<real>)
    requires Shaped(inp) && ValidTiling(t) && i < inp.m && nt < NTiles(inp, t) && x < inp.h
    requires |newR| == inp.hc && forall j :: 0 <= j < inp.hc ==> newR[j] == NewR(inp, i, j, x)
    requires |acc| == t.tileN
    ensures |acc'| == t.tileN
    ensures forall n :: 0 <= n < t.tileN ==> acc'[n] == acc[n] + Addend(inp, i, nt * t.tileN + n, x)
  {
    acc' := acc;
    for n := 0 to t.tileN
      invariant |acc'| == t.tileN
      invariant forall l :: n <= l < t.tileN ==> acc'[l] == acc[l]
      invariant forall l :: 0 <= l < n ==> acc'[l] == acc[l] + Addend(inp, i, nt * t.tileN + l, x)
    {
      ColumnInRange(inp, t, nt, n);
      var v := FusedMultiplyAdd(inp, i, nt * t.tileN + n, x, newR, acc'[n]);
      acc' := acc'[n := v];
    }
  }

  /** One iteration of one thread, at hidden index x. */
  method Iterate(inp: Input, t: Tiling, i: nat, nt: nat, x: nat, acc: seq<real>, sqr: real, residual: array3<real>)
    returns (acc': seq<real>, sqr': real)
    requires Shaped(inp) && ValidTiling(t) && i < inp.m && nt < NTiles(inp, t) && x < inp.h && |acc| == t.tileN
    requires residual.Length0 == inp.m && residual.Length1 == inp.hc && residual.Length2 == inp.h
    modifies residual
    ensures |acc'| == t.tileN
    ensures forall n :: 0 <= n < t.tileN ==> acc'[n] == acc[n] + Addend(inp, i, nt * t.tileN + n, x)
    ensures nt == 0 ==> sqr' == sqr + Addend(inp, i, inp.nOut, x) && ResidualRight(inp, residual, i, x)
    ensures forall a, c :: old(ResidualRight(inp, residual, a, c)) ==> ResidualRight(inp, residual, a, c)
  {
    var newR := NewResidual(inp, i, x);
    sqr' := sqr;
    if nt == 0 {
      sqr' := StoreResidual(inp, i, x, newR, sqr, residual);
    }
    acc' := Accumulate(inp, t, i, nt, x, newR, acc);
  }

  /** A thread's accumulators after its first n iterations. */
  ghost predicate PartialSums(inp: Input, t: Tiling, i: int, nt: int, ks: int, tid: int, n: nat, acc: seq<real>,
                              sqr: real)
    requires ValidTiling(t)
  {
    && |acc| == t.tileN
    && (forall c :: 0 <= c < t.tileN ==> acc[c] == Partial(inp, t, i, ks, nt * t.tileN + c, tid, n))
    && (nt == 0 ==> sqr == Partial(inp, t, i, ks, inp.nOut, tid, n))
  }

  method StepThread(inp: Input, t: Tiling, i: nat, nt: nat, ks: nat, tid: nat, it: nat, acc: seq<real>, sqr: real,
                    residual: array3<real>)
    returns (acc': seq<real>, sqr': real)
    requires Shaped(inp) && ValidTiling(t) && i < inp.m && nt < NTiles(inp, t) && ValidIndex(inp, t, ks, it, tid)
    requires residual.Length0 == inp.m && residual.Length1 == inp.hc && residual.Length2 == inp.h
    requires PartialSums(inp, t, i, nt, ks, tid, it, acc, sqr)
    modifies residual
    ensures PartialSums(inp, t, i, nt, ks, tid, it + 1, acc', sqr')
    ensures nt == 0 ==> ResidualRight(inp, residual, i, Index(inp, t, ks, it, tid))
    ensures forall a, c :: old(ResidualRight(inp, residual, a, c)) ==> ResidualRight(inp, residual, a, c)
  {
    IndexInRange(inp, t, ks, it, tid);
    var x := ks * HPerSplit(inp, t) + it * t.nThr + tid;
    acc', sqr' := Iterate(inp, t, i, nt, x, acc, sqr, residual);
    PartialNext(inp, t, i, nt, ks, tid, it, x, acc, sqr, acc', sqr');
  }

  lemma PartialNext(inp: Input, t: Tiling, i: int, nt: int, ks: int, tid: int, it: nat, x: int,
                    acc: seq<real>, sqr: real, acc': seq<real>, sqr': real)
    requires ValidTiling(t) && PartialSums(inp, t, i, nt, ks, tid, it, acc, sqr) && x == Index(inp, t, ks, it, tid)
    requires |acc'| == t.tileN && forall n :: 0 <= n < t.tileN ==>
      acc'[n] == acc[n] + Addend(inp, i, nt * t.tileN + n, x)
    requires nt == 0 ==> sqr' == sqr + Addend(inp, i, inp.nOut, x)
    ensures PartialSums(inp, t, i, nt, ks, tid, it + 1, acc', sqr')
  {}

  /** One thread: its share of the iterations of split ks, for the columns of tile nt. */
  method RunThread(inp: Input, t: Tiling, i: nat, nt: nat, ks: nat, tid: nat, residual: array3<real>)
    returns (acc: seq<real>, sqr: real)
    requires Shaped(inp) && ValidTiling(t) && i < inp.m && nt < NTiles(inp, t) && ks < t.splitK && tid < t.nThr
    requires residual.Length0 == inp.m && residual.Length1 == inp.hc && residual.Length2 == inp.h
    modifies residual
    ensures |acc| == t.tileN
    ensures forall n :: 0 <= n < t.tileN ==> acc[n] == ThreadSum(inp, t, i, ks, nt * t.tileN + n, tid)
    ensures nt == 0 ==> sqr == ThreadSum(inp, t, i, ks, inp.nOut, tid)
    ensures nt == 0 ==> forall it :: 0 <= it < HIters(inp, t) ==>
      ResidualRight(inp, residual, i, Index(inp, t, ks, it, tid))
    ensures forall a, c :: old(ResidualRight(inp, residual, a, c)) ==> ResidualRight(inp, residual, a, c)
  {
    acc := seq(t.tileN, _ => 0.0);
    sqr := 0.0;
    for it := 0 to HIters(inp, t)
      invariant PartialSums(inp, t, i, nt, ks, tid, it, acc, sqr)
      invariant nt == 0 ==> forall l :: 0 <= l < it ==> ResidualRight(inp, residual, i, Index(inp, t, ks, l, tid))
      invariant forall a, c :: old(ResidualRight(inp, residual, a, c)) ==> ResidualRight(inp, residual, a, c)
    {
      acc, sqr := StepThread(inp, t, i, nt, ks, tid, it, acc, sqr, residual);
    }
  }

  lemma ColumnInRange(inp: Input, t: Tiling, nt: int, n: int)
    requires ValidTiling(t) && 0 <= nt < NTiles(inp, t) && 0 <= n < t.tileN
    ensures 0 <= nt * t.tileN + n < inp.nOut
  {
    MulLe(nt + 1, NTiles(inp, t), t.tileN);
    MulLe(0, nt, t.tileN);
  }

  /** The reduction of one value per lane over a warp. */
  method WarpReduce(inp: Input, t: Tiling, ghost i: nat, ghost ks: nat, ghost col: nat, vals: seq<real>, w: nat)
    returns (v: real)
    requires ValidTiling(t) && |vals| == t.nThr && w < NumWarps(t)
    requires forall tid :: 0 <= tid < t.nThr ==> vals[tid] == ThreadSum(inp, t, i, ks, col, tid)
    ensures v == WarpSum(inp, t, i, ks, col, w)
  {
    v := 0.0;
    for lane := 0 to 32
      invariant v == Sum(lane, lane => ThreadSum(inp, t, i, ks, col, w * 32 + lane))
    {
      v := v + vals[w * 32 + lane];
    }
  }

  /** The sum over the warps of one column of shared memory, by one lane of warp 0. */
  method CrossWarpReduce(inp: Input, t: Tiling, ghost i: nat, ghost ks: nat, ghost col: nat, column: seq<real>)
    returns (v: real)
    requires ValidTiling(t) && |column| == NumWarps(t)
    requires forall w :: 0 <= w < NumWarps(t) ==> column[w] == WarpSum(inp, t, i, ks, col, w)
    ensures v == BlockSum(inp, t, i, ks, col)
  {
    v := 0.0;
    for w := 0 to NumWarps(t)
      invariant v == Sum(w, w => WarpSum(inp, t, i, ks, col, w))
    {
      v := v + column[w];
    }
  }

  /** What the threads of a block leave in their registers. */
  ghost predicate AccRight(inp: Input, t: Tiling, i: int, nt: int, ks: int, tid: int, acc: seq<real>, sqr: real)
    requires ValidTiling(t)
  {
    && |acc| == t.tileN
    && (forall n :: 0 <= n < t.tileN ==> acc[n] == ThreadSum(inp, t, i, ks, nt * t.tileN + n, tid))
    && (nt == 0 ==> sqr == ThreadSum(inp, t, i, ks, inp.nOut, tid))
  }

  method RunThreads(inp: Input, t: Tiling, i: nat, nt: nat, ks: nat, residual: array3<real>)
    returns (accs: seq<seq<real>>, sqrs: seq<real>)
    requires Shaped(inp) && ValidTiling(t) && i < inp.m && nt < NTiles(inp, t) && ks < t.splitK
    requires residual.Length0 == inp.m && residual.Length1 == inp.hc && residual.Length2 == inp.h
    modifies residual
    ensures |accs| == |sqrs| == t.nThr
    ensures forall tid :: 0 <= tid < t.nThr ==> AccRight(inp, t, i, nt, ks, tid, accs[tid], sqrs[tid])
    ensures nt == 0 ==> forall it, tid :: ValidIndex(inp, t, ks, it, tid) ==>
      ResidualRight(inp, residual, i, Index(inp, t, ks, it, tid))
    ensures forall a, c :: old(ResidualRight(inp, residual, a, c)) ==> ResidualRight(inp, residual, a, c)
  {
    accs, sqrs := [], [];
    for tid := 0 to t.nThr
      invariant |accs| == |sqrs| == tid
      invariant forall u :: 0 <= u < tid ==> AccRight(inp, t, i, nt, ks, u, accs[u], sqrs[u])
      invariant nt == 0 ==> forall it, u :: ValidIndex(inp, t, ks, it, u) && u < tid ==>
        ResidualRight(inp, residual, i, Index(inp, t, ks, it, u))
      invariant forall a, c :: old(ResidualRight(inp, residual, a, c)) ==> ResidualRight(inp, residual, a, c)
    {
      var acc, sqr := RunThread(inp, t, i, nt, ks, tid, residual);
      assert AccRight(inp, t, i, nt, ks, tid, acc, sqr);
      accs, sqrs := accs + [acc], sqrs + [sqr];
    }
  }

  /** Column n of shared memory holds what the first lane of each warp stored for column n of tile
      nt; the last column is for the squares, which only the first tile has. */
  ghost predicate SlotRight(inp: Input, t: Tiling, i: int, nt: int, ks: int, column: seq<real>, n: int)
    requires ValidTiling(t)
  {
    && |column| == NumWarps(t)
    && (n < t.tileN ==> forall w :: 0 <= w < NumWarps(t) ==> column[w] == WarpSum(inp, t, i, ks, nt * t.tileN + n, w))
    && (n == t.tileN && nt == 0 ==> forall w :: 0 <= w < NumWarps(t) ==>
         column[w] == WarpSum(inp, t, i, ks, inp.nOut, w))
  }

  method ReduceColumn(inp: Input, t: Tiling, ghost i: nat, ghost ks: nat, ghost col: nat, vals: seq<real>)
    returns (column: seq<real>)
    requires ValidTiling(t) && |vals| == t.nThr
    requires forall tid :: 0 <= tid < t.nThr ==> vals[tid] == ThreadSum(inp, t, i, ks, col, tid)
    ensures |column| == NumWarps(t)
    ensures forall w :: 0 <= w < NumWarps(t) ==> column[w] == WarpSum(inp, t, i, ks, col, w)
  {
    column := [];
    for w := 0 to NumWarps(t)
      invariant |column| == w
      invariant forall v :: 0 <= v < w ==> column[v] == WarpSum(inp, t, i, ks, col, v)
    {
      var v := WarpReduce(inp, t, i, ks, col, vals, w);
      column := column + [v];
    }
  }

  lemma ColumnOfThreads(inp: Input, t: Tiling, i: int, nt: int, ks: int, accs: seq<seq<real>>, sqrs: seq<real>, n: int)
    requires ValidTiling(t) && |accs| == |sqrs| == t.nThr && 0 <= n < t.tileN
    requires forall tid :: 0 <= tid < t.nThr ==> AccRight(inp, t, i, nt, ks, tid, accs[tid], sqrs[tid])
    ensures forall tid :: 0 <= tid < t.nThr ==>
      |accs[tid]| == t.tileN && accs[tid][n] == ThreadSum(inp, t, i, ks, nt * t.tileN + n, tid)
  {}

  /** Shared memory after the warp reductions. */
  method FillShared(inp: Input, t: Tiling, ghost i: nat, nt: nat, ghost ks: nat, accs: seq<seq<real>>, sqrs: seq<real>)
    returns (sWarp: seq<seq<real>>)
    requires ValidTiling(t) && nt < NTiles(inp, t) && |accs| == |sqrs| == t.nThr
    requires forall tid :: 0 <= tid < t.nThr ==> AccRight(inp, t, i, nt, ks, tid, accs[tid], sqrs[tid])
    ensures |sWarp| == t.tileN + 1
    ensures forall n :: 0 <= n <= t.tileN ==> SlotRight(inp, t, i, nt, ks, sWarp[n], n)
  {
    sWarp := [];
    for n := 0 to t.tileN
      invariant |sWarp| == n
      invariant forall l :: 0 <= l < n ==> SlotRight(inp, t, i, nt, ks, sWarp[l], l)
    {
      var column := FillColumn(inp, t, i, nt, ks, accs, sqrs, n);
      sWarp := sWarp + [column];
    }
    var squares := FillSquares(inp, t, i, nt, ks, accs, sqrs);
    sWarp := sWarp + [squares];
  }

  method FillColumn(inp: Input, t: Tiling, ghost i: nat, nt: nat, ghost ks: nat, accs: seq<seq<real>>,
                    ghost sqrs: seq<real>, n: nat)
    returns (column: seq<real>)
    requires ValidTiling(t) && nt < NTiles(inp, t) && |accs| == |sqrs| == t.nThr && n < t.tileN
    requires forall tid :: 0 <= tid < t.nThr ==> AccRight(inp, t, i, nt, ks, tid, accs[tid], sqrs[tid])
    ensures SlotRight(inp, t, i, nt, ks, column, n)
  {
    ColumnOfThreads(inp, t, i, nt, ks, accs, sqrs, n);
    var vals := seq(t.nThr, tid requires 0 <= tid < t.nThr && |accs[tid]| == t.tileN => accs[tid][n]);
    ColumnInRange(inp, t, nt, n);
    column := ReduceColumn(inp, t, i, ks, nt * t.tileN + n, vals);
  }

  method FillSquares(inp: Input, t: Tiling, ghost i: nat, nt: nat, ghost ks: nat, accs: seq<seq<real>>, sqrs: seq<real>)
    returns (column: seq<real>)
    requires ValidTiling(t) && |accs| == |sqrs| == t.nThr
    requires forall tid :: 0 <= tid < t.nThr ==> AccRight(inp, t, i, nt, ks, tid, accs[tid], sqrs[tid])
    ensures SlotRight(inp, t, i, nt, ks, column, t.tileN)
  {
    if nt == 0 {
      column := ReduceColumn(inp, t, i, ks, inp.nOut, sqrs);
    } else {
      column := seq(NumWarps(t), _ => 0.0);
    }
  }

  // ---------------------------------------------------------------- blocks

  /** The value meant for each cell of yp. */
  ghost function Want(inp: Input, t: Tiling): (int, int, int) -> real
    requires ValidTiling(t)
  {
    (ks: int, i: int, col: int) => BlockSum(inp, t, i, ks, col)
  }

  ghost predicate YpRight(want: (int, int, int) -> real, yp: array3<real>, ks: int, i: int, col: int)
    reads yp
  {
    && 0 <= ks < yp.Length0 && 0 <= i < yp.Length1 && 0 <= col < yp.Length2
    && yp[ks, i, col] == want(ks, i, col)
  }

  ghost predicate RpRight(inp: Input, t: Tiling, rp: array2<real>, ks: int, i: int)
    requires ValidTiling(t)
    reads rp
  {
    0 <= ks < rp.Length0 && 0 <= i < rp.Length1 && rp[ks, i] == BlockSum(inp, t, i, ks, inp.nOut)
  }

  datatype Block = Block(i: nat, nt: nat, ks: nat)

  predicate ValidBlock(inp: Input, t: Tiling, b: Block)
    requires ValidTiling(t)
  {
    b.i < inp.m && b.nt < NTiles(inp, t) && b.ks < t.splitK
  }

  /** The columns of tile nt that the lanes of warp 0 write. */
  function FirstColumn(t: Tiling, nt: nat): nat { nt * t.tileN }
  function LastColumn(t: Tiling, nt: nat): nat { nt * t.tileN + if t.tileN < 32 then t.tileN else 32 }

  /** The cells that a block is responsible for hold their final values. */
  ghost predicate BlockDone(inp: Input, t: Tiling, b: Block, out: Output)
    requires ValidTiling(t)
    reads out.yp, out.rp, out.residual
  {
    && (forall col :: FirstColumn(t, b.nt) <= col < LastColumn(t, b.nt) ==>
         YpRight(Want(inp, t), out.yp, b.ks, b.i, col))
    && (b.nt == 0 ==> RpRight(inp, t, out.rp, b.ks, b.i))
    && (b.nt == 0 ==> forall it, tid :: ValidIndex(inp, t, b.ks, it, tid) ==>
        ResidualRight(inp, out.residual, b.i, Index(inp, t, b.ks, it, tid)))
  }

  /** Each lane of warp 0 that has a column adds it up over the warps. */
  method LaneSums(inp: Input, t: Tiling, ghost b: Block, sWarp: seq<seq<real>>) returns (vs: seq<real>)
    requires ValidTiling(t) && |sWarp| == t.tileN + 1 && b.nt < NTiles(inp, t)
    requires forall n :: 0 <= n <= t.tileN ==> SlotRight(inp, t, b.i, b.nt, b.ks, sWarp[n], n)
    ensures |vs| == if t.tileN < 32 then t.tileN else 32
    ensures forall lane :: 0 <= lane < |vs| ==> vs[lane] == BlockSum(inp, t, b.i, b.ks, b.nt * t.tileN + lane)
  {
    vs := [];
    for lane := 0 to if t.tileN < 32 then t.tileN else 32
      invariant |vs| == lane
      invariant forall l :: 0 <= l < lane ==> vs[l] == BlockSum(inp, t, b.i, b.ks, b.nt * t.tileN + l)
    {
      ColumnInRange(inp, t, b.nt, lane);
      assert SlotRight(inp, t, b.i, b.nt, b.ks, sWarp[lane], lane);
      var v := CrossWarpReduce(inp, t, b.i, b.ks, b.nt * t.tileN + lane, sWarp[lane]);
      vs := vs + [v];
    }
  }

  method StoreColumn(ghost want: (int, int, int) -> real, ks: nat, i: nat, col: nat, v: real, yp: array3<real>)
    requires ks < yp.Length0 && i < yp.Length1 && col < yp.Length2
    requires v == want(ks, i, col)
    modifies yp
    ensures YpRight(want, yp, ks, i, col)
    ensures forall k, j, c :: old(YpRight(want, yp, k, j, c)) ==> YpRight(want, yp, k, j, c)
  {
    yp[ks, i, col] := v;
  }

  /** The lanes of warp 0 write their columns. */
  method WriteLanes(ghost want: (int, int, int) -> real, ks: nat, i: nat, first: nat, vs: seq<real>, yp: array3<real>)
    requires ks < yp.Length0 && i < yp.Length1 && first + |vs| <= yp.Length2
    requires forall lane :: 0 <= lane < |vs| ==> vs[lane] == want(ks, i, first + lane)
    modifies yp
    ensures forall col :: first <= col < first + |vs| ==> YpRight(want, yp, ks, i, col)
    ensures forall k, j, c :: old(YpRight(want, yp, k, j, c)) ==> YpRight(want, yp, k, j, c)
  {
    for lane := 0 to |vs|
      invariant forall col :: first <= col < first + lane ==> YpRight(want, yp, ks, i, col)
      invariant forall k, j, c :: old(YpRight(want, yp, k, j, c)) ==> YpRight(want, yp, k, j, c)
    {
      StoreColumn(want, ks, i, first + lane, vs[lane], yp);
    }
  }

  method WriteSquares(inp: Input, t: Tiling, b: Block, column: seq<real>, rp: array2<real>)
    requires ValidTiling(t) && ValidBlock(inp, t, b) && b.nt == 0
    requires rp.Length0 == t.splitK && rp.Length1 == inp.m
    requires SlotRight(inp, t, b.i, b.nt, b.ks, column, t.tileN)
    modifies rp
    ensures RpRight(inp, t, rp, b.ks, b.i)
    ensures forall k, i :: old(RpRight(inp, t, rp, k, i)) ==> RpRight(inp, t, rp, k, i)
  {
    var v2 := CrossWarpReduce(inp, t, b.i, b.ks, inp.nOut, column);
    rp[b.ks, b.i] := v2;
  }

  /** One block of the grid. It completes its own cells and spoils no completed one. */
  method RunBlock(inp: Input, t: Tiling, b: Block, out: Output)
    requires Shaped(inp) && ValidTiling(t) && ValidBlock(inp, t, b) && out.Sized(inp, t)
    modifies out.yp, out.rp, out.residual
    ensures BlockDone(inp, t, b, out)
    ensures forall c :: old(BlockDone(inp, t, c, out)) ==> BlockDone(inp, t, c, out)
  {
    var accs, sqrs := RunThreads(inp, t, b.i, b.nt, b.ks, out.residual);
    var sWarp := FillShared(inp, t, b.i, b.nt, b.ks, accs, sqrs);
    var vs := LaneSums(inp, t, b, sWarp);
    assert LastColumn(t, b.nt) <= inp.nOut by { ColumnInRange(inp, t, b.nt, |vs| - 1); }
    WriteLanes(Want(inp, t), b.ks, b.i, FirstColumn(t, b.nt), vs, out.yp);
    if b.nt == 0 {
      WriteSquares(inp, t, b, sWarp[t.tileN], out.rp);
    }
  }

  /** The grid: every block runs at least once, in any order. */
  ghost predicate Complete(inp: Input, t: Tiling, schedule: seq<Block>)
    requires ValidTiling(t)
  {
    && (forall b :: b in schedule ==> ValidBlock(inp, t, b))
    && (forall b: Block :: ValidBlock(inp, t, b) ==> b in schedule)
  }

  /** What a launch leaves in its outputs: each written column of each split holds its block sum,
      and each reached hidden index of the residual its new value. */
  ghost predicate Launched(inp: Input, t: Tiling, out: Output)
    requires ValidTiling(t)
    reads out.yp, out.rp, out.residual
  {
    && (forall ks, i, col :: 0 <= ks < t.splitK && 0 <= i < inp.m && ColumnWritten(inp, t, col) ==>
        YpRight(Want(inp, t), out.yp, ks, i, col))
    && (forall ks, i :: 0 <= ks < t.splitK && 0 <= i < inp.m && NTiles(inp, t) > 0 ==> RpRight(inp, t, out.rp, ks, i))
    && (forall i, x :: 0 <= i < inp.m && Reached(inp, t, x) && NTiles(inp, t) > 0 ==>
         ResidualRight(inp, out.residual, i, x))
  }

  method MhcFused(inp: Input, t: Tiling, schedule: seq<Block>, out: Output)
    requires Shaped(inp) && ValidTiling(t) && out.Sized(inp, t) && Complete(inp, t, schedule)
    modifies out.yp, out.rp, out.residual
    ensures Launched(inp, t, out)
  {
    RunGrid(inp, t, schedule, out);
    GridCovers(inp, t, schedule, out);
  }

  method RunGrid(inp: Input, t: Tiling, schedule: seq<Block>, out: Output)
    requires Shaped(inp) && ValidTiling(t) && out.Sized(inp, t)
    requires forall b :: b in schedule ==> ValidBlock(inp, t, b)
    modifies out.yp, out.rp, out.residual
    ensures forall b :: b in schedule ==> BlockDone(inp, t, b, out)
  {
    for k := 0 to |schedule|
      invariant forall b :: b in schedule[..k] ==> BlockDone(inp, t, b, out)
    {
      RunBlock(inp, t, schedule[k], out);
    }
  }

  lemma GridCovers(inp: Input, t: Tiling, schedule: seq<Block>, out: Output)
    requires ValidTiling(t) && Complete(inp, t, schedule)
    requires forall b :: b in schedule ==> BlockDone(inp, t, b, out)
    ensures Launched(inp, t, out)
  {
    forall ks, i, col | 0 <= ks < t.splitK && 0 <= i < inp.m && ColumnWritten(inp, t, col)
      ensures YpRight(Want(inp, t), out.yp, ks, i, col)
    {
      OwnColumn(inp, t, ks, i, col, out);
    }
    forall ks, i | 0 <= ks < t.splitK && 0 <= i < inp.m && NTiles(inp, t) > 0 ensures RpRight(inp, t, out.rp, ks, i) {
      assert ValidBlock(inp, t, Block(i, 0, ks)) && BlockDone(inp, t, Block(i, 0, ks), out);
    }
    forall i, x | 0 <= i < inp.m && Reached(inp, t, x) && NTiles(inp, t) > 0
      ensures ResidualRight(inp, out.residual, i, x)
    {
      var ks, it, tid := ReachedIndex(inp, t, x);
      assert ValidBlock(inp, t, Block(i, 0, ks)) && BlockDone(inp, t, Block(i, 0, ks), out);
    }
  }

  lemma OwnColumn(inp: Input, t: Tiling, ks: nat, i: nat, col: int, out: Output)
    requires ValidTiling(t) && ks < t.splitK && i < inp.m && ColumnWritten(inp, t, col)
    requires forall b :: ValidBlock(inp, t, b) ==> BlockDone(inp, t, b, out)
    ensures YpRight(Want(inp, t), out.yp, ks, i, col)
  {
    var b := Block(i, col / t.tileN, ks);
    assert ValidBlock(inp, t, b) && BlockDone(inp, t, b, out);
    assert col == FirstColumn(t, b.nt) + col % t.tileN;
  }

  lemma ReachedIndex(inp: Input, t: Tiling, x: int) returns (ks: nat, it: nat, tid: nat)
    requires ValidTiling(t) && Reached(inp, t, x)
    ensures ValidIndex(inp, t, ks, it, tid) && x == Index(inp, t, ks, it, tid)
  {
    var y := x % HPerSplit(inp, t);
    QuotientBelow(x, HPerSplit(inp, t), t.splitK);
    QuotientBelow(y, t.nThr, HIters(inp, t));
    ks, it, tid := x / HPerSplit(inp, t), y / t.nThr, y % t.nThr;
  }

  lemma QuotientBelow(x: int, n: nat, q: nat)
    requires n > 0 && 0 <= x < q * n
    ensures 0 <= x / n < q && 0 <= x % n < n && x == x / n * n + x % n
  {
    if x / n >= q { MulLe(q, x / n, n); }
  }

  // ---------------------------------------------------------------- tightness

  function Fill2(a: nat, b: nat, v: real): seq<seq<real>> { seq(a, _ => seq(b, _ => v)) }
  function Fill3(a: nat, b: nat, c: nat, v: real): seq<seq<seq<real>>> { seq(a, _ => Fill2(b, c, v)) }

  /** Tensors of the given sizes whose new residual is one everywhere. */
  function Ones(m: nat, hc: nat, h: nat, nOut: nat): Input {
    Input(m, hc, h, nOut, Fill3(m, hc, hc, 0.0), Fill3(m, hc, h, 0.0), Fill2(m, hc, 1.0), Fill2(m, h, 1.0),
          Fill3(nOut, hc, h, 1.0))
  }

  lemma OnesAddend(m: nat, hc: nat, h: nat, nOut: nat, i: nat, col: nat, x: nat)
    requires i < m && col < nOut && x < h
    ensures Addend(Ones(m, hc, h, nOut), i, col, x) == hc as real
  {
    var inp := Ones(m, hc, h, nOut);
    forall j | 0 <= j < hc ensures NewR(inp, i, j, x) == 1.0 {
      SumZero(hc, k => At3(inp.comb, i, k, j) * At3(inp.residual, i, k, x));
    }
    SumIndicator(hc, j => true, 1.0, j => At3(inp.weight, col, j, x) * NewR(inp, i, j, x));
    CountAll(hc);
  }

  lemma {:induction false} CountAll(n: nat)
    ensures Count(n, j => true) == n
  {
    if n > 0 { CountAll(n - 1); }
  }

  ghost predicate PlainForAll(m: nat, hc: nat, h: nat, nOut: nat, t: Tiling)
    requires ValidTiling(t)
  {
    forall inp: Input, i, col :: IsSized(inp, m, hc, h, nOut) && 0 <= i < m && 0 <= col < nOut ==>
      SplitTotal(inp, t, i, col) == Sum(h, x => Addend(inp, i, col, x))
  }

  ghost predicate IsSized(inp: Input, m: nat, hc: nat, h: nat, nOut: nat) {
    Shaped(inp) && inp.m == m && inp.hc == hc && inp.h == h && inp.nOut == nOut
  }

  /** For given sizes, the tiled sums are the plain ones for every content of the tensors exactly
      when the splits divide the hidden size and the threads divide a split. */
  lemma TilingExact(m: nat, hc: nat, h: nat, nOut: nat, t: Tiling)
    requires ValidTiling(t) && m > 0 && hc > 0 && nOut > 0
    ensures PlainForAll(m, hc, h, nOut, t) <==> h % t.splitK == 0 && (h / t.splitK) % t.nThr == 0
  {
    if h % t.splitK == 0 && (h / t.splitK) % t.nThr == 0 {
      forall inp: Input, i, col | IsSized(inp, m, hc, h, nOut) && 0 <= i < m && 0 <= col < nOut
        ensures SplitTotal(inp, t, i, col) == Sum(h, x => Addend(inp, i, col, x))
      {
        TiledIsPlain(inp, t, i, col);
      }
    } else {
      TailLost(m, hc, h, nOut, t);
      assert IsSized(Ones(m, hc, h, nOut), m, hc, h, nOut);
    }
  }

  lemma {:induction false} TailLost(m: nat, hc: nat, h: nat, nOut: nat, t: Tiling)
    requires ValidTiling(t) && m > 0 && hc > 0 && nOut > 0
    requires !(h % t.splitK == 0 && (h / t.splitK) % t.nThr == 0)
    ensures var inp := Ones(m, hc, h, nOut); SplitTotal(inp, t, 0, 0) < Sum(h, x => Addend(inp, 0, 0, x))
  {
    var inp := Ones(m, hc, h, nOut);
    SplitsSumReached(inp, t, 0, 0);
    ReachesAllIff(inp, t);
    var x :| 0 <= x < h && !Reached(inp, t, x);
    var lost := x => if Reached(inp, t, x) then 0.0 else Addend(inp, 0, 0, x);
    forall y | 0 <= y < h ensures lost(y) >= 0.0 && (y == x ==> lost(y) > 0.0) {
      OnesAddend(m, hc, h, nOut, 0, 0, y);
    }
    SumPlus(h, x => ReachedAddend(inp, t, 0, 0, x), lost, x => Addend(inp, 0, 0, x));
    SumTerm(h, lost, x);
  }
}
