/** How the host cuts the fused kernel for a small batch (rps-serve/vllm/model_executor/kernels/mhc/
    tilelang.py), and when the kernel so launched computes what it should. The host passes its number of
    splits under a keyword that the kernel does not declare; what reaches the kernel's split_k, a dynamic
    dimension, is the first dimension of the output the host has allocated with that number. */
module HostLaunch {
  import opened FusedKernel

  /** The host's heuristics: output columns per tile, and splits of the hidden range. */
  function HostTile(tokens: nat): nat { if tokens < 8 then 2 else 3 }

  function HostSplits(tokens: nat, hidden: nat): nat { if tokens < 8 && hidden <= 4096 then 8 else 4 }

  function Outputs(hc: nat): nat { hc * 2 + hc * hc }

  /** The tiling the kernel binds: its own thread count, the tile width it is passed, and the number of
      splits read off the shape of the output. */
  function BoundTiling(tokens: nat, out: Output): Tiling { Tiling(256, HostTile(tokens), out.yp.Length0) }

  function ChosenTiling(tokens: nat, hidden: nat): Tiling {
    Tiling(256, HostTile(tokens), HostSplits(tokens, hidden))
  }

  /** The host's launch, where compiling the kernel drops the undeclared keyword (otherwise the call raises
      before any block runs). The blocks run with the bound tiling, which is the one the host has chosen. */
  method LaunchFused(inp: Input, schedule: seq<Block>) returns (out: Output)
    requires Shaped(inp) && 0 < inp.m <= 16 && inp.nOut == Outputs(inp.hc)
    requires Complete(inp, ChosenTiling(inp.m, inp.h), schedule)
    ensures BoundTiling(inp.m, out) == ChosenTiling(inp.m, inp.h) && out.Sized(inp, BoundTiling(inp.m, out))
    ensures fresh(out) && fresh(out.yp) && fresh(out.rp) && fresh(out.residual)
    ensures Launched(inp, BoundTiling(inp.m, out), out)
  {
    out := new Output(inp, Tiling(256, HostTile(inp.m), HostSplits(inp.m, inp.h)));
    MhcFused(inp, BoundTiling(inp.m, out), schedule, out);
  }

  lemma TwoDigits(d: nat, b: nat, r: nat, a: nat, r0: nat)
    requires r < b && r0 < a
    ensures a * b > 0 && 0 <= r * a + r0 < a * b
    ensures (d * b + r) * a + r0 == d * (a * b) + (r * a + r0)
  {
    MulGe(a, b);
    MulLe(0, r, a);
    MulLe(r + 1, b, a);
    assert (d * b + r) * a == d * b * a + r * a;
    assert d * b * a == d * (a * b);
  }

  /** Taking the remainder in two steps. */
  lemma SplitRemainder(h: nat, a: nat, b: nat)
    requires a > 0 && b > 0
    ensures a * b > 0 && h % (a * b) == (h / a) % b * a + h % a
  {
    var q, r0 := h / a, h % a;
    var d, r := q / b, q % b;
    Parts(h, a);
    Parts(q, b);
    TwoDigits(d, b, r, a, r0);
    var n := a * b;
    assert h == d * n + (r * a + r0);
    DivMod(d, n, r * a + r0);
  }

  lemma DivisibleInSteps(h: nat, a: nat, b: nat)
    requires a > 0 && b > 0
    ensures a * b > 0 && (h % a == 0 && (h / a) % b == 0 <==> h % (a * b) == 0)
  {
    SplitRemainder(h, a, b);
    MulLe(0, (h / a) % b, a);
    if (h / a) % b > 0 { MulGe((h / a) % b, a); }
  }

  /** On a batch of at most sixteen tokens the kernel with the bound tiling sums every tensor exactly when
      the hidden size is a multiple of 2048, for few tokens and a size up to 4096, and of 1024 otherwise.
      The host only asserts that a number of splits it then overrides divides the hidden size. */
  lemma LaunchExact(tokens: nat, hc: nat, hidden: nat)
    requires 0 < tokens <= 16 && hc > 0
    ensures PlainForAll(tokens, hc, hidden, Outputs(hc), ChosenTiling(tokens, hidden)) <==>
      hidden % (if tokens < 8 && hidden <= 4096 then 2048 else 1024) == 0
  {
    var t := ChosenTiling(tokens, hidden);
    MulGe(hc, hc);
    TilingExact(tokens, hc, hidden, Outputs(hc), t);
    DivisibleInSteps(hidden, t.splitK, 256);
  }

  /** Four tokens of hidden size 2560: eight splits divide it, as the host asserts, and the kernel still
      drops part of it. */
  lemma NarrowLaunchDrops(hc: nat)
    requires hc > 0
    ensures HostSplits(4, 2560) == 8 && 2560 % 8 == 0
    ensures !PlainForAll(4, hc, 2560, Outputs(hc), ChosenTiling(4, 2560))
  {
    LaunchExact(4, hc, 2560);
  }

  /** The launched kernel writes every output column exactly when the number of channels is even, for
      few tokens, and does not leave two on division by three otherwise. */
  lemma LaunchWritesAll(inp: Input)
    requires 0 < inp.m <= 16 && inp.nOut == Outputs(inp.hc)
    ensures (forall col :: 0 <= col < inp.nOut ==> ColumnWritten(inp, ChosenTiling(inp.m, inp.h), col)) <==>
      (if inp.m < 8 then inp.hc % 2 == 0 else inp.hc % 3 != 2)
  {
    var t := ChosenTiling(inp.m, inp.h);
    WritesAllIff(inp, t);
    OutputsModulo(inp.hc);
  }

  /** Two gates for each channel and one entry for each pair of channels. */
  lemma OutputsNext(hc: nat)
    ensures Outputs(hc + 1) == Outputs(hc) + 2 * hc + 3 && Outputs(1) == 3 && Outputs(4) == 24
  {
    Expand(hc, 1);
  }

  lemma OutputsModulo(hc: nat)
    ensures Outputs(hc) % 2 == 0 <==> hc % 2 == 0
    ensures Outputs(hc) % 3 == 0 <==> hc % 3 != 2
  {
    SquareModulo(hc / 2, 2, hc % 2);
    SquareModulo(hc / 3, 3, hc % 3);
    assert hc / 2 * 2 + hc % 2 == hc && hc / 3 * 3 + hc % 3 == hc;
    assert Outputs(0) == 0 && Outputs(1) == 3 && Outputs(2) == 8;
  }

  lemma SquareModulo(q: nat, n: nat, r: nat)
    requires n > 0
    ensures Outputs(q * n + r) % n == Outputs(r) % n
  {
    var k := 2 * q + q * q * n + 2 * q * r;
    assert (q * n + r) * (q * n + r) == (q * q * n + 2 * q * r) * n + r * r by {
      Expand(q * n, r);
      assert q * n * (q * n) == q * q * n * n;
      assert 2 * (q * n) * r == 2 * q * r * n;
    }
    assert Outputs(q * n + r) == k * n + Outputs(r);
    AddMultiple(k, n, Outputs(r));
  }

  lemma Expand(a: int, b: int)
    ensures (a + b) * (a + b) == a * a + 2 * a * b + b * b
  {}

  lemma AddMultiple(k: nat, n: nat, x: nat)
    requires n > 0
    ensures (k * n + x) % n == x % n
  {
    assert k * n + x == (k + x / n) * n + x % n;
    DivMod(k + x / n, n, x % n);
  }
}
