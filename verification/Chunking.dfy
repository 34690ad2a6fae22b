/** Rounding sizes up and cutting them into chunks (rps-serve/csrc/cumem_allocator.cpp, ROCm
    branch, my_malloc). */
module Chunking {
  import opened Sums
  import opened Wrappers

  // ---------------------------------------------------------------- sizes and chunks

  const LIMIT := 0x1_0000_0000_0000_0000  // sizes are 64-bit and wrap around
  const MB := 1024 * 1024
  const DEFAULT_CHUNK := 256 * MB

  /** The environment variable after parsing: unset or not a number, or a number of megabytes. */
  datatype EnvValue = Unset | ParseError | Megabytes(n: nat)

  /** A parsed value of zero, or one that overflows in bytes, is ignored. */
  function ChunkSizeFromEnv(env: EnvValue): (bytes: nat)
    ensures 0 < bytes < LIMIT && bytes % MB == 0
    ensures env.Megabytes? && 0 < env.n <= (LIMIT - 1) / MB ==> bytes == env.n * MB
    ensures !(env.Megabytes? && 0 < env.n <= (LIMIT - 1) / MB) ==> bytes == DEFAULT_CHUNK
  {
    if env.Megabytes? && env.n != 0 && env.n <= (LIMIT - 1) / MB then env.n * MB else DEFAULT_CHUNK
  }

  /** A chunk has 256 MiB unless the variable says otherwise; the largest number of megabytes that counts is
      the last whose bytes fit 64 bits. */
  lemma ChunkSizes()
    ensures ChunkSizeFromEnv(Unset) == ChunkSizeFromEnv(ParseError) == ChunkSizeFromEnv(Megabytes(0)) == 268435456
    ensures ChunkSizeFromEnv(Megabytes(3)) == 3145728
    ensures ChunkSizeFromEnv(Megabytes(17592186044415)) == 18446744073708503040
    ensures ChunkSizeFromEnv(Megabytes(17592186044416)) == 268435456
  {}

  function RoundDown(x: nat, g: nat): (r: nat)
    requires g > 0
    ensures r == x - x % g && r % g == 0
  {
    MultipleMod(x / g, g);
    x / g * g
  }

  /** Rounding up as the code does it, in 64-bit arithmetic. */
  function AlignUp(size: nat, g: nat): nat
    requires g > 0
  {
    RoundDown((size + g - 1) % LIMIT, g)
  }

  /** When the addition does not wrap, the result is the least multiple of g that is at least size;
      when it wraps, the result is not even as large as size. */
  lemma AlignUpExact(size: nat, g: nat)
    requires 0 < g < LIMIT && size < LIMIT
    ensures AlignUp(size, g) % g == 0
    ensures AlignUp(size, g) >= size <==> size + g - 1 < LIMIT
    ensures size + g - 1 < LIMIT ==> forall m: nat :: m * g >= size ==> AlignUp(size, g) <= m * g
  {
    WrapOnce(size + g - 1);
    if size + g - 1 < LIMIT {
      forall m: nat | m * g >= size ensures AlignUp(size, g) <= m * g {
        LeastMultiple(size, g, m);
      }
    }
  }

  lemma WrapOnce(x: nat)
    requires x < 2 * LIMIT
    ensures x % LIMIT == if x < LIMIT then x else x - LIMIT
  {}

  lemma LeastMultiple(size: nat, g: nat, m: nat)
    requires g > 0 && m * g >= size
    ensures RoundDown(size + g - 1, g) <= m * g
  {
    var q := (size + g - 1) / g;
    assert q * g == RoundDown(size + g - 1, g);
    LessMultiple(size, g, m, q);
    if m > q { Product(q, m, g); }
  }

  lemma LessMultiple(size: nat, g: nat, m: nat, q: nat)
    requires m * g >= size && q * g <= size + g - 1 && g > 0
    ensures q <= m
  {
    NextMultiple(m, g);
    if m < q { Product(m + 1, q, g); }
  }

  lemma MultipleMod(q: nat, g: nat)
    requires g > 0
    ensures q * g % g == 0
  {
    assert q * g == q * g / g * g + q * g % g;
    if q * g / g < q { Product(q * g / g + 1, q, g); }
    if q * g / g > q { Product(q + 1, q * g / g, g); }
  }

  lemma Product(a: nat, b: nat, g: nat)
    requires a <= b
    ensures a * g <= b * g
  {}

  /** No wrap-around in the two roundings and in the count of chunks. */
  predicate NoWrap(size: nat, base: nat, g: nat)
    requires g > 0
  {
    size + g - 1 < LIMIT && base + g - 1 < LIMIT && CountFits(AlignUp(size, g), AlignUp(base, g))
  }

  predicate CountFits(aligned: nat, chunk: nat) { aligned + chunk - 1 < LIMIT }

  /** A list of chunk sizes that cuts aligned bytes into full chunks and a last one. */
  ghost predicate IsPartition(sizes: seq<nat>, aligned: nat, chunk: nat, g: nat)
    requires g > 0
  {
    && Total(sizes) == aligned
    && (forall i :: 0 <= i < |sizes| ==> sizes[i] > 0 && sizes[i] % g == 0)
    && (forall i :: 0 <= i < |sizes| - 1 ==> sizes[i] == chunk)
    && (|sizes| > 0 ==> sizes[|sizes| - 1] <= chunk)
  }

  function Chunks(aligned: nat, chunk: nat): nat requires chunk > 0 { (aligned + chunk - 1) / chunk }

  /** Bytes covered by the first i chunks, and the size of chunk i. */
  function Covered(aligned: nat, chunk: nat, i: nat): nat { if i * chunk < aligned then i * chunk else aligned }
  function ChunkSize(aligned: nat, chunk: nat, i: nat): int {
    if aligned - i * chunk < chunk then aligned - i * chunk else chunk
  }

  /** What the chunk loop makes. When rounding the chunk size wraps around, the chunk size is zero and
      dividing by it traps (None). When the count of chunks wraps around, there are none. Otherwise all
      chunks are positive multiples of the granularity, all but the last are full, and together they
      make up the aligned size. */
  ghost predicate IsChunking(r: Option<seq<nat>>, size: nat, base: nat, g: nat)
    requires g > 0
  {
    && (r.None? <==> base + g - 1 >= LIMIT)
    && (r.Some? && CountFits(AlignUp(size, g), AlignUp(base, g)) ==>
          IsPartition(r.value, AlignUp(size, g), AlignUp(base, g), g))
    && (r.Some? && !CountFits(AlignUp(size, g), AlignUp(base, g)) ==> r.value == [])
  }

  method MakeChunks(size: nat, base: nat, g: nat) returns (r: Option<seq<nat>>)
    requires 0 < g < LIMIT && size < LIMIT && 0 < base < LIMIT
    ensures IsChunking(r, size, base, g)
  {
    AlignUpExact(size, g);
    AlignUpExact(base, g);
    AlignUpPositive(base, g);
    if AlignUp(base, g) == 0 {
      return None;
    }
    var sizes := Partition(AlignUp(size, g), AlignUp(base, g), g);
    r := Some(sizes);
  }

  /** The chunks make up at least the requested size exactly when nothing wraps around. */
  lemma ChunksSuffice(r: Option<seq<nat>>, size: nat, base: nat, g: nat)
    requires 0 < g < LIMIT && size < LIMIT && 0 < base < LIMIT && size > 0 && IsChunking(r, size, base, g)
    ensures r.Some? && Total(r.value) >= size <==> NoWrap(size, base, g)
  {
    AlignUpExact(size, g);
  }

  /** Rounding up gives zero exactly when it wraps around. */
  lemma AlignUpPositive(base: nat, g: nat)
    requires 0 < g < LIMIT && 0 < base < LIMIT
    ensures AlignUp(base, g) == 0 <==> base + g - 1 >= LIMIT
  {
    WrapOnce(base + g - 1);
    AlignUpExact(base, g);
    if base + g - 1 >= LIMIT {
      RoundDownBelow(base + g - 1 - LIMIT, g);
    }
  }

  lemma RoundDownBelow(x: nat, g: nat)
    requires x < g
    ensures RoundDown(x, g) == 0
  {}

  method Partition(alignedSize: nat, alignedChunk: nat, ghost g: nat) returns (sizes: seq<nat>)
    requires g > 0 && 0 < alignedChunk < LIMIT && alignedSize < LIMIT
    requires alignedSize % g == 0 && alignedChunk % g == 0
    ensures CountFits(alignedSize, alignedChunk) ==> IsPartition(sizes, alignedSize, alignedChunk, g)
    ensures !CountFits(alignedSize, alignedChunk) ==> sizes == []
  {
    WrapOnce(alignedSize + alignedChunk - 1);
    var numChunks := (alignedSize + alignedChunk - 1) % LIMIT / alignedChunk;
    if !CountFits(alignedSize, alignedChunk) {
      assert numChunks == 0 by { RoundDownBelow(alignedSize + alignedChunk - 1 - LIMIT, alignedChunk); }
      return [];
    }
    sizes := FillChunks(alignedSize, alignedChunk, numChunks, g);
  }

  method FillChunks(alignedSize: nat, alignedChunk: nat, numChunks: nat, ghost g: nat) returns (sizes: seq<nat>)
    requires g > 0 && alignedChunk > 0 && alignedSize % g == 0 && alignedChunk % g == 0
    requires numChunks == Chunks(alignedSize, alignedChunk)
    ensures IsPartition(sizes, alignedSize, alignedChunk, g)
  {
    sizes := [];
    CoveredEnds(alignedSize, alignedChunk);
    for i := 0 to numChunks
      invariant |sizes| == i && Total(sizes) == Covered(alignedSize, alignedChunk, i)
      invariant forall k :: 0 <= k < i ==> 0 < sizes[k] <= alignedChunk && sizes[k] % g == 0
      invariant forall k :: 0 <= k < i && k < numChunks - 1 ==> sizes[k] == alignedChunk
    {
      ChunkStep(alignedSize, alignedChunk, i, g);
      var rest := alignedSize - i * alignedChunk;
      var c := if rest < alignedChunk then rest else alignedChunk;
      assert (sizes + [c])[..i] == sizes;
      sizes := sizes + [c];
    }
  }

  lemma CoveredEnds(aligned: nat, chunk: nat)
    requires chunk > 0
    ensures aligned <= Chunks(aligned, chunk) * chunk < aligned + chunk
    ensures Covered(aligned, chunk, 0) == 0 && Covered(aligned, chunk, Chunks(aligned, chunk)) == aligned
  {
    var q := (aligned + chunk - 1) / chunk;
    assert q * chunk + (aligned + chunk - 1) % chunk == aligned + chunk - 1;
  }

  /** Chunk i is positive, a multiple of g, and full unless it is the last. */
  lemma ChunkStep(aligned: nat, chunk: nat, i: nat, g: nat)
    requires chunk > 0 && g > 0 && aligned % g == 0 && chunk % g == 0 && i < Chunks(aligned, chunk)
    ensures 0 < ChunkSize(aligned, chunk, i) <= chunk && ChunkSize(aligned, chunk, i) % g == 0
    ensures i < Chunks(aligned, chunk) - 1 ==> ChunkSize(aligned, chunk, i) == chunk
    ensures Covered(aligned, chunk, i + 1) == Covered(aligned, chunk, i) + ChunkSize(aligned, chunk, i)
  {
    var n := Chunks(aligned, chunk);
    ChunkRest(aligned, chunk, i);
    assert (i + 1) * chunk == i * chunk + chunk;
    RestMultiple(aligned, chunk, i, g);
  }

  lemma RestMultiple(aligned: nat, chunk: nat, i: nat, g: nat)
    requires g > 0 && aligned % g == 0 && chunk % g == 0 && aligned - i * chunk >= 0
    ensures (aligned - i * chunk) % g == 0
  {
    DifferenceMultiple(aligned / g, chunk / g, i, g);
    assert aligned == aligned / g * g && chunk == chunk / g * g;
  }

  lemma ChunkRest(aligned: nat, chunk: nat, i: nat)
    requires chunk > 0 && i < Chunks(aligned, chunk)
    ensures aligned - i * chunk > 0
    ensures i < Chunks(aligned, chunk) - 1 ==> aligned - i * chunk > chunk
  {
    var n := Chunks(aligned, chunk);
    CoveredEnds(aligned, chunk);
    Product(i + 1, n, chunk);
    assert (i + 1) * chunk == i * chunk + chunk;
    if i < n - 1 {
      Product(i + 2, n, chunk);
      assert (i + 2) * chunk == i * chunk + chunk + chunk;
    }
  }

  lemma DifferenceMultiple(a: nat, c: nat, i: nat, g: nat)
    requires g > 0
    ensures a * g - i * (c * g) == (a - i * c) * g
    ensures a * g - i * (c * g) >= 0 ==> (a * g - i * (c * g)) % g == 0
  {
    assert i * (c * g) == (i * c) * g;
    var m := a - i * c;
    assert a * g - (i * c) * g == m * g;
    if m < 0 { Product(1, -m, g); } else { MultipleMod(m, g); }
  }
}
