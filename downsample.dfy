/** The convolution-and-downsample engine: the kernel is multiplied bin by bin
    with the input spectrum and the product is folded (aliasing-summed) from
    n source bins down to m destination bins.  Complex samples are modelled as
    reals; only products and sums are involved. */
module Downsample {

  /** The scaled product of kernel and spectrum over the first n bins: the
      value each source bin contributes to the output. */
  function Products(kernel: seq<real>, spectrum: seq<real>, n: nat): (p: seq<real>)
    requires 0 < n <= |kernel| && n <= |spectrum|
    ensures |p| == n
    ensures forall j :: 0 <= j < n ==> p[j] == kernel[j] * spectrum[j] * (1.0 / (n as real))
  {
    seq(n, j requires 0 <= j < n => kernel[j] * spectrum[j] * (1.0 / (n as real)))
  }

  /** The sum of p[j] over every j < hi with j mod m == x: the source bins
      that alias onto destination bin x. */
  function AliasSum(p: seq<real>, m: nat, x: nat, hi: nat): real
    requires 0 < m && hi <= |p|
  {
    if hi == 0 then 0.0
    else AliasSum(p, m, x, hi - 1) + (if (hi - 1) % m == x then p[hi - 1] else 0.0)
  }

  /** The folded spectrum: destination bin x collects every source bin
      congruent to x modulo m. */
  function Fold(p: seq<real>, m: nat): (r: seq<real>)
    requires 0 < m
    ensures |r| == m
    ensures forall x :: 0 <= x < m ==> r[x] == AliasSum(p, m, x, |p|)
  {
    seq(m, x requires 0 <= x < m => AliasSum(p, m, x, |p|))
  }

  /** Sum of the full chunks: p[x] + p[m + x] + ... + p[(q-1)*m + x]. */
  function ChunkSum(p: seq<real>, m: nat, x: nat, q: nat): real
    requires x < m && q * m <= |p|
  {
    if q == 0 then 0.0 else ChunkSum(p, m, x, q - 1) + p[(q - 1) * m + x]
  }

  function Sum(s: seq<real>): real
  {
    if s == [] then 0.0 else Sum(s[..|s| - 1]) + s[|s| - 1]
  }

  /** A bin at offset t inside a chunk of m bins is congruent to t. */
  lemma ModOfChunk(q: nat, m: nat, t: nat)
    requires t < m
    ensures (q * m + t) % m == t
  {
    var a := q * m + t;
    var d, r := a / m, a % m;
    assert a == d * m + r;
    MulAtLeast(d - q, m);
    MulAtLeast(q - d, m);
  }

  lemma MulAtLeast(k: int, m: nat)
    ensures 1 <= k ==> m <= k * m
  {
  }

  lemma MulMonotone(a: nat, b: nat, m: nat)
    ensures a <= b ==> a * m <= b * m
  {
  }

  /** Extending the range of summation by the first r bins of the chunk
      starting at q*m adds exactly bin q*m + x to destination x when x < r,
      and nothing otherwise. */
  lemma {:induction false} AliasStep(p: seq<real>, m: nat, q: nat, r: nat, x: nat)
    requires 0 < m && r <= m && x < m && q * m + r <= |p|
    ensures AliasSum(p, m, x, q * m + r)
            == AliasSum(p, m, x, q * m) + (if x < r then p[q * m + x] else 0.0)
  {
    if r > 0 {
      AliasStep(p, m, q, r - 1, x);
      ModOfChunk(q, m, r - 1);
    }
  }

  /** The aliasing sum over q full chunks is the sum of one bin per chunk. */
  lemma {:induction false} AliasSumByChunks(p: seq<real>, m: nat, x: nat, q: nat)
    requires x < m && q * m <= |p|
    ensures AliasSum(p, m, x, q * m) == ChunkSum(p, m, x, q)
  {
    if q > 0 {
      MulMonotone(q - 1, q, m);
      assert (q - 1) * m + m == q * m;
      AliasSumByChunks(p, m, x, q - 1);
      AliasStep(p, m, q - 1, m, x);
    }
  }

  /** The first chunk aliases onto itself alone. */
  lemma FirstChunk(p: seq<real>, m: nat)
    requires 0 < m <= |p|
    ensures forall x :: 0 <= x < m ==> AliasSum(p, m, x, m) == p[x]
  {
    forall x | 0 <= x < m
      ensures AliasSum(p, m, x, m) == p[x]
    {
      AliasStep(p, m, 0, m, x);
    }
  }

  /** Folding onto as many bins as there are leaves every bin alone. */
  lemma FoldIdentity(p: seq<real>)
    requires 0 < |p|
    ensures Fold(p, |p|) == p
  {
    FirstChunk(p, |p|);
  }

  /** With as many destination as source bins the engine's result is the
      plain scaled pointwise product of kernel and spectrum. */
  lemma NoFoldIsPointwise(kernel: seq<real>, spectrum: seq<real>, n: nat, x: nat)
    requires 0 < n <= |kernel| && n <= |spectrum| && x < n
    ensures Fold(Products(kernel, spectrum, n), n)[x] == kernel[x] * spectrum[x] * (1.0 / (n as real))
  {
    FoldIdentity(Products(kernel, spectrum, n));
  }

  /** Eight bins folded onto three: bin x receives bins x, x + 3 and, when it
      exists, x + 6. */
  lemma EightOntoThree(p: seq<real>, x: nat)
    requires |p| == 8 && x < 3
    ensures Fold(p, 3)[x] == p[x] + p[x + 3] + (if x + 6 < 8 then p[x + 6] else 0.0)
  {
    AliasStep(p, 3, 2, 2, x);
    AliasSumByChunks(p, 3, x, 2);
    assert ChunkSum(p, 3, x, 1) == p[x];
  }

  /** Sum over the first k destination bins of their aliasing sums up to hi. */
  function TotalUpTo(p: seq<real>, m: nat, k: nat, hi: nat): real
    requires 0 < m && hi <= |p|
  {
    if k == 0 then 0.0 else TotalUpTo(p, m, k - 1, hi) + AliasSum(p, m, k - 1, hi)
  }

  lemma {:induction false} TotalUpToStep(p: seq<real>, m: nat, k: nat, hi: nat)
    requires 0 < m && hi < |p|
    ensures TotalUpTo(p, m, k, hi + 1)
            == TotalUpTo(p, m, k, hi) + (if hi % m < k then p[hi] else 0.0)
  {
    if k > 0 {
      TotalUpToStep(p, m, k - 1, hi);
    }
  }

  lemma {:induction false} TotalIsSum(p: seq<real>, m: nat, hi: nat)
    requires 0 < m && hi <= |p|
    ensures TotalUpTo(p, m, m, hi) == Sum(p[..hi])
  {
    if hi > 0 {
      TotalIsSum(p, m, hi - 1);
      TotalUpToStep(p, m, m, hi - 1);
      assert p[..hi][..hi - 1] == p[..hi - 1];
      assert (hi - 1) % m < m;
      assert TotalUpTo(p, m, m, hi) == Sum(p[..hi - 1]) + p[hi - 1];
      assert Sum(p[..hi]) == Sum(p[..hi - 1]) + p[hi - 1];
    } else {
      TotalUpToEmpty(p, m, m);
    }
  }

  lemma {:induction false} TotalUpToEmpty(p: seq<real>, m: nat, k: nat)
    requires 0 < m
    ensures TotalUpTo(p, m, k, 0) == 0.0
  {
    if k > 0 {
      TotalUpToEmpty(p, m, k - 1);
    }
  }

  lemma {:induction false} SumOfFoldPrefix(p: seq<real>, m: nat, k: nat)
    requires 0 < m && k <= m
    ensures Sum(Fold(p, m)[..k]) == TotalUpTo(p, m, k, |p|)
  {
    if k > 0 {
      SumOfFoldPrefix(p, m, k - 1);
      assert Fold(p, m)[..k][..k - 1] == Fold(p, m)[..k - 1];
    }
  }

  /** Folding moves every source bin into exactly one destination bin, so
      the total over the destination equals the total over the source. */
  lemma FoldConservesTotal(p: seq<real>, m: nat)
    requires 0 < m
    ensures Sum(Fold(p, m)) == Sum(p)
  {
    SumOfFoldPrefix(p, m, m);
    TotalIsSum(p, m, |p|);
    assert Fold(p, m)[..m] == Fold(p, m);
    assert p[..|p|] == p;
  }

  /** Every destination bin x < m holds its aliasing sum up to hi. */
  ghost predicate FoldedUpTo(dst: array<real>, p: seq<real>, m: nat, hi: nat)
    reads dst
    requires 0 < m <= dst.Length && hi <= |p|
  {
    forall x :: 0 <= x < m ==> dst[x] == AliasSum(p, m, x, hi)
  }

  /** From m on, dst still holds the kernel: p[k] is its scaled product with
      the spectrum. */
  ghost predicate TailIsKernel(dst: array<real>, src: array<real>, p: seq<real>, m: nat, scaleFactor: real)
    reads dst, src
    requires |p| <= dst.Length && |p| <= src.Length
  {
    forall k :: m <= k < |p| ==> p[k] == dst[k] * src[k] * scaleFactor
  }

  /** One pass of the fold: adds the scaled products of the count bins
      starting at offset (a multiple q of m) onto the first count bins of
      dst, which then hold their aliasing sums up to offset + count.  The
      block lies at or beyond m, so it is only read. */
  method AccumulateBlock(dst: array<real>, src: array<real>, offset: nat, count: nat, scaleFactor: real,
                         ghost p: seq<real>, ghost m: nat, ghost q: nat)
    requires dst != src
    requires 0 < m <= offset && count <= m && offset == q * m
    requires offset + count <= |p| <= dst.Length && |p| <= src.Length
    requires TailIsKernel(dst, src, p, m, scaleFactor) && FoldedUpTo(dst, p, m, offset)
    modifies dst
    ensures TailIsKernel(dst, src, p, m, scaleFactor) && FoldedUpTo(dst, p, m, offset + count)
    ensures forall k :: m <= k < dst.Length ==> dst[k] == old(dst[k])
  {
    var i := 0;
    while i < count
      invariant 0 <= i <= count
      invariant forall x :: 0 <= x < i ==> dst[x] == old(dst[x]) + p[offset + x]
      invariant forall k :: i <= k < dst.Length ==> dst[k] == old(dst[k])
    {
      assert p[offset + i] == dst[offset + i] * src[offset + i] * scaleFactor;
      dst[i] := dst[i] + dst[offset + i] * src[offset + i] * scaleFactor;
      i := i + 1;
    }
    forall x | 0 <= x < m
      ensures dst[x] == AliasSum(p, m, x, offset + count)
    {
      AliasStep(p, m, q, count, x);
    }
  }

  /** The chunk loop: folds every full chunk of m bins between m and
      cutIndex = chunks * m onto the first m bins. */
  method FoldChunks(dst: array<real>, src: array<real>, m: nat, cutIndex: nat, scaleFactor: real,
                    ghost p: seq<real>, ghost chunks: nat)
    requires dst != src
    requires 0 < m && 1 <= chunks && cutIndex == chunks * m
    requires cutIndex <= |p| <= dst.Length && |p| <= src.Length
    requires TailIsKernel(dst, src, p, m, scaleFactor) && FoldedUpTo(dst, p, m, m)
    modifies dst
    ensures TailIsKernel(dst, src, p, m, scaleFactor) && FoldedUpTo(dst, p, m, cutIndex)
    ensures forall k :: m <= k < dst.Length ==> dst[k] == old(dst[k])
  {
    var chunkIndex := m;
    ghost var q := 1;
    while chunkIndex < cutIndex
      invariant 1 <= q <= chunks && chunkIndex == q * m
      invariant TailIsKernel(dst, src, p, m, scaleFactor) && FoldedUpTo(dst, p, m, chunkIndex)
      invariant forall k :: m <= k < dst.Length ==> dst[k] == old(dst[k])
    {
      MulMonotone(chunks, q, m);
      MulMonotone(q + 1, chunks, m);
      AccumulateBlock(dst, src, chunkIndex, m, scaleFactor, p, m, q);
      chunkIndex := chunkIndex + m;
      q := q + 1;
    }
    MulMonotone(q, chunks, m);
  }

  /** The pointwise stage: dst[x] becomes dst[x] * src[x] * scaleFactor,
      that is p[x], for every x < count; nothing else changes. */
  method MultiplyPointwise(dst: array<real>, src: array<real>, count: nat, scaleFactor: real,
                           ghost p: seq<real>)
    requires dst != src
    requires count <= |p| <= dst.Length && |p| <= src.Length
    requires TailIsKernel(dst, src, p, 0, scaleFactor)
    modifies dst
    ensures forall x :: 0 <= x < count ==> dst[x] == p[x]
    ensures TailIsKernel(dst, src, p, count, scaleFactor)
    ensures forall k :: count <= k < dst.Length ==> dst[k] == old(dst[k])
  {
    var i := 0;
    while i < count
      invariant 0 <= i <= count
      invariant forall x :: 0 <= x < i ==> dst[x] == p[x]
      invariant forall k :: i <= k < dst.Length ==> dst[k] == old(dst[k])
    {
      dst[i] := dst[i] * src[i] * scaleFactor;
      i := i + 1;
    }
  }

  /** Multiplies dst (the kernel, generated over all srcCount bins) by src
      (the spectrum), scaled by 1/srcCount, and folds bins
      [dstCount, srcCount) back into [0, dstCount): first every full chunk
      up to cutIndex, then the remainder block.  Entries from dstCount on
      are only read, so every fold sees the original kernel values. */
  method ConvolveAndDownsample(dstCount: nat, srcCount: nat, dst: array<real>, src: array<real>)
    requires dst != src
    requires dstCount <= srcCount <= dst.Length && srcCount <= src.Length
    requires 0 < dstCount || srcCount == 0
    modifies dst
    ensures 0 < srcCount ==>
      dst[..dstCount] == Fold(Products(old(dst[..srcCount]), src[..srcCount], srcCount), dstCount)
    ensures dst[dstCount..] == old(dst[dstCount..])
  {
    if srcCount == 0 {
      // then dstCount == 0 as well: no loop runs and the scale factor is never used
      return;
    }
    var scaleFactor := 1.0 / (srcCount as real);
    ghost var p := Products(dst[..srcCount], src[..srcCount], srcCount);
    MultiplyPointwise(dst, src, dstCount, scaleFactor, p);
    FirstChunk(p, dstCount);
    if dstCount >= srcCount {
      assert dst[..dstCount] == Fold(p, dstCount);
      return;
    }
    var rest := srcCount % dstCount;
    var cutIndex := srcCount - rest;
    ghost var chunks := srcCount / dstCount;
    assert cutIndex == chunks * dstCount;
    MulMonotone(1, chunks, dstCount);
    FoldChunks(dst, src, dstCount, cutIndex, scaleFactor, p, chunks);
    AccumulateBlock(dst, src, cutIndex, rest, scaleFactor, p, dstCount, chunks);
    assert dst[..dstCount] == Fold(p, dstCount);
  }
}
