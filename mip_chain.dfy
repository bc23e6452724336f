// The mip chain both revisions build for a texture: the level count, the
// size of each level, and the commands generateMipmaps records.  Level 0
// holds the uploaded pixels; each later level is blitted, with linear
// filtering, from the level before it at half its size in each dimension,
// so the chain ends with a 1x1 level (Vulkan 1.x specification, "Image
// Creation": an image has at most floor(log2(max(width, height))) + 1
// levels).
module MipChains {
  import opened Wrappers
  import opened Vk
  import opened Gpu
  import opened ImageLayouts

  function Pow2(k: nat): (p: nat)
    ensures p >= 1
  {
    if k == 0 then 1 else 2 * Pow2(k - 1)
  }

  /** The number of binary digits of x, which is floor(log2(x)) + 1 for
      x >= 1. */
  function BitLength(x: nat): nat
  {
    if x <= 1 then 1 else 1 + BitLength(x / 2)
  }

  /** `floor(log2(max(texWidth, texHeight))) + 1`. */
  function MipLevels(e: Extent2D): (r: nat)
    ensures r >= 1
    ensures var m := if e.width >= e.height then e.width else e.height;
      m >= 1 ==> Pow2(r - 1) <= m < Pow2(r)
  {
    var m := if e.width >= e.height then e.width else e.height;
    if m == 0 then BitLength(m) else BitLengthBounds(m); BitLength(m)
  }

  /** BitLength is floor(log2) + 1: n is the bit length of x exactly when
      2^(n-1) <= x < 2^n. */
  lemma {:induction false} BitLengthIsLog2(x: nat, n: nat)
    requires x >= 1 && n >= 1
    ensures n == BitLength(x) <==> Pow2(n - 1) <= x < Pow2(n)
  {
    BitLengthBounds(x);
    var m := BitLength(x);
    if Pow2(n - 1) <= x < Pow2(n) && n != m {
      if n < m {
        Pow2Monotone(n, m - 1);
      } else {
        Pow2Monotone(m, n - 1);
      }
    }
  }

  lemma {:induction false} BitLengthBounds(x: nat)
    requires x >= 1
    ensures BitLength(x) >= 1 && Pow2(BitLength(x) - 1) <= x < Pow2(BitLength(x))
  {
    if x > 1 {
      BitLengthBounds(x / 2);
    }
  }

  lemma {:induction false} Pow2Monotone(a: nat, b: nat)
    requires a <= b
    ensures Pow2(a) <= Pow2(b)
    decreases b
  {
    if a < b {
      Pow2Monotone(a, b - 1);
    }
  }

  /** `if (mipWidth > 1) mipWidth /= 2;`: the tracked size stops at 1. */
  function Shrink(x: nat): nat
  {
    if x > 1 then x / 2 else x
  }

  /** `mipWidth > 1 ? mipWidth / 2 : 1`: the edge of a blit's destination. */
  function BlitEdge(x: nat): nat
  {
    if x > 1 then x / 2 else 1
  }

  /** The tracked edge after i iterations. */
  function Halvings(x: nat, i: nat): nat
  {
    if i == 0 then x else Shrink(Halvings(x, i - 1))
  }

  /** The size of level i as generateMipmaps tracks it. */
  function LevelExtent(e: Extent2D, i: nat): Extent2D
  {
    Extent2D(Halvings(e.width, i), Halvings(e.height, i))
  }

  function BlitTarget(src: Extent2D): Extent2D
  {
    Extent2D(BlitEdge(src.width), BlitEdge(src.height))
  }

  lemma DivTwice(x: nat, p: nat)
    requires p >= 1
    ensures x / p / 2 == x / (p * 2)
  {
    var q, r := x / p, x % p;
    var q2, b := q / 2, q % 2;
    assert x == q * p + r;
    assert q == 2 * q2 + b;
    assert x == q2 * (p * 2) + (b * p + r);
    assert 0 <= b * p + r < p * 2;
    DivUnique(x, p * 2, q2, b * p + r);
  }

  lemma DivUnique(x: nat, d: nat, q: nat, r: nat)
    requires d >= 1 && x == q * d + r && r < d
    ensures x / d == q
  {
    var q' := x / d;
    if q' < q {
      MulMonotone(q' + 1, q, d);
      assert false;
    } else if q < q' {
      MulMonotone(q + 1, q', d);
      assert false;
    }
  }

  lemma MulMonotone(a: nat, b: nat, d: nat)
    requires a <= b
    ensures a * d <= b * d
  {
  }

  /** A positive edge after i iterations is x / 2^i, but never below 1. */
  lemma {:induction false} HalvingsClosedForm(x: nat, i: nat)
    requires x >= 1
    ensures Halvings(x, i) == if x / Pow2(i) >= 1 then x / Pow2(i) else 1
  {
    if i > 0 {
      HalvingsClosedForm(x, i - 1);
      DivTwice(x, Pow2(i - 1));
    }
  }

  /** The chain is as long as Vulkan allows and no longer: its last level is
      1x1, and every earlier level is more than one texel in some
      dimension. */
  lemma ChainEndsAtOneTexel(e: Extent2D, i: nat)
    requires e.width >= 1 && e.height >= 1
    ensures LevelExtent(e, MipLevels(e) - 1) == Extent2D(1, 1)
    ensures i < MipLevels(e) - 1 ==> LevelExtent(e, i).width > 1 || LevelExtent(e, i).height > 1
  {
    var m := if e.width >= e.height then e.width else e.height;
    var n := BitLength(m);
    BitLengthBounds(m);
    var p := Pow2(n - 1);
    HalvingsClosedForm(e.width, n - 1);
    HalvingsClosedForm(e.height, n - 1);
    DivUnique(m, p, 1, m - p);
    BelowTwice(e.width, p);
    BelowTwice(e.height, p);
    if i < n - 1 {
      HalvingsClosedForm(m, i);
      Pow2Monotone(i + 1, n - 1);
      AtLeastTwice(m, Pow2(i));
    }
  }

  lemma BelowTwice(x: nat, p: nat)
    requires p >= 1 && x < 2 * p
    ensures x / p <= 1
  {
  }

  lemma AtLeastTwice(x: nat, p: nat)
    requires p >= 1 && x >= 2 * p
    ensures x / p >= 2
  {
  }

  /** Each blit writes the size its destination level is tracked at: a
      positive edge shrinks exactly as the blit's destination edge does. */
  lemma {:induction false} BlitsFollowLevels(e: Extent2D, i: nat)
    requires e.width >= 1 && e.height >= 1
    ensures BlitTarget(LevelExtent(e, i)) == LevelExtent(e, i + 1)
    ensures LevelExtent(e, i + 1).width >= 1 && LevelExtent(e, i + 1).height >= 1
  {
    HalvingsPositive(e.width, i);
    HalvingsPositive(e.height, i);
  }

  lemma {:induction false} HalvingsPositive(x: nat, i: nat)
    requires x >= 1
    ensures Halvings(x, i) >= 1
  {
    if i > 0 {
      HalvingsPositive(x, i - 1);
    }
  }

  /** Iteration i of the loop: level i - 1 (at `src`) goes to TransferSrc,
      is blitted into level i, and goes to ShaderReadOnly. */
  function MipStep(cmd: Handle, image: Handle, i: nat, src: Extent2D): seq<Call>
    requires i >= 1
  {
    [PipelineBarrier(cmd, Transfer, Transfer,
                     ImageBarrier(image, i - 1, 1, TransferDstOptimal, TransferSrcOptimal, {TransferWrite}, {TransferRead})),
     BlitImage(cmd, image, i - 1, TransferSrcOptimal, src, i, TransferDstOptimal, BlitTarget(src)),
     PipelineBarrier(cmd, Transfer, FragmentShader,
                     ImageBarrier(image, i - 1, 1, TransferSrcOptimal, ShaderReadOnlyOptimal, {TransferRead}, {ShaderRead}))]
  }

  /** The first n iterations. */
  function MipLoop(cmd: Handle, image: Handle, e: Extent2D, n: nat): seq<Call>
  {
    if n == 0 then [] else MipLoop(cmd, image, e, n - 1) + MipStep(cmd, image, n, LevelExtent(e, n - 1))
  }

  /** `mipLevels - 1` in uint32_t: it wraps when there are no levels. */
  function LastLevel(levels: nat): nat
  {
    if levels == 0 then UINT32_MAX else levels - 1
  }

  /** The loop runs for i in [1, mipLevels). */
  function Iterations(levels: nat): nat
  {
    if levels == 0 then 0 else levels - 1
  }

  /** What generateMipmaps records: the loop, then the last level from
      TransferDst to ShaderReadOnly. */
  function MipCalls(cmd: Handle, image: Handle, e: Extent2D, levels: nat): seq<Call>
  {
    MipLoop(cmd, image, e, Iterations(levels))
      + [PipelineBarrier(cmd, Transfer, FragmentShader,
                         ImageBarrier(image, LastLevel(levels), 1, TransferDstOptimal, ShaderReadOnlyOptimal,
                                      {TransferWrite}, {ShaderRead}))]
  }

  /** generateMipmaps' recorder: one barrier value reused and updated in
      place, and the tracked size of the level being read, halved after
      each blit while it is above 1. */
  method RecordMipChain(dev: Device, cmd: Handle, image: Handle, extent: Extent2D, mipLevels: nat)
    modifies dev`calls
    ensures dev.calls == old(dev.calls) + MipCalls(cmd, image, extent, mipLevels)
  {
    var barrier := ImageBarrier(image, 0, 1, ImageLayout.Undefined, ImageLayout.Undefined, {}, {});
    var mipWidth, mipHeight := extent.width, extent.height;
    var i := 1;
    while i < mipLevels
      invariant 1 <= i <= Iterations(mipLevels) + 1
      invariant barrier.image == image && barrier.levelCount == 1
      invariant mipWidth == Halvings(extent.width, i - 1) && mipHeight == Halvings(extent.height, i - 1)
      invariant dev.calls == old(dev.calls) + MipLoop(cmd, image, extent, i - 1)
    {
      barrier := barrier.(baseLevel := i - 1, oldLayout := TransferDstOptimal, newLayout := TransferSrcOptimal,
                          srcAccess := {TransferWrite}, dstAccess := {TransferRead});
      dev.calls := dev.calls + [PipelineBarrier(cmd, Transfer, Transfer, barrier)];
      var dstWidth := if mipWidth > 1 then mipWidth / 2 else 1;
      var dstHeight := if mipHeight > 1 then mipHeight / 2 else 1;
      dev.calls := dev.calls + [BlitImage(cmd, image, i - 1, TransferSrcOptimal, Extent2D(mipWidth, mipHeight),
                                          i, TransferDstOptimal, Extent2D(dstWidth, dstHeight))];
      barrier := barrier.(oldLayout := TransferSrcOptimal, newLayout := ShaderReadOnlyOptimal,
                          srcAccess := {TransferRead}, dstAccess := {ShaderRead});
      dev.calls := dev.calls + [PipelineBarrier(cmd, Transfer, FragmentShader, barrier)];
      if mipWidth > 1 {
        mipWidth := mipWidth / 2;
      }
      if mipHeight > 1 {
        mipHeight := mipHeight / 2;
      }
      i := i + 1;
    }
    barrier := barrier.(baseLevel := LastLevel(mipLevels), oldLayout := TransferDstOptimal,
                        newLayout := ShaderReadOnlyOptimal, srcAccess := {TransferWrite}, dstAccess := {ShaderRead});
    dev.calls := dev.calls + [PipelineBarrier(cmd, Transfer, FragmentShader, barrier)];
  }

  /** The levels after k iterations: the first k are shader-readable, the
      rest still transfer destinations. */
  function Settled(levels: nat, k: nat): seq<ImageLayout>
  {
    seq(levels, l => if l < k then ShaderReadOnlyOptimal else TransferDstOptimal)
  }

  /** One iteration is valid on the layouts the previous ones leave, and
      settles one more level. */
  lemma StepSettlesLevel(cmd: Handle, image: Handle, levels: nat, k: nat, src: Extent2D)
    requires k + 1 < levels
    ensures Replay(image, Settled(levels, k), MipStep(cmd, image, k + 1, src)) == Some(Settled(levels, k + 1))
  {
    var s := MipStep(cmd, image, k + 1, src);
    var before := Settled(levels, k);
    var reading := seq(levels, l => if l < k then ShaderReadOnlyOptimal else if l == k then TransferSrcOptimal else TransferDstOptimal);
    BarrierApplies(image, before, cmd, Transfer, Transfer, s[0].barrier, reading);
    assert Touches(image, s[1]) && Step(image, reading, s[1]) == Some(reading);
    var after := Settled(levels, k + 1);
    BarrierApplies(image, reading, cmd, Transfer, FragmentShader, s[2].barrier, after);
    assert s[1..] == [s[1], s[2]] && [s[1], s[2]][1..] == [s[2]] && [s[2]][1..] == [];
    assert Replay(image, after, []) == Some(after);
    assert Replay(image, reading, [s[2]]) == Some(after);
    assert Replay(image, reading, [s[1], s[2]]) == Some(after);
  }

  lemma {:induction false} LoopSettles(cmd: Handle, image: Handle, e: Extent2D, levels: nat, n: nat)
    requires n < levels
    ensures Replay(image, Uniform(levels, TransferDstOptimal), MipLoop(cmd, image, e, n)) == Some(Settled(levels, n))
  {
    if n == 0 {
      assert Uniform(levels, TransferDstOptimal) == Settled(levels, 0);
    } else {
      var start, prev, step := Uniform(levels, TransferDstOptimal), MipLoop(cmd, image, e, n - 1),
                               MipStep(cmd, image, n, LevelExtent(e, n - 1));
      LoopSettles(cmd, image, e, levels, n - 1);
      StepSettlesLevel(cmd, image, levels, n - 1, LevelExtent(e, n - 1));
      ReplayThrough(image, start, prev, Settled(levels, n - 1), step, Settled(levels, n));
      assert MipLoop(cmd, image, e, n) == prev + step;
    }
  }

  /** Starting with every level a transfer destination, every barrier and
      blit generateMipmaps records finds its levels in the layouts it
      names, and every level ends shader-readable. */
  lemma MipChainSettlesAll(cmd: Handle, image: Handle, e: Extent2D, levels: nat)
    requires levels >= 1
    ensures Replay(image, Uniform(levels, TransferDstOptimal), MipCalls(cmd, image, e, levels))
            == Some(Uniform(levels, ShaderReadOnlyOptimal))
  {
    var loop := MipLoop(cmd, image, e, levels - 1);
    var last := PipelineBarrier(cmd, Transfer, FragmentShader,
                                ImageBarrier(image, levels - 1, 1, TransferDstOptimal, ShaderReadOnlyOptimal,
                                             {TransferWrite}, {ShaderRead}));
    var start, done := Uniform(levels, TransferDstOptimal), Uniform(levels, ShaderReadOnlyOptimal);
    LoopSettles(cmd, image, e, levels, levels - 1);
    BarrierApplies(image, Settled(levels, levels - 1), cmd, Transfer, FragmentShader, last.barrier, done);
    ReplayOne(image, Settled(levels, levels - 1), last);
    ReplayThrough(image, start, loop, Settled(levels, levels - 1), [last], done);
    assert MipCalls(cmd, image, e, levels) == loop + [last];
  }

  lemma {:induction false} LoopReadOnlyOnce(cmd: Handle, image: Handle, e: Extent2D, n: nat, level: nat)
    ensures ReadOnlyBarriers(image, level, MipLoop(cmd, image, e, n)) == if level < n then 1 else 0
  {
    if n > 0 {
      var prev, s := MipLoop(cmd, image, e, n - 1), MipStep(cmd, image, n, LevelExtent(e, n - 1));
      LoopReadOnlyOnce(cmd, image, e, n - 1, level);
      StepReadOnlyOnce(cmd, image, n, LevelExtent(e, n - 1), level);
      CountThrough(image, level, prev, s, n);
      assert MipLoop(cmd, image, e, n) == prev + s;
    }
  }

  lemma CountThrough(image: Handle, level: nat, prev: seq<Call>, s: seq<Call>, n: nat)
    requires n >= 1
    requires ReadOnlyBarriers(image, level, prev) == (if level < n - 1 then 1 else 0)
    requires ReadOnlyBarriers(image, level, s) == (if level == n - 1 then 1 else 0)
    ensures ReadOnlyBarriers(image, level, prev + s) == if level < n then 1 else 0
  {
    ReadOnlyBarriersAppend(image, level, prev, s);
  }

  /** Iteration i makes level i - 1, and only it, shader-readable. */
  lemma StepReadOnlyOnce(cmd: Handle, image: Handle, i: nat, src: Extent2D, level: nat)
    requires i >= 1
    ensures ReadOnlyBarriers(image, level, MipStep(cmd, image, i, src)) == if level == i - 1 then 1 else 0
  {
    var s := MipStep(cmd, image, i, src);
    assert s[1..] == [s[1], s[2]] && [s[1], s[2]][1..] == [s[2]] && [s[2]][1..] == [];
    assert ReadOnlyBarriers(image, level, [s[2]]) == if level == i - 1 then 1 else 0;
  }

  /** Every level is made shader-readable by exactly one barrier, and no
      barrier names a level beyond the chain. */
  lemma EachLevelReadOnlyOnce(cmd: Handle, image: Handle, e: Extent2D, levels: nat, level: nat)
    requires levels >= 1
    ensures ReadOnlyBarriers(image, level, MipCalls(cmd, image, e, levels)) == if level < levels then 1 else 0
  {
    var last := PipelineBarrier(cmd, Transfer, FragmentShader,
                                ImageBarrier(image, levels - 1, 1, TransferDstOptimal, ShaderReadOnlyOptimal,
                                             {TransferWrite}, {ShaderRead}));
    LoopReadOnlyOnce(cmd, image, e, levels - 1, level);
    ReadOnlyBarriersAppend(image, level, MipLoop(cmd, image, e, levels - 1), [last]);
    assert [last][1..] == [];
  }

  lemma {:induction false} MipLoopLength(cmd: Handle, image: Handle, e: Extent2D, n: nat)
    ensures |MipLoop(cmd, image, e, n)| == 3 * n
  {
    if n > 0 {
      MipLoopLength(cmd, image, e, n - 1);
    }
  }

  /** The blit of iteration i reads level i - 1 at its size and writes
      level i at its size. */
  lemma {:induction false} LoopBlits(cmd: Handle, image: Handle, e: Extent2D, n: nat, i: nat)
    requires e.width >= 1 && e.height >= 1 && 1 <= i <= n
    ensures |MipLoop(cmd, image, e, n)| == 3 * n
    ensures MipLoop(cmd, image, e, n)[3 * i - 2]
            == BlitImage(cmd, image, i - 1, TransferSrcOptimal, LevelExtent(e, i - 1), i, TransferDstOptimal, LevelExtent(e, i))
  {
    MipLoopLength(cmd, image, e, n);
    MipLoopLength(cmd, image, e, n - 1);
    if i < n {
      LoopBlits(cmd, image, e, n - 1, i);
    } else {
      BlitsFollowLevels(e, n - 1);
    }
  }
}
