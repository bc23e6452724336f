// The layout each mip level of one image is in, as the commands recorded
// against that image leave it, and the layouts each command requires
// (Vulkan 1.x specification, "Image Layouts" and the valid-usage rules of
// vkCmdPipelineBarrier, vkCmdCopyBufferToImage and vkCmdBlitImage).  A
// sequence of calls replays to the final layouts, or to None at the first
// command that finds a level in the wrong layout.
module ImageLayouts {
  import opened Wrappers
  import opened Vk
  import opened Gpu

  /** Every one of `levels` mip levels in the same layout. */
  function Uniform(levels: nat, layout: ImageLayout): seq<ImageLayout>
  {
    seq(levels, _ => layout)
  }

  predicate Covers(b: ImageBarrier, level: nat)
  {
    b.baseLevel <= level < b.baseLevel + b.levelCount
  }

  /** A barrier's old layout must be the level's current one, except that
      Undefined may be given for any level: its contents are discarded. */
  predicate LayoutMatches(current: ImageLayout, expected: ImageLayout)
  {
    expected == ImageLayout.Undefined || current == expected
  }

  /** The calls that read or change the layouts of `image`. */
  predicate Touches(image: Handle, c: Call)
  {
    (c.PipelineBarrier? && c.barrier.image == image)
    || (c.CopyBufferToImage? && c.image == image)
    || (c.BlitImage? && c.image == image)
  }

  /** One call's effect on the levels of `image`. */
  function Step(image: Handle, layouts: seq<ImageLayout>, c: Call): Option<seq<ImageLayout>>
  {
    if !Touches(image, c) then Some(layouts)
    else if c.PipelineBarrier? then BarrierStep(layouts, c.barrier)
    else if c.CopyBufferToImage? then CopyStep(layouts, c.imageLayout)
    else BlitStep(layouts, c.srcLevel, c.srcLayout, c.dstLevel, c.dstLayout)
  }

  /** A barrier needs each of its levels in its old layout, and moves them
      to its new one. */
  function BarrierStep(layouts: seq<ImageLayout>, b: ImageBarrier): Option<seq<ImageLayout>>
  {
    if b.baseLevel + b.levelCount <= |layouts|
       && forall l :: b.baseLevel <= l < b.baseLevel + b.levelCount ==> LayoutMatches(layouts[l], b.oldLayout)
    then
      Some(seq(|layouts|, l requires 0 <= l < |layouts| => if Covers(b, l) then b.newLayout else layouts[l]))
    else
      None
  }

  /** A copy into level 0 needs it to be a transfer destination. */
  function CopyStep(layouts: seq<ImageLayout>, imageLayout: ImageLayout): Option<seq<ImageLayout>>
  {
    if 0 < |layouts| && imageLayout == TransferDstOptimal && layouts[0] == imageLayout then Some(layouts) else None
  }

  /** A blit within one image reads a transfer-source level and writes a
      different, transfer-destination level. */
  function BlitStep(layouts: seq<ImageLayout>, srcLevel: nat, srcLayout: ImageLayout,
                    dstLevel: nat, dstLayout: ImageLayout): Option<seq<ImageLayout>>
  {
    if srcLevel < |layouts| && dstLevel < |layouts| && srcLevel != dstLevel
       && srcLayout == TransferSrcOptimal && layouts[srcLevel] == srcLayout
       && dstLayout == TransferDstOptimal && layouts[dstLevel] == dstLayout
    then Some(layouts)
    else None
  }

  /** The layouts after the calls, in order, or None if one of them is
      invalid for the layouts it finds. */
  function Replay(image: Handle, layouts: seq<ImageLayout>, calls: seq<Call>): Option<seq<ImageLayout>>
    decreases |calls|
  {
    if calls == [] then Some(layouts)
    else match Step(image, layouts, calls[0])
      case None => None
      case Some(next) => Replay(image, next, calls[1..])
  }

  /** Replay continued from an earlier outcome. */
  function Then(image: Handle, o: Option<seq<ImageLayout>>, calls: seq<Call>): Option<seq<ImageLayout>>
  {
    match o
    case None => None
    case Some(layouts) => Replay(image, layouts, calls)
  }

  /** Replaying a concatenation replays the first part, then the second. */
  lemma {:induction false} ReplayAppend(image: Handle, layouts: seq<ImageLayout>, a: seq<Call>, b: seq<Call>)
    ensures Replay(image, layouts, a + b) == Then(image, Replay(image, layouts, a), b)
    decreases |a|
  {
    if a != [] {
      assert (a + b)[0] == a[0];
      assert (a + b)[1..] == a[1..] + b;
      match Step(image, layouts, a[0])
      case None =>
      case Some(next) => ReplayAppend(image, next, a[1..], b);
    } else {
      assert a + b == b;
    }
  }

  /** Two valid stretches of calls in a row form one valid stretch. */
  lemma ReplayThrough(image: Handle, s0: seq<ImageLayout>, a: seq<Call>, s1: seq<ImageLayout>, b: seq<Call>, s2: seq<ImageLayout>)
    requires Replay(image, s0, a) == Some(s1) && Replay(image, s1, b) == Some(s2)
    ensures Replay(image, s0, a + b) == Some(s2)
  {
    ReplayAppend(image, s0, a, b);
  }

  lemma ReplayOne(image: Handle, layouts: seq<ImageLayout>, c: Call)
    ensures Replay(image, layouts, [c]) == Step(image, layouts, c)
  {
    assert [c][1..] == [];
  }

  /** Calls that leave the image alone leave every level as it was. */
  lemma {:induction false} ReplayUntouched(image: Handle, layouts: seq<ImageLayout>, calls: seq<Call>)
    requires forall i :: 0 <= i < |calls| ==> !Touches(image, calls[i])
    ensures Replay(image, layouts, calls) == Some(layouts)
    decreases |calls|
  {
    if calls != [] {
      assert !Touches(image, calls[0]);
      forall i | 0 <= i < |calls[1..]|
        ensures !Touches(image, calls[1..][i])
      {
        assert calls[1..][i] == calls[i + 1];
      }
      ReplayUntouched(image, layouts, calls[1..]);
    }
  }

  /** A barrier on `image` whose levels are all in its old layout moves them,
      and only them, to its new layout. */
  lemma BarrierApplies(image: Handle, layouts: seq<ImageLayout>, cmd: Handle, srcStage: Stage, dstStage: Stage,
                       b: ImageBarrier, after: seq<ImageLayout>)
    requires b.image == image && b.baseLevel + b.levelCount <= |layouts|
    requires forall l :: b.baseLevel <= l < b.baseLevel + b.levelCount ==> LayoutMatches(layouts[l], b.oldLayout)
    requires |after| == |layouts|
    requires forall l :: 0 <= l < |layouts| ==> after[l] == if Covers(b, l) then b.newLayout else layouts[l]
    ensures Step(image, layouts, PipelineBarrier(cmd, srcStage, dstStage, b)) == Some(after)
  {
    var c := PipelineBarrier(cmd, srcStage, dstStage, b);
    assert Touches(image, c);
    assert after == seq(|layouts|, l requires 0 <= l < |layouts| => if Covers(b, l) then b.newLayout else layouts[l]);
  }

  /** A barrier over all `levels` from Undefined sets every level, whatever
      it held, to the new layout. */
  lemma WholeImageBarrier(cmd: Handle, srcStage: Stage, dstStage: Stage, b: ImageBarrier, layouts: seq<ImageLayout>)
    requires b.baseLevel == 0 && b.levelCount == |layouts| && b.oldLayout == ImageLayout.Undefined
    ensures Replay(b.image, layouts, [PipelineBarrier(cmd, srcStage, dstStage, b)]) == Some(Uniform(|layouts|, b.newLayout))
  {
    var c := PipelineBarrier(cmd, srcStage, dstStage, b);
    BarrierApplies(b.image, layouts, cmd, srcStage, dstStage, b, Uniform(|layouts|, b.newLayout));
    assert [c][1..] == [];
  }

  /** The number of barriers in `calls` that move `level` of `image` to
      ShaderReadOnlyOptimal. */
  function ReadOnlyBarriers(image: Handle, level: nat, calls: seq<Call>): nat
    decreases |calls|
  {
    if calls == [] then 0
    else (if MakesReadOnly(image, level, calls[0]) then 1 else 0) + ReadOnlyBarriers(image, level, calls[1..])
  }

  predicate MakesReadOnly(image: Handle, level: nat, c: Call)
  {
    c.PipelineBarrier? && c.barrier.image == image && Covers(c.barrier, level) && c.barrier.newLayout == ShaderReadOnlyOptimal
  }

  lemma {:induction false} ReadOnlyBarriersAppend(image: Handle, level: nat, a: seq<Call>, b: seq<Call>)
    ensures ReadOnlyBarriers(image, level, a + b) == ReadOnlyBarriers(image, level, a) + ReadOnlyBarriers(image, level, b)
    decreases |a|
  {
    if a != [] {
      assert (a + b)[0] == a[0];
      assert (a + b)[1..] == a[1..] + b;
      ReadOnlyBarriersAppend(image, level, a[1..], b);
    } else {
      assert a + b == b;
    }
  }
}
