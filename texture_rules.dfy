// What the two texture classes share: the level count and byte size taken
// from the decoded image, the two-entry table of layout transitions, the
// upload through a staging buffer, mip generation, and the sampler.  The
// decoded image (stb_image's width, height and RGBA pixels) is given by
// the caller; reading and decoding the file is I/O.  Handles are taken in
// this order from `start`: staging buffer, its memory, image, the three
// one-shot command buffers, sampler.
module TextureRules {
  import opened Wrappers
  import opened Vk
  import opened Gpu
  import opened Recordings
  import opened Commands
  import opened BufferCommon
  import opened ImageLayouts
  import opened MipChains

  /** A decoded texture: texWidth x texHeight texels of four bytes. */
  datatype TextureContent = TextureContent(width: nat, height: nat, pixels: seq<bv8>)

  /** What the decoder hands over: a non-empty image with all its bytes,
      whose byte size fits the signed 32-bit imageSize it is stored in. */
  predicate Loaded(tex: TextureContent)
  {
    tex.width >= 1 && tex.height >= 1 && |tex.pixels| == tex.width * tex.height * 4
    && tex.width * tex.height * 4 < 0x8000_0000
  }

  function TexExtent(tex: TextureContent): Extent2D
  {
    Extent2D(tex.width, tex.height)
  }

  const UNSUPPORTED_TRANSITION: Error := Fatal("unsupported layout transition!")
  const NO_LINEAR_BLIT: Error := Fatal("texture image format does not support linear blitting!")

  /** The stages and accesses a transition waits on and makes available. */
  datatype Masks = Masks(srcStage: Stage, dstStage: Stage, srcAccess: set<Access>, dstAccess: set<Access>)

  /** transitionImageLayout's table: Undefined to TransferDst waits on
      nothing and makes transfer writes wait; TransferDst to ShaderReadOnly
      makes fragment-shader reads wait on the transfer writes; any other
      pair raises. */
  function TransitionMasks(oldLayout: ImageLayout, newLayout: ImageLayout): (r: Result<Masks>)
    ensures r.Ok? ==> oldLayout != newLayout && r.value.dstAccess != {}
    ensures r.Err? ==> r.error == UNSUPPORTED_TRANSITION
  {
    if oldLayout == ImageLayout.Undefined && newLayout == TransferDstOptimal then
      Ok(Masks(TopOfPipe, Transfer, {}, {TransferWrite}))
    else if oldLayout == TransferDstOptimal && newLayout == ShaderReadOnlyOptimal then
      Ok(Masks(Transfer, FragmentShader, {TransferWrite}, {ShaderRead}))
    else
      Err(UNSUPPORTED_TRANSITION)
  }

  /** Exactly the two transitions used on the way to a sampled texture are
      accepted, and each waits for the writes of the stage it follows: the
      destination access of the first is the source access of the second. */
  lemma TransitionTable(oldLayout: ImageLayout, newLayout: ImageLayout)
    ensures TransitionMasks(oldLayout, newLayout).Ok? <==>
      (oldLayout == ImageLayout.Undefined && newLayout == TransferDstOptimal)
      || (oldLayout == TransferDstOptimal && newLayout == ShaderReadOnlyOptimal)
    ensures TransitionMasks(oldLayout, newLayout).Err? ==> TransitionMasks(oldLayout, newLayout).error == UNSUPPORTED_TRANSITION
    ensures TransitionMasks(ImageLayout.Undefined, TransferDstOptimal).value.dstAccess
            == TransitionMasks(TransferDstOptimal, ShaderReadOnlyOptimal).value.srcAccess
    ensures TransitionMasks(ImageLayout.Undefined, TransferDstOptimal).value.srcAccess == {}
  {
  }

  /** The barrier transitionImageLayout records: every level of the image's
      one layer. */
  function TransitionRecording(image: Handle, oldLayout: ImageLayout, newLayout: ImageLayout, levels: nat, m: Masks): Recording
  {
    Barrier(m.srcStage, m.dstStage, ImageBarrier(image, 0, levels, oldLayout, newLayout, m.srcAccess, m.dstAccess))
  }

  /** transitionImageLayout: an unsupported pair raises before any command
      buffer is made; a supported one records its barrier in a one-shot
      command buffer. */
  method TransitionImageLayout(dev: Device, image: Handle, oldLayout: ImageLayout, newLayout: ImageLayout,
                               levels: nat, idleAnswers: seq<VkResult>)
    returns (r: Outcome)
    requires Settles(idleAnswers)
    modifies dev
    ensures TransitionMasks(oldLayout, newLayout).Err? ==>
      r == Fail(UNSUPPORTED_TRANSITION) && dev.calls == old(dev.calls) && dev.nextHandle == old(dev.nextHandle)
    ensures TransitionMasks(oldLayout, newLayout).Ok? ==>
      r == Done && dev.nextHandle == old(dev.nextHandle) + 1
      && dev.calls == old(dev.calls)
         + DisposableCalls(old(dev.nextHandle),
                           TransitionRecording(image, oldLayout, newLayout, levels, TransitionMasks(oldLayout, newLayout).value),
                           FirstSettled(idleAnswers) + 1)
  {
    var masks := TransitionMasks(oldLayout, newLayout);
    if masks.Err? {
      return Fail(masks.error);
    }
    var cmd := DisposableCommands(dev, TransitionRecording(image, oldLayout, newLayout, levels, masks.value), idleAnswers);
    r := Done;
  }

  predicate SupportsLinearBlit(props: FormatProperties)
  {
    SampledImageFilterLinear in props.optimalTilingFeatures
  }

  /** generateMipmaps: a format whose optimal tiling cannot be filtered
      linearly raises before any command buffer is made; otherwise the
      whole chain is recorded in one one-shot command buffer. */
  method GenerateMipmaps(dev: Device, image: Handle, extent: Extent2D, levels: nat, props: FormatProperties,
                         idleAnswers: seq<VkResult>)
    returns (r: Outcome)
    requires Settles(idleAnswers)
    modifies dev
    ensures !SupportsLinearBlit(props) ==>
      r == Fail(NO_LINEAR_BLIT) && dev.calls == old(dev.calls) && dev.nextHandle == old(dev.nextHandle)
    ensures SupportsLinearBlit(props) ==>
      r == Done && dev.nextHandle == old(dev.nextHandle) + 1
      && dev.calls == old(dev.calls) + DisposableCalls(old(dev.nextHandle), MipChain(image, extent, levels), FirstSettled(idleAnswers) + 1)
  {
    if !SupportsLinearBlit(props) {
      return Fail(NO_LINEAR_BLIT);
    }
    var cmd := DisposableCommands(dev, MipChain(image, extent, levels), idleAnswers);
    r := Done;
  }

  /** The image creation, its transition to a transfer destination and the
      copy of the staging buffer into level 0. */
  function PrepareCalls(image: Handle, buffer: Handle, extent: Extent2D, format: Format, levels: nat,
                        transitionIdle: nat, copyIdle: nat): seq<Call>
  {
    [CreateTextureImage(image, extent, format)]
      + DisposableCalls(image + 1, TransitionRecording(image, ImageLayout.Undefined, TransferDstOptimal, levels,
                                                       Masks(TopOfPipe, Transfer, {}, {TransferWrite})), transitionIdle)
      + DisposableCalls(image + 2, CopyToImage(buffer, image, extent), copyIdle)
  }

  /** imageR.setWH and init (one image object), transitionImageLayout from
      Undefined to TransferDst over every level, and StagingBuffer::copyTo. */
  method PrepareImage(dev: Device, buffer: Handle, extent: Extent2D, format: Format, levels: nat,
                      transitionIdle: seq<VkResult>, copyIdle: seq<VkResult>)
    returns (image: Handle)
    requires Settles(transitionIdle) && Settles(copyIdle)
    modifies dev
    ensures image == old(dev.nextHandle) && dev.nextHandle == image + 3
    ensures dev.calls == old(dev.calls)
      + PrepareCalls(image, buffer, extent, format, levels, FirstSettled(transitionIdle) + 1, FirstSettled(copyIdle) + 1)
  {
    ghost var before := dev.calls;
    image := dev.NewHandle();
    dev.calls := dev.calls + [CreateTextureImage(image, extent, format)];
    assert TransitionMasks(ImageLayout.Undefined, TransferDstOptimal) == Ok(Masks(TopOfPipe, Transfer, {}, {TransferWrite}));
    var moved := TransitionImageLayout(dev, image, ImageLayout.Undefined, TransferDstOptimal, levels, transitionIdle);
    ghost var toDst := DisposableCalls(image + 1, TransitionRecording(image, ImageLayout.Undefined, TransferDstOptimal, levels,
                                                                      Masks(TopOfPipe, Transfer, {}, {TransferWrite})),
                                       FirstSettled(transitionIdle) + 1);
    var cmd := DisposableCommands(dev, CopyToImage(buffer, image, extent), copyIdle);
    ghost var copy := DisposableCalls(image + 2, CopyToImage(buffer, image, extent), FirstSettled(copyIdle) + 1);
    AppendAssoc(before, [CreateTextureImage(image, extent, format)], toDst);
    AppendAssoc(before, [CreateTextureImage(image, extent, format)] + toDst, copy);
  }

  /** generateMipmaps, then (when it returns) the sampler, with maxLod the
      level count; the staging buffer is released as init's scope ends,
      whether by return or by the exception. */
  function FinishCalls(start: Handle, extent: Extent2D, levels: nat, linear: bool, mipIdle: nat): seq<Call>
  {
    if linear then
      DisposableCalls(start + 5, MipChain(start + 2, extent, levels), mipIdle)
        + [CreateSampler(start + 6, levels)] + BufferDestroys(start, start + 1)
    else
      BufferDestroys(start, start + 1)
  }

  /** Texture::init and TextureInterface::read for each answer of the
      staging buffer's memory-type search and of the linear-filter check. */
  function UploadTrace(start: Handle, tex: TextureContent, format: Format, staging: Result<nat>, linear: bool,
                       transitionIdle: nat, copyIdle: nat, mipIdle: nat): seq<Call>
  {
    if staging.Err? then
      [CreateBuffer(start, |tex.pixels|, BUFFER_USAGE_TRANSFER_SRC)]
    else
      StagingCalls(start, start + 1, tex.pixels, staging.value)
        + PrepareCalls(start + 2, start, TexExtent(tex), format, MipLevels(TexExtent(tex)), transitionIdle, copyIdle)
        + FinishCalls(start, TexExtent(tex), MipLevels(TexExtent(tex)), linear, mipIdle)
  }

  /** What the upload raises, if anything: the staging buffer comes first. */
  function UploadOutcome(staging: Result<nat>, linear: bool): Outcome
  {
    if staging.Err? then Fail(staging.error)
    else if !linear then Fail(NO_LINEAR_BLIT)
    else Done
  }

  /** The sampler: linear filtering, repeat addressing, linear mip blending
      up to `maxLod`. */
  method NewSampler(dev: Device, maxLod: nat) returns (sampler: Handle)
    modifies dev
    ensures sampler == old(dev.nextHandle) && dev.nextHandle == sampler + 1
    ensures dev.calls == old(dev.calls) + [CreateSampler(sampler, maxLod)]
  {
    sampler := dev.NewHandle();
    dev.calls := dev.calls + [CreateSampler(sampler, maxLod)];
  }

  /** How many handles the upload takes. */
  function UploadHandles(staging: Result<nat>, linear: bool): nat
  {
    if staging.Err? then 1 else if linear then 7 else 5
  }

  /** The body both revisions share: the staging buffer filled with the
      pixels, the image prepared, the mip chain generated, the sampler
      created, the staging buffer released.  `image` is the handle stored
      in imageR once it exists, `sampler` the one stored once it is made. */
  method Upload(dev: Device, tex: TextureContent, format: Format, stagingQuery: MemoryQuery, props: FormatProperties,
                transitionIdle: seq<VkResult>, copyIdle: seq<VkResult>, mipIdle: seq<VkResult>)
    returns (r: Outcome, image: Option<Handle>, sampler: Option<Handle>)
    requires QueryWellFormed(stagingQuery)
    requires Settles(transitionIdle) && Settles(copyIdle) && Settles(mipIdle)
    modifies dev
    ensures r == UploadOutcome(MemoryTypeFor(stagingQuery, HOST_VISIBLE_COHERENT), SupportsLinearBlit(props))
    ensures dev.nextHandle == old(dev.nextHandle) + UploadHandles(MemoryTypeFor(stagingQuery, HOST_VISIBLE_COHERENT), SupportsLinearBlit(props))
    ensures dev.calls == old(dev.calls)
      + UploadTrace(old(dev.nextHandle), tex, format, MemoryTypeFor(stagingQuery, HOST_VISIBLE_COHERENT), SupportsLinearBlit(props),
                    FirstSettled(transitionIdle) + 1, FirstSettled(copyIdle) + 1, FirstSettled(mipIdle) + 1)
    ensures image.Some? <==> MemoryTypeFor(stagingQuery, HOST_VISIBLE_COHERENT).Ok?
    ensures image.Some? ==> image.value == old(dev.nextHandle) + 2
    ensures sampler.Some? <==> r.Done?
    ensures sampler.Some? ==> sampler.value == old(dev.nextHandle) + 6
  {
    var staging := CreateStaging(dev, tex.pixels, stagingQuery);
    if staging.Err? {
      return Fail(staging.error), None, None;
    }
    r, sampler := UploadStaged(dev, old(dev.calls), staging.value.0, MemoryTypeFor(stagingQuery, HOST_VISIBLE_COHERENT).value,
                               tex, format, props, transitionIdle, copyIdle, mipIdle);
    image := Some(staging.value.0 + 2);
  }

  /** Upload once the staging buffer exists, from handle `start`, its
      calls spelled as the whole upload's. */
  method UploadStaged(dev: Device, ghost base: seq<Call>, start: Handle, ghost stagingType: nat, tex: TextureContent,
                      format: Format, props: FormatProperties,
                      transitionIdle: seq<VkResult>, copyIdle: seq<VkResult>, mipIdle: seq<VkResult>)
    returns (r: Outcome, sampler: Option<Handle>)
    requires Settles(transitionIdle) && Settles(copyIdle) && Settles(mipIdle)
    requires dev.nextHandle == start + 2 && dev.calls == base + StagingCalls(start, start + 1, tex.pixels, stagingType)
    modifies dev
    ensures r == UploadOutcome(Ok(stagingType), SupportsLinearBlit(props))
    ensures dev.nextHandle == start + UploadHandles(Ok(stagingType), SupportsLinearBlit(props))
    ensures dev.calls == base
      + UploadTrace(start, tex, format, Ok(stagingType), SupportsLinearBlit(props),
                    FirstSettled(transitionIdle) + 1, FirstSettled(copyIdle) + 1, FirstSettled(mipIdle) + 1)
    ensures sampler.Some? <==> r.Done?
    ensures sampler.Some? ==> sampler.value == start + 6
  {
    r, sampler := UploadFrom(dev, (start, start + 1), tex, format, props, transitionIdle, copyIdle, mipIdle);
    UploadTraceRegroup(base, start, tex, format, stagingType, SupportsLinearBlit(props),
                       FirstSettled(transitionIdle) + 1, FirstSettled(copyIdle) + 1, FirstSettled(mipIdle) + 1);
  }

  /** Once the staging buffer exists, the upload is its filling, the
      image's preparation and the rest. */
  lemma UploadTraceStaged(start: Handle, tex: TextureContent, format: Format, stagingType: nat, linear: bool,
                          transitionIdle: nat, copyIdle: nat, mipIdle: nat)
    ensures UploadTrace(start, tex, format, Ok(stagingType), linear, transitionIdle, copyIdle, mipIdle)
      == StagingCalls(start, start + 1, tex.pixels, stagingType)
         + PrepareCalls(start + 2, start, TexExtent(tex), format, MipLevels(TexExtent(tex)), transitionIdle, copyIdle)
         + FinishCalls(start, TexExtent(tex), MipLevels(TexExtent(tex)), linear, mipIdle)
  {
  }

  lemma Regroup(x: seq<Call>, a: seq<Call>, b: seq<Call>, c: seq<Call>)
    ensures x + a + (b + c) == x + (a + b + c)
  {
  }

  /** Upload once the staging buffer (`staging.0`, `staging.1`) exists. */
  method UploadFrom(dev: Device, staging: (Handle, Handle), tex: TextureContent, format: Format, props: FormatProperties,
                    transitionIdle: seq<VkResult>, copyIdle: seq<VkResult>, mipIdle: seq<VkResult>)
    returns (r: Outcome, sampler: Option<Handle>)
    requires Settles(transitionIdle) && Settles(copyIdle) && Settles(mipIdle)
    requires staging.1 == staging.0 + 1 && dev.nextHandle == staging.0 + 2
    modifies dev
    ensures r == if SupportsLinearBlit(props) then Done else Fail(NO_LINEAR_BLIT)
    ensures dev.nextHandle == old(dev.nextHandle) + if SupportsLinearBlit(props) then 5 else 3
    ensures dev.calls == old(dev.calls)
      + (PrepareCalls(staging.0 + 2, staging.0, TexExtent(tex), format, MipLevels(TexExtent(tex)),
                      FirstSettled(transitionIdle) + 1, FirstSettled(copyIdle) + 1)
         + FinishCalls(staging.0, TexExtent(tex), MipLevels(TexExtent(tex)), SupportsLinearBlit(props), FirstSettled(mipIdle) + 1))
    ensures sampler.Some? <==> SupportsLinearBlit(props)
    ensures sampler.Some? ==> sampler.value == staging.0 + 6
  {
    ghost var before := dev.calls;
    var extent := TexExtent(tex);
    var levels := MipLevels(extent);
    var image := PrepareImage(dev, staging.0, extent, format, levels, transitionIdle, copyIdle);
    ghost var prepared := dev.calls;
    r, sampler := FinishUpload(dev, staging, image, extent, levels, props, mipIdle);
    AppendAssoc(before, prepared[|before|..], dev.calls[|prepared|..]);
  }

  /** generateMipmaps, the sampler, and the release of the staging buffer
      as init's scope ends, by return or by exception. */
  method FinishUpload(dev: Device, staging: (Handle, Handle), image: Handle, extent: Extent2D, levels: nat,
                      props: FormatProperties, mipIdle: seq<VkResult>)
    returns (r: Outcome, sampler: Option<Handle>)
    requires Settles(mipIdle)
    requires image == staging.0 + 2 && staging.1 == staging.0 + 1 && dev.nextHandle == staging.0 + 5
    modifies dev
    ensures r == if SupportsLinearBlit(props) then Done else Fail(NO_LINEAR_BLIT)
    ensures dev.nextHandle == old(dev.nextHandle) + if SupportsLinearBlit(props) then 2 else 0
    ensures dev.calls == old(dev.calls) + FinishCalls(staging.0, extent, levels, SupportsLinearBlit(props), FirstSettled(mipIdle) + 1)
    ensures sampler.Some? <==> SupportsLinearBlit(props)
    ensures sampler.Some? ==> sampler.value == staging.0 + 6
  {
    ghost var before := dev.calls;
    ghost var release := BufferDestroys(staging.0, staging.1);
    var mips := GenerateMipmaps(dev, image, extent, levels, props, mipIdle);
    if mips.Fail? {
      dev.calls := dev.calls + BufferDestroys(staging.0, staging.1);
      assert FinishCalls(staging.0, extent, levels, false, FirstSettled(mipIdle) + 1) == release;
      return mips, None;
    }
    ghost var chain := DisposableCalls(staging.0 + 5, MipChain(image, extent, levels), FirstSettled(mipIdle) + 1);
    var s := NewSampler(dev, levels);
    dev.calls := dev.calls + BufferDestroys(staging.0, staging.1);
    AppendAssoc(before + chain, [CreateSampler(s, levels)], release);
    AppendAssoc(before, chain, [CreateSampler(s, levels)] + release);
    r, sampler := Done, Some(s);
  }

  /** imageR.destroy(): the texture image goes (its view and memory are
      part of the one image object here). */
  function ImageReleases(image: Handle): seq<Call>
  {
    [DestroyObject(ImageObject, image)]
  }

  /** Upload's trace, regrouped as UploadTrace. */
  lemma UploadTraceRegroup(x: seq<Call>, start: Handle, tex: TextureContent, format: Format, stagingType: nat,
                           linear: bool, transitionIdle: nat, copyIdle: nat, mipIdle: nat)
    ensures x + StagingCalls(start, start + 1, tex.pixels, stagingType)
              + (PrepareCalls(start + 2, start, TexExtent(tex), format, MipLevels(TexExtent(tex)), transitionIdle, copyIdle)
                 + FinishCalls(start, TexExtent(tex), MipLevels(TexExtent(tex)), linear, mipIdle))
            == x + UploadTrace(start, tex, format, Ok(stagingType), linear, transitionIdle, copyIdle, mipIdle)
  {
    UploadTraceStaged(start, tex, format, stagingType, linear, transitionIdle, copyIdle, mipIdle);
  }

  /** A one-shot command buffer changes the image's layouts exactly as its
      recording does. */
  lemma ReplayDisposable(image: Handle, layouts: seq<ImageLayout>, cmd: Handle, rec: Recording, idle: nat,
                         after: seq<ImageLayout>)
    requires Replay(image, layouts, Recorded(cmd, rec)) == Some(after)
    ensures Replay(image, layouts, DisposableCalls(cmd, rec, idle)) == Some(after)
  {
    var pre := [AllocateCommandBuffer(cmd), BeginCommandBuffer(cmd, true)];
    var post := [EndCommandBuffer(cmd), Submit([cmd], [], [], NULL_HANDLE)] + Repeat(QueueWaitIdle, idle) + [FreeCommandBuffer(cmd)];
    assert DisposableCalls(cmd, rec, idle) == pre + (Recorded(cmd, rec) + post);
    forall i | 0 <= i < |post|
      ensures !Touches(image, post[i])
    {
      if 2 <= i < 2 + idle {
        assert post[i] == Repeat(QueueWaitIdle, idle)[i - 2];
      }
    }
    ReplayUntouched(image, layouts, pre);
    ReplayUntouched(image, after, post);
    ReplayThrough(image, layouts, Recorded(cmd, rec), after, post, after);
    ReplayThrough(image, layouts, pre, layouts, Recorded(cmd, rec) + post, after);
  }

  /** Every level of the new image goes Undefined, TransferDst, and, after
      its blits, ShaderReadOnly, and no barrier, copy or blit finds a level
      in a layout other than the one it names. */
  lemma UploadLeavesLevelsReadable(start: Handle, tex: TextureContent, format: Format, stagingType: nat,
                                   transitionIdle: nat, copyIdle: nat, mipIdle: nat)
    requires Loaded(tex)
    ensures var levels := MipLevels(TexExtent(tex));
      Replay(start + 2, Uniform(levels, ImageLayout.Undefined),
             UploadTrace(start, tex, format, Ok(stagingType), true, transitionIdle, copyIdle, mipIdle))
      == Some(Uniform(levels, ShaderReadOnlyOptimal))
  {
    var image, e := start + 2, TexExtent(tex);
    var levels := MipLevels(e);
    var staging := StagingCalls(start, start + 1, tex.pixels, stagingType);
    var prepare := PrepareCalls(image, start, e, format, levels, transitionIdle, copyIdle);
    var finish := FinishCalls(start, e, levels, true, mipIdle);
    ReplayUntouched(image, Uniform(levels, ImageLayout.Undefined), staging);
    PrepareLeavesTransferDst(image, start, e, format, levels, transitionIdle, copyIdle);
    FinishLeavesReadOnly(start, e, levels, mipIdle);
    ReplayThrough(image, Uniform(levels, ImageLayout.Undefined), staging, Uniform(levels, ImageLayout.Undefined),
                  prepare, Uniform(levels, TransferDstOptimal));
    ReplayThrough(image, Uniform(levels, ImageLayout.Undefined), staging + prepare, Uniform(levels, TransferDstOptimal),
                  finish, Uniform(levels, ShaderReadOnlyOptimal));
  }

  /** Creating the image, moving it to TransferDst and copying into level
      0 leaves every level a transfer destination. */
  lemma PrepareLeavesTransferDst(image: Handle, buffer: Handle, e: Extent2D, format: Format, levels: nat,
                                 transitionIdle: nat, copyIdle: nat)
    requires levels >= 1
    ensures Replay(image, Uniform(levels, ImageLayout.Undefined), PrepareCalls(image, buffer, e, format, levels, transitionIdle, copyIdle))
            == Some(Uniform(levels, TransferDstOptimal))
  {
    var undef, dst := Uniform(levels, ImageLayout.Undefined), Uniform(levels, TransferDstOptimal);
    var masks := Masks(TopOfPipe, Transfer, {}, {TransferWrite});
    var toDst := TransitionRecording(image, ImageLayout.Undefined, TransferDstOptimal, levels, masks);
    var create := [CreateTextureImage(image, e, format)];
    var d1 := DisposableCalls(image + 1, toDst, transitionIdle);
    var d2 := DisposableCalls(image + 2, CopyToImage(buffer, image, e), copyIdle);
    ReplayUntouched(image, undef, create);
    WholeImageBarrier(image + 1, masks.srcStage, masks.dstStage, toDst.barrier, undef);
    ReplayDisposable(image, undef, image + 1, toDst, transitionIdle, dst);
    ReplayThrough(image, undef, create, undef, d1, dst);
    var copy := CopyBufferToImage(image + 2, buffer, image, TransferDstOptimal, e);
    ReplayOne(image, dst, copy);
    ReplayDisposable(image, dst, image + 2, CopyToImage(buffer, image, e), copyIdle, dst);
    ReplayThrough(image, undef, create + d1, dst, d2, dst);
  }

  /** The mip chain leaves every level readable by shaders, and the
      sampler and the staging buffer's release leave them so. */
  lemma FinishLeavesReadOnly(start: Handle, e: Extent2D, levels: nat, mipIdle: nat)
    requires levels >= 1
    ensures Replay(start + 2, Uniform(levels, TransferDstOptimal), FinishCalls(start, e, levels, true, mipIdle))
            == Some(Uniform(levels, ShaderReadOnlyOptimal))
  {
    var image := start + 2;
    var dst, ro := Uniform(levels, TransferDstOptimal), Uniform(levels, ShaderReadOnlyOptimal);
    var d3 := DisposableCalls(start + 5, MipChain(image, e, levels), mipIdle);
    var tail := [CreateSampler(start + 6, levels)] + BufferDestroys(start, start + 1);
    MipChainSettlesAll(start + 5, image, e, levels);
    ReplayDisposable(image, dst, start + 5, MipChain(image, e, levels), mipIdle, ro);
    ReplayUntouched(image, ro, tail);
    ReplayThrough(image, dst, d3, ro, tail, ro);
    AppendAssoc(d3, [CreateSampler(start + 6, levels)], BufferDestroys(start, start + 1));
  }

  /** The upload in order: the staging buffer holds the image's
      width x height x 4 bytes; the full chain is generated before the
      sampler, whose maxLod is the level count, is created; the staging
      buffer is released last. */
  lemma UploadOrder(start: Handle, tex: TextureContent, format: Format, stagingType: nat,
                    transitionIdle: nat, copyIdle: nat, mipIdle: nat)
    requires Loaded(tex)
    ensures var t := UploadTrace(start, tex, format, Ok(stagingType), true, transitionIdle, copyIdle, mipIdle);
      |t| >= 3
      && t[0] == CreateBuffer(start, tex.width * tex.height * 4, BUFFER_USAGE_TRANSFER_SRC)
      && t[|t| - 3] == CreateSampler(start + 6, MipLevels(TexExtent(tex)))
      && t[|t| - 2..] == BufferDestroys(start, start + 1)
  {
  }

  /** When linear blitting is unsupported, the staging buffer is still
      released, but no sampler is made and the image is not destroyed: it
      is left behind. */
  lemma NoLinearBlitLeavesImage(start: Handle, tex: TextureContent, format: Format, stagingType: nat,
                                transitionIdle: nat, copyIdle: nat, mipIdle: nat)
    ensures var t := UploadTrace(start, tex, format, Ok(stagingType), false, transitionIdle, copyIdle, mipIdle);
      t[|t| - 2..] == BufferDestroys(start, start + 1)
      && (forall c :: c in t ==> !c.CreateSampler? && c != DestroyObject(ImageObject, start + 2))
  {
    var t := UploadTrace(start, tex, format, Ok(stagingType), false, transitionIdle, copyIdle, mipIdle);
    var e := TexExtent(tex);
    var levels := MipLevels(e);
    var toDst := TransitionRecording(start + 2, ImageLayout.Undefined, TransferDstOptimal, levels,
                                     Masks(TopOfPipe, Transfer, {}, {TransferWrite}));
    ForeignDisposable(start + 3, toDst, transitionIdle, start + 2);
    ForeignDisposable(start + 4, CopyToImage(start, start + 2, e), copyIdle, start + 2);
  }

  /** A one-shot command buffer with a barrier or copy makes no sampler and
      destroys nothing. */
  lemma ForeignDisposable(cmd: Handle, rec: Recording, idle: nat, image: Handle)
    requires rec.Barrier? || rec.CopyToImage?
    ensures forall c :: c in DisposableCalls(cmd, rec, idle) ==> !c.CreateSampler? && !c.DestroyObject?
  {
    var d := DisposableCalls(cmd, rec, idle);
    forall c | c in d
      ensures !c.CreateSampler? && !c.DestroyObject?
    {
      var i :| 0 <= i < |d| && d[i] == c;
      if 5 <= i < 5 + idle {
        assert d[i] == Repeat(QueueWaitIdle, idle)[i - 5];
      }
    }
  }
}
