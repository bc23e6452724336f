// VulkanGraphics of the newer revision: the frame-in-flight loop, the
// swapchain-recreation sequence and the per-swapchain objects it rebuilds.
// The device, the surface and the window are inputs: a Platform record for
// what the physical device reports, sequences of answers for the calls that
// are retried, and the GPU trace for what the engine asks of the device.
module CoreGraphics {
  import opened Wrappers
  import opened Vk
  import opened Gpu
  import opened GraphicsDetail
  import opened SwapchainRules
  import opened CoreSwapchain
  import opened Statics
  import opened Commands
  import opened FrameRules

  /** What the physical device and its surface report. */
  datatype Platform = Platform(
    families: seq<QueueFamily>,
    support: SurfaceSupport,
    chainImages: seq<Handle>,
    formatProps: FormatTable)

  // ---------------------------------------------------------------------------
  // The calls each step issues

  function FramebufferCreates(start: Handle, color: Handle, depth: Handle, views: seq<Handle>, extent: Extent2D)
    : seq<Call>
  {
    seq(|views|, i requires 0 <= i < |views| =>
      CreateFramebuffer(start + i, [color, depth, views[i]], extent.width, extent.height, 1))
  }

  function FramebufferDestroys(framebuffers: seq<Handle>): seq<Call>
  {
    seq(|framebuffers|, i requires 0 <= i < |framebuffers| => DestroyObject(FramebufferObject, framebuffers[i]))
  }

  /** cleanupSwapChain: color image, depth image, every framebuffer, then the
      chain, unless the process-wide flag says the chain was destroyed once. */
  function TeardownCalls(color: Handle, depth: Handle, framebuffers: seq<Handle>,
                         chainDestroyedBefore: bool, views: seq<Handle>, swapchain: Handle): seq<Call>
  {
    [DestroyObject(ColorImageObject, color), DestroyObject(DepthImageObject, depth)]
      + FramebufferDestroys(framebuffers)
      + (if chainDestroyedBefore then [] else ChainDestroys(views, swapchain))
  }

  /** The chain and its views, created from handle `start` on. */
  function ChainBuild(start: Handle, p: Platform, size: Extent2D, ix: QueueFamilyIndices): seq<Call>
    requires SupportWellFormed(p.support)
  {
    [CreateSwapchain(start, SwapchainInfoFor(p.support, ix, size))]
      + ViewCreates(p.chainImages, HandleRange(start + 1, |p.chainImages|), ChooseSwapSurfaceFormat(p.support.formats).format)
  }

  /** The color target, the depth target and one framebuffer per view,
      created from handle `color` on. */
  function AttachmentCalls(color: Handle, format: Format, extent: Extent2D, depthFormat: Format, views: seq<Handle>)
    : seq<Call>
  {
    [CreateAttachmentImage(ColorImageObject, color, format, extent),
     CreateAttachmentImage(DepthImageObject, color + 1, depthFormat, extent)]
      + FramebufferCreates(color + 2, color, color + 1, views, extent)
  }

  /** What createSwapChain issues from handle `start` on: nothing when the
      queue-family scan raises, otherwise the chain and its views. */
  function ChainCalls(start: Handle, p: Platform, size: Extent2D): seq<Call>
    requires SupportWellFormed(p.support)
  {
    match ScanQueueFamilies(p.families)
    case Err(_) => []
    case Ok(ix) => ChainBuild(start, p, size, ix)
  }

  /** What createColorResources, createDepthResources and createFramebuffers
      issue from handle `color` on: the color target, then, when a depth
      format is supported, the depth target and one framebuffer per view. */
  function AttachCalls(color: Handle, format: Format, extent: Extent2D, formatProps: FormatTable, views: seq<Handle>)
    : seq<Call>
  {
    match FindDepthFormat(formatProps)
    case Err(_) => [CreateAttachmentImage(ColorImageObject, color, format, extent)]
    case Ok(depthFormat) => AttachmentCalls(color, format, extent, depthFormat, views)
  }

  /** What the rebuild half of recreateSwapChain issues after the chain's
      calls: nothing when the queue-family scan raised, otherwise the
      targets' calls, from the handle after the last view on. */
  function TargetCalls(start: Handle, p: Platform, size: Extent2D): seq<Call>
    requires SupportWellFormed(p.support)
  {
    var n := |p.chainImages|;
    if ScanQueueFamilies(p.families).Err? then []
    else AttachCalls(start + n + 1, ChooseSwapSurfaceFormat(p.support.formats).format,
                     ChooseSwapExtent(p.support.capabilities, size), p.formatProps, HandleRange(start + 1, n))
  }

  /** How the rebuild ends: the queue-family scan's error, else the depth
      format query's error, else success. */
  function BuildOutcome(p: Platform): (r: Outcome)
    ensures r == Done <==> ScanQueueFamilies(p.families).Ok? && FindDepthFormat(p.formatProps).Ok?
    ensures ScanQueueFamilies(p.families).Err? ==> r == Fail(Fatal("Cannot find suitable queue families!"))
    ensures ScanQueueFamilies(p.families).Ok? && FindDepthFormat(p.formatProps).Err? ==>
      r == Fail(Fatal("failed to find supported format!"))
  {
    match ScanQueueFamilies(p.families)
    case Err(e) => Fail(e)
    case Ok(_) =>
      match FindDepthFormat(p.formatProps)
      case Err(e) => Fail(e)
      case Ok(_) => Done
  }

  /** The only calls swapchain recreation makes: device waits and the
      destruction and creation of the chain's own objects.  No render pass,
      pipeline, descriptor, semaphore, fence or command buffer is touched. */
  predicate IsRebuildCall(c: Call)
  {
    match c
    case DeviceWaitIdle => true
    case DestroyObject(kind, _) =>
      kind in {ColorImageObject, DepthImageObject, FramebufferObject, ImageViewObject, SwapchainObject}
    case CreateSwapchain(_, _) => true
    case CreateImageView(_, _, _, _, _) => true
    case CreateAttachmentImage(_, _, _, _) => true
    case CreateFramebuffer(_, _, _, _, _) => true
    case _ => false
  }

  predicate AllRebuildCalls(cs: seq<Call>)
  {
    forall c :: c in cs ==> IsRebuildCall(c)
  }

  lemma AllRebuildCallsAppend(a: seq<Call>, b: seq<Call>)
    requires AllRebuildCalls(a) && AllRebuildCalls(b)
    ensures AllRebuildCalls(a + b)
  {
  }

  /** Every step of a recreation stays among the chain's own objects: the
      device waits, the teardown, and each stage of the rebuild. */
  lemma {:induction false} TeardownIsRebuildCalls(color: Handle, depth: Handle, framebuffers: seq<Handle>,
                                                  chainDestroyedBefore: bool, views: seq<Handle>, swapchain: Handle)
    ensures AllRebuildCalls(TeardownCalls(color, depth, framebuffers, chainDestroyedBefore, views, swapchain))
  {
    var images := [DestroyObject(ColorImageObject, color), DestroyObject(DepthImageObject, depth)];
    var fd := FramebufferDestroys(framebuffers);
    var cd: seq<Call> := if chainDestroyedBefore then [] else ChainDestroys(views, swapchain);
    assert AllRebuildCalls(cd);
    AllRebuildCallsAppend(images, fd);
    AllRebuildCallsAppend(images + fd, cd);
  }

  lemma {:induction false} ChainBuildIsRebuildCalls(start: Handle, p: Platform, size: Extent2D, ix: QueueFamilyIndices)
    requires SupportWellFormed(p.support)
    ensures AllRebuildCalls(ChainBuild(start, p, size, ix))
  {
    var vc := ViewCreates(p.chainImages, HandleRange(start + 1, |p.chainImages|), ChooseSwapSurfaceFormat(p.support.formats).format);
    AllRebuildCallsAppend([CreateSwapchain(start, SwapchainInfoFor(p.support, ix, size))], vc);
  }

  lemma {:induction false} AttachmentsAreRebuildCalls(color: Handle, format: Format, extent: Extent2D,
                                                      depthFormat: Format, views: seq<Handle>)
    ensures AllRebuildCalls(AttachmentCalls(color, format, extent, depthFormat, views))
  {
    AllRebuildCallsAppend([CreateAttachmentImage(ColorImageObject, color, format, extent),
                           CreateAttachmentImage(DepthImageObject, color + 1, depthFormat, extent)],
                          FramebufferCreates(color + 2, color, color + 1, views, extent));
  }

  lemma {:induction false} ChainCallsAreRebuildCalls(start: Handle, p: Platform, size: Extent2D)
    requires SupportWellFormed(p.support)
    ensures AllRebuildCalls(ChainCalls(start, p, size))
  {
    match ScanQueueFamilies(p.families)
    case Err(_) =>
    case Ok(ix) => ChainBuildIsRebuildCalls(start, p, size, ix);
  }

  lemma {:induction false} AttachCallsAreRebuildCalls(color: Handle, format: Format, extent: Extent2D,
                                                      formatProps: FormatTable, views: seq<Handle>)
    ensures AllRebuildCalls(AttachCalls(color, format, extent, formatProps, views))
  {
    match FindDepthFormat(formatProps)
    case Err(_) =>
    case Ok(d) => AttachmentsAreRebuildCalls(color, format, extent, d, views);
  }

  lemma {:induction false} TargetCallsAreRebuildCalls(start: Handle, p: Platform, size: Extent2D)
    requires SupportWellFormed(p.support)
    ensures AllRebuildCalls(TargetCalls(start, p, size))
  {
    var n := |p.chainImages|;
    if ScanQueueFamilies(p.families).Ok? {
      AttachCallsAreRebuildCalls(start + n + 1, ChooseSwapSurfaceFormat(p.support.formats).format,
                                 ChooseSwapExtent(p.support.capabilities, size), p.formatProps, HandleRange(start + 1, n));
    }
  }

  /** What recreateSwapChain issues after the window wait: `waits` device
      waits, the teardown of the old chain's objects, then the rebuild from
      handle `start` on for window size `size`. */
  function RecreationCalls(waits: nat, color: Handle, depth: Handle, framebuffers: seq<Handle>,
                           chainDestroyedBefore: bool, views: seq<Handle>, swapchain: Handle,
                           start: Handle, p: Platform, size: Extent2D): seq<Call>
    requires SupportWellFormed(p.support)
  {
    Repeat(DeviceWaitIdle, waits)
      + TeardownCalls(color, depth, framebuffers, chainDestroyedBefore, views, swapchain)
      + ChainCalls(start, p, size) + TargetCalls(start, p, size)
  }

  lemma SeqAssoc<T>(a: seq<T>, b: seq<T>, c: seq<T>)
    ensures a + b + c == a + (b + c)
  {
  }

  lemma {:induction false} AppendThree<T>(x: seq<T>, a: seq<T>, b: seq<T>, c: seq<T>)
    ensures x + a + b + c == x + (a + b + c)
  {
    SeqAssoc(x, a, b);
    SeqAssoc(x, a + b, c);
  }

  /** Appending the four stages one by one is appending their concatenation. */
  lemma {:induction false} AppendStages<T>(x: seq<T>, a: seq<T>, b: seq<T>, c: seq<T>, d: seq<T>)
    ensures x + a + b + c + d == x + (a + b + c + d)
  {
    SeqAssoc(x, a, b);
    SeqAssoc(x, a + b, c);
    SeqAssoc(x, a + b + c, d);
  }

  /** Recreating the swapchain only waits for the device and destroys and
      creates the chain's own objects, whatever the platform reports and
      however the rebuild ends: no render pass, pipeline, descriptor, fence,
      semaphore or command buffer is touched, and nothing is submitted or
      presented. */
  lemma {:induction false} RecreationTouchesOnlyChainObjects(waits: nat, color: Handle, depth: Handle,
      framebuffers: seq<Handle>, chainDestroyedBefore: bool, views: seq<Handle>, swapchain: Handle,
      start: Handle, p: Platform, size: Extent2D)
    requires SupportWellFormed(p.support)
    ensures AllRebuildCalls(RecreationCalls(waits, color, depth, framebuffers, chainDestroyedBefore, views,
                                            swapchain, start, p, size))
  {
    var tear := TeardownCalls(color, depth, framebuffers, chainDestroyedBefore, views, swapchain);
    TeardownIsRebuildCalls(color, depth, framebuffers, chainDestroyedBefore, views, swapchain);
    AllRebuildCallsAppend(Repeat(DeviceWaitIdle, waits), tear);
    ChainCallsAreRebuildCalls(start, p, size);
    TargetCallsAreRebuildCalls(start, p, size);
    AllRebuildCallsAppend(Repeat(DeviceWaitIdle, waits) + tear, ChainCalls(start, p, size));
    AllRebuildCallsAppend(Repeat(DeviceWaitIdle, waits) + tear + ChainCalls(start, p, size), TargetCalls(start, p, size));
  }

  /** recordCommandBuffer: begin, render pass over the whole extent, pipeline,
      viewport and scissor, then every registered tick function, then end. */
  function RecordCalls(cmd: Handle, renderPass: Handle, framebuffer: Handle, extent: Extent2D, pipeline: Handle,
                       recorders: seq<nat>): seq<Call>
  {
    RecordPrologue(cmd, renderPass, framebuffer, extent, pipeline)
      + RecorderRuns(cmd, recorders)
      + [EndRenderPass(cmd), EndCommandBuffer(cmd)]
  }

  /** recordCommandBuffer up to and including setScissor. */
  function RecordPrologue(cmd: Handle, renderPass: Handle, framebuffer: Handle, extent: Extent2D, pipeline: Handle)
    : seq<Call>
  {
    [BeginCommandBuffer(cmd, false), BeginRenderPass(cmd, renderPass, framebuffer, extent),
     BindPipeline(cmd, pipeline), SetViewport(cmd, extent), SetScissor(cmd, extent)]
  }

  /** The recording begins the buffer and a render pass on the framebuffer
      over the whole extent, sets the scissor, runs every registered function
      in order, then ends the pass and the buffer. */
  lemma RecordCallsLayout(cmd: Handle, renderPass: Handle, framebuffer: Handle, extent: Extent2D, pipeline: Handle,
                          recorders: seq<nat>)
    ensures var cs := RecordCalls(cmd, renderPass, framebuffer, extent, pipeline, recorders);
      |cs| == 7 + |recorders|
      && cs[0] == BeginCommandBuffer(cmd, false)
      && cs[1] == BeginRenderPass(cmd, renderPass, framebuffer, extent)
      && cs[4] == SetScissor(cmd, extent)
      && (forall i :: 0 <= i < |recorders| ==> cs[5 + i] == RunRecorder(cmd, recorders[i]))
      && cs[5 + |recorders|] == EndRenderPass(cmd)
      && cs[6 + |recorders|] == EndCommandBuffer(cmd)
  {
  }

  function RecorderRuns(cmd: Handle, recorders: seq<nat>): seq<Call>
  {
    seq(|recorders|, i requires 0 <= i < |recorders| => RunRecorder(cmd, recorders[i]))
  }

  /** Registration order is recording order: of two registered functions, the
      one bound first runs first, and each runs exactly as often as it was
      bound, all strictly between the scissor and the end of the pass. */
  lemma {:induction false} TickFunctionsRunInBindOrder(cmd: Handle, renderPass: Handle, framebuffer: Handle,
                                                       extent: Extent2D, pipeline: Handle, bound: seq<nat>, f: nat)
    ensures var cs := RecordCalls(cmd, renderPass, framebuffer, extent, pipeline, bound + [f]);
      cs[5 + |bound|] == RunRecorder(cmd, f)
      && cs[..5 + |bound|] == RecordCalls(cmd, renderPass, framebuffer, extent, pipeline, bound)[..5 + |bound|]
      && cs[6 + |bound|] == EndRenderPass(cmd)
  {
    var cs := RecordCalls(cmd, renderPass, framebuffer, extent, pipeline, bound + [f]);
    var ds := RecordCalls(cmd, renderPass, framebuffer, extent, pipeline, bound);
    RecordCallsLayout(cmd, renderPass, framebuffer, extent, pipeline, bound + [f]);
    RecordCallsLayout(cmd, renderPass, framebuffer, extent, pipeline, bound);
    assert (bound + [f])[|bound|] == f;
    forall i | 0 <= i < 5 + |bound|
      ensures cs[i] == ds[i]
    {
      if i >= 5 {
        assert (bound + [f])[i - 5] == bound[i - 5];
      }
    }
  }

  /** What one rendered frame issues between the acquire and the present. */
  function FrameWork(fence: Handle, cmd: Handle, imageAvailable: Handle, renderFinished: Handle,
                     swapchain: Handle, imageIndex: nat, record: seq<Call>): seq<Call>
  {
    [ResetFence(fence), ResetCommandBuffer(cmd)] + record
      + [Submit([cmd], [imageAvailable], [renderFinished], fence), Present(swapchain, imageIndex, renderFinished)]
  }

  /** The chain's objects are the ones a rebuild from handle `start` makes
      for `n` chain images: the chain, then its views, then the color and
      depth targets, then one framebuffer per view; `ext` is the extent. */
  predicate ChainRebuilt(start: Handle, n: nat, ext: Extent2D, swapchain: Handle, views: seq<Handle>,
                         extent: Extent2D, color: Handle, depth: Handle, framebuffers: seq<Handle>)
  {
    swapchain == start && views == HandleRange(start + 1, n)
    && extent == ext && color == start + n + 1 && depth == start + n + 2
    && framebuffers == HandleRange(start + n + 3, n)
  }

  class VulkanGraphics {
    const swapchainR: SwapchainResource
    var extent: Extent2D
    var colorImage: Handle
    var depthImage: Handle
    var depthFormat: Format
    var framebuffers: seq<Handle>
    var renderPass: Handle
    var pipeline: Handle
    var imageAvailable: seq<Handle>
    var renderFinished: seq<Handle>
    var inFlightFences: seq<Handle>
    var commandBuffers: seq<Handle>
    var tickCmdFuncs: seq<nat>
    var currentFrame: nat
    var framebufferResized: bool

    /** Per-slot objects exist for every frame in flight and the current slot
        is one of them. */
    predicate Valid()
      reads this`imageAvailable, this`renderFinished, this`inFlightFences, this`commandBuffers, this`currentFrame
    {
      |imageAvailable| == MAX_FRAMES_IN_FLIGHT && |renderFinished| == MAX_FRAMES_IN_FLIGHT
      && |inFlightFences| == MAX_FRAMES_IN_FLIGHT && |commandBuffers| == MAX_FRAMES_IN_FLIGHT
      && currentFrame < MAX_FRAMES_IN_FLIGHT
    }

    constructor ()
      ensures fresh(swapchainR)
      ensures currentFrame == 0 && !framebufferResized
      ensures framebuffers == [] && tickCmdFuncs == []
      ensures imageAvailable == [] && renderFinished == [] && inFlightFences == [] && commandBuffers == []
    {
      swapchainR := new SwapchainResource();
      extent := Extent2D(0, 0);
      colorImage, depthImage, depthFormat := NULL_HANDLE, NULL_HANDLE, FormatUndefined;
      framebuffers := [];
      renderPass, pipeline := NULL_HANDLE, NULL_HANDLE;
      imageAvailable, renderFinished, inFlightFences, commandBuffers := [], [], [], [];
      tickCmdFuncs := [];
      currentFrame := 0;
      framebufferResized := false;
    }

    /** bindTickCmdFunc: registered functions are kept in registration order. */
    method BindTickCmdFunc(f: nat)
      modifies this`tickCmdFuncs
      ensures tickCmdFuncs == old(tickCmdFuncs) + [f]
    {
      tickCmdFuncs := tickCmdFuncs + [f];
    }

    /** createCommandBuffers: one primary buffer per frame in flight. */
    method CreateCommandBuffers(dev: Device)
      modifies this`commandBuffers, dev
      ensures commandBuffers == HandleRange(old(dev.nextHandle), MAX_FRAMES_IN_FLIGHT)
      ensures dev.nextHandle == old(dev.nextHandle) + MAX_FRAMES_IN_FLIGHT
      ensures dev.calls == old(dev.calls) + [AllocateCommandBuffer(commandBuffers[0]), AllocateCommandBuffer(commandBuffers[1])]
    {
      var a := dev.NewHandle();
      var b := dev.NewHandle();
      commandBuffers := [a, b];
      dev.calls := dev.calls + [AllocateCommandBuffer(a), AllocateCommandBuffer(b)];
    }

    /** createSyncObjects: for each slot, an image-available semaphore, a
        render-finished semaphore and a fence created signalled, so that the
        first wait on every slot returns at once. */
    method CreateSyncObjects(dev: Device)
      modifies this`imageAvailable, this`renderFinished, this`inFlightFences, dev
      ensures |imageAvailable| == MAX_FRAMES_IN_FLIGHT && |renderFinished| == MAX_FRAMES_IN_FLIGHT
      ensures |inFlightFences| == MAX_FRAMES_IN_FLIGHT
      ensures dev.nextHandle == old(dev.nextHandle) + 3 * MAX_FRAMES_IN_FLIGHT
      ensures forall i :: 0 <= i < MAX_FRAMES_IN_FLIGHT ==>
        imageAvailable[i] == old(dev.nextHandle) + 3 * i
        && renderFinished[i] == old(dev.nextHandle) + 3 * i + 1
        && inFlightFences[i] == old(dev.nextHandle) + 3 * i + 2
      ensures dev.calls == old(dev.calls) + SyncCreates(old(dev.nextHandle), MAX_FRAMES_IN_FLIGHT)
    {
      var start := dev.nextHandle;
      var ia: seq<Handle> := [];
      var rf: seq<Handle> := [];
      var fs: seq<Handle> := [];
      var i := 0;
      while i < MAX_FRAMES_IN_FLIGHT
        invariant 0 <= i <= MAX_FRAMES_IN_FLIGHT
        invariant |ia| == i && |rf| == i && |fs| == i
        invariant dev.nextHandle == start + 3 * i
        invariant forall j :: 0 <= j < i ==> ia[j] == start + 3 * j && rf[j] == start + 3 * j + 1 && fs[j] == start + 3 * j + 2
        invariant dev.calls == old(dev.calls) + SyncCreates(start, i)
      {
        var a := dev.NewHandle();
        var b := dev.NewHandle();
        var c := dev.NewHandle();
        dev.calls := dev.calls + [CreateSemaphore(a), CreateSemaphore(b), CreateFence(c, true)];
        ia, rf, fs := ia + [a], rf + [b], fs + [c];
        i := i + 1;
      }
      imageAvailable, renderFinished, inFlightFences := ia, rf, fs;
    }

    /** The end of initVulkan: the command buffers, then the synchronisation
        objects, after which every frame slot has what a tick uses. */
    method InitFrameObjects(dev: Device)
      requires currentFrame < MAX_FRAMES_IN_FLIGHT
      modifies this`commandBuffers, this`imageAvailable, this`renderFinished, this`inFlightFences, dev
      ensures Valid()
      ensures commandBuffers == HandleRange(old(dev.nextHandle), MAX_FRAMES_IN_FLIGHT)
      ensures dev.nextHandle == old(dev.nextHandle) + 4 * MAX_FRAMES_IN_FLIGHT
      ensures dev.calls == old(dev.calls) + [AllocateCommandBuffer(commandBuffers[0]), AllocateCommandBuffer(commandBuffers[1])]
        + SyncCreates(old(dev.nextHandle) + MAX_FRAMES_IN_FLIGHT, MAX_FRAMES_IN_FLIGHT)
    {
      CreateCommandBuffers(dev);
      CreateSyncObjects(dev);
    }

    /** createExtent: the swap extent for the current window size. */
    method CreateExtent(p: Platform, size: Extent2D)
      requires SupportWellFormed(p.support)
      modifies this`extent
      ensures extent == ChooseSwapExtent(p.support.capabilities, size)
    {
      extent := ChooseSwapExtent(p.support.capabilities, size);
    }

    /** createColorResources: a multisampled color target in the chain's
        format at the current extent. */
    method CreateColorResources(dev: Device)
      modifies this`colorImage, dev
      ensures colorImage == old(dev.nextHandle) && dev.nextHandle == colorImage + 1
      ensures dev.calls == old(dev.calls) + [CreateAttachmentImage(ColorImageObject, colorImage, swapchainR.format, extent)]
    {
      colorImage := dev.NewHandle();
      dev.calls := dev.calls + [CreateAttachmentImage(ColorImageObject, colorImage, swapchainR.format, extent)];
    }

    /** createDepthResources: the depth target in the first supported depth
        format; raises, creating nothing, when none is supported. */
    method CreateDepthResources(dev: Device, p: Platform) returns (r: Outcome)
      modifies this`depthImage, this`depthFormat, dev
      ensures FindDepthFormat(p.formatProps).Err? ==>
        r == Fail(FindDepthFormat(p.formatProps).error) && unchanged(this) && unchanged(dev)
      ensures FindDepthFormat(p.formatProps).Ok? ==>
        r == Done && depthFormat == FindDepthFormat(p.formatProps).value &&
        depthImage == old(dev.nextHandle) && dev.nextHandle == depthImage + 1 &&
        dev.calls == old(dev.calls) + [CreateAttachmentImage(DepthImageObject, depthImage, depthFormat, extent)]
    {
      var f := FindDepthFormat(p.formatProps);
      if f.Err? {
        return Fail(f.error);
      }
      depthFormat := f.value;
      depthImage := dev.NewHandle();
      dev.calls := dev.calls + [CreateAttachmentImage(DepthImageObject, depthImage, depthFormat, extent)];
      return Done;
    }

    /** createFramebuffers: exactly one framebuffer per swapchain view;
        framebuffer i has attachments color, depth, view i, the current
        extent and one layer. */
    method CreateFramebuffers(dev: Device)
      modifies this`framebuffers, dev
      ensures framebuffers == HandleRange(old(dev.nextHandle), |swapchainR.views|)
      ensures dev.nextHandle == old(dev.nextHandle) + |swapchainR.views|
      ensures dev.calls == old(dev.calls) + FramebufferCreates(old(dev.nextHandle), colorImage, depthImage, swapchainR.views, extent)
    {
      var start := dev.nextHandle;
      var views := swapchainR.views;
      var made: seq<Handle> := [];
      var i := 0;
      while i < |views|
        invariant 0 <= i <= |views|
        invariant made == HandleRange(start, i)
        invariant dev.nextHandle == start + i
        invariant dev.calls == old(dev.calls) + FramebufferCreates(start, colorImage, depthImage, views[..i], extent)
      {
        assert FramebufferCreates(start, colorImage, depthImage, views[..i + 1], extent)
          == FramebufferCreates(start, colorImage, depthImage, views[..i], extent)
             + [CreateFramebuffer(start + i, [colorImage, depthImage, views[i]], extent.width, extent.height, 1)];
        var h := dev.NewHandle();
        dev.calls := dev.calls + [CreateFramebuffer(h, [colorImage, depthImage, views[i]], extent.width, extent.height, 1)];
        made := made + [h];
        i := i + 1;
      }
      assert views[..i] == views;
      framebuffers := made;
    }

    /** cleanupSwapChain: color, depth, every framebuffer, then the chain's
        destroy, which does nothing after the first time in the process. */
    method CleanupSwapChain(dev: Device, statics: ProcessStatics)
      modifies dev`calls, statics`swapchainDestroyed
      ensures statics.swapchainDestroyed
      ensures dev.calls == old(dev.calls) + TeardownCalls(colorImage, depthImage, framebuffers,
        old(statics.swapchainDestroyed), swapchainR.views, swapchainR.swapchain)
    {
      dev.calls := dev.calls + [DestroyObject(ColorImageObject, colorImage), DestroyObject(DepthImageObject, depthImage)];
      var before := dev.calls;
      var i := 0;
      while i < |framebuffers|
        invariant 0 <= i <= |framebuffers|
        invariant dev.calls == before + FramebufferDestroys(framebuffers[..i])
        invariant statics.swapchainDestroyed == old(statics.swapchainDestroyed)
      {
        assert FramebufferDestroys(framebuffers[..i + 1])
          == FramebufferDestroys(framebuffers[..i]) + [DestroyObject(FramebufferObject, framebuffers[i])];
        dev.calls := dev.calls + [DestroyObject(FramebufferObject, framebuffers[i])];
        i := i + 1;
      }
      assert framebuffers[..i] == framebuffers;
      ghost var mid := dev.calls;
      swapchainR.Destroy(dev, statics);
    }

    /** recordCommandBuffer for swapchain image `imageIndex`. */
    method RecordCommandBuffer(dev: Device, cmd: Handle, imageIndex: nat)
      requires imageIndex < |framebuffers|
      modifies dev`calls
      ensures dev.calls == old(dev.calls) + RecordCalls(cmd, renderPass, framebuffers[imageIndex], extent, pipeline, tickCmdFuncs)
    {
      dev.calls := dev.calls + RecordPrologue(cmd, renderPass, framebuffers[imageIndex], extent, pipeline);
      var before := dev.calls;
      var i := 0;
      while i < |tickCmdFuncs|
        invariant 0 <= i <= |tickCmdFuncs|
        invariant dev.calls == before + RecorderRuns(cmd, tickCmdFuncs[..i])
      {
        assert RecorderRuns(cmd, tickCmdFuncs[..i + 1]) == RecorderRuns(cmd, tickCmdFuncs[..i]) + [RunRecorder(cmd, tickCmdFuncs[i])];
        dev.calls := dev.calls + [RunRecorder(cmd, tickCmdFuncs[i])];
        i := i + 1;
      }
      assert tickCmdFuncs[..i] == tickCmdFuncs;
      dev.calls := dev.calls + [EndRenderPass(cmd), EndCommandBuffer(cmd)];
      AppendThree(old(dev.calls), RecordPrologue(cmd, renderPass, framebuffers[imageIndex], extent, pipeline),
                  RecorderRuns(cmd, tickCmdFuncs), [EndRenderPass(cmd), EndCommandBuffer(cmd)]);
    }

    /** createSwapChain then createExtent, for window size `size`; the
        queue-family scan raises before anything is created. */
    method RebuildChain(dev: Device, p: Platform, size: Extent2D) returns (r: Outcome)
      requires SupportWellFormed(p.support)
      modifies this`extent, swapchainR, dev
      ensures r == if ScanQueueFamilies(p.families).Err? then Fail(ScanQueueFamilies(p.families).error) else Done
      ensures dev.calls == old(dev.calls) + ChainCalls(old(dev.nextHandle), p, size)
      ensures r == Done ==>
        swapchainR.swapchain == old(dev.nextHandle) && swapchainR.images == p.chainImages
        && swapchainR.views == HandleRange(old(dev.nextHandle) + 1, |p.chainImages|)
        && swapchainR.format == ChooseSwapSurfaceFormat(p.support.formats).format
        && extent == ChooseSwapExtent(p.support.capabilities, size)
        && dev.nextHandle == old(dev.nextHandle) + |p.chainImages| + 1
    {
      r := swapchainR.Init(dev, p.support, p.families, size, p.chainImages);
      if r.Fail? {
        return;
      }
      CreateExtent(p, size);
    }

    /** createColorResources, createDepthResources, createFramebuffers; a
        missing depth format raises after the color target exists. */
    method RebuildAttachments(dev: Device, p: Platform) returns (r: Outcome)
      modifies this`colorImage, this`depthImage, this`depthFormat, this`framebuffers, dev
      ensures r == if FindDepthFormat(p.formatProps).Err? then Fail(FindDepthFormat(p.formatProps).error) else Done
      ensures dev.calls == old(dev.calls) + AttachCalls(old(dev.nextHandle), swapchainR.format, extent, p.formatProps, swapchainR.views)
      ensures r == Done ==>
        var start := old(dev.nextHandle);
        colorImage == start && depthImage == start + 1 && depthFormat == FindDepthFormat(p.formatProps).value
        && framebuffers == HandleRange(start + 2, |swapchainR.views|)
        && dev.nextHandle == start + 2 + |swapchainR.views|
    {
      CreateColorResources(dev);
      r := CreateDepthResources(dev, p);
      if r.Fail? {
        return;
      }
      CreateFramebuffers(dev);
    }

    /** The first half of recreateSwapChain: wait for the device to go idle
        (retrying on timeout), then cleanupSwapChain. */
    method TearDownChain(dev: Device, statics: ProcessStatics, idleAnswers: seq<VkResult>)
      requires Settles(idleAnswers)
      modifies dev`calls, statics`swapchainDestroyed
      ensures statics.swapchainDestroyed
      ensures dev.calls == old(dev.calls) + Repeat(DeviceWaitIdle, FirstSettled(idleAnswers) + 1)
        + TeardownCalls(colorImage, depthImage, framebuffers, old(statics.swapchainDestroyed),
                        swapchainR.views, swapchainR.swapchain)
    {
      var attempts := RetryWhileTimeout(dev, DeviceWaitIdle, idleAnswers);
      CleanupSwapChain(dev, statics);
    }

    /** The second half of recreateSwapChain: createSwapChain, createExtent,
        createColorResources, createDepthResources, createFramebuffers, for
        window size `size`. */
    method BuildChain(dev: Device, p: Platform, size: Extent2D) returns (r: Outcome)
      requires SupportWellFormed(p.support)
      modifies this`extent, this`colorImage, this`depthImage, this`depthFormat, this`framebuffers
      modifies swapchainR, dev
      ensures r == BuildOutcome(p)
      ensures dev.calls == old(dev.calls) + ChainCalls(old(dev.nextHandle), p, size) + TargetCalls(old(dev.nextHandle), p, size)
      ensures r == Done ==> ChainRebuilt(old(dev.nextHandle), |p.chainImages|, ChooseSwapExtent(p.support.capabilities, size),
          swapchainR.swapchain, swapchainR.views, extent, colorImage, depthImage, framebuffers)
    {
      ghost var calls0 := dev.calls;
      ghost var start := dev.nextHandle;
      r := RebuildChain(dev, p, size);
      if r.Fail? {
        assert dev.calls == calls0 + ChainCalls(start, p, size) + [];
        return;
      }
      ghost var n := |p.chainImages|;
      ghost var views := HandleRange(start + 1, n);
      ghost var fmt := ChooseSwapSurfaceFormat(p.support.formats).format;
      ghost var ext := ChooseSwapExtent(p.support.capabilities, size);
      ghost var color := start + n + 1;
      assert swapchainR.views == views && swapchainR.format == fmt && extent == ext;
      assert dev.nextHandle == color;
      r := RebuildAttachments(dev, p);
      assert AttachCalls(color, fmt, ext, p.formatProps, views) == TargetCalls(start, p, size);
      if r.Done? {
        assert framebuffers == HandleRange(color + 2, n);
        assert HandleRange(color + 2, n) == HandleRange(start + n + 3, n);
      }
    }

    /** recreateSwapChain: wait for a non-zero window, wait for the device to
        go idle, tear the chain's objects down, then rebuild.  The window size
        found by the wait is the size every later step uses. */
    method RecreateSwapChain(dev: Device, statics: ProcessStatics, p: Platform,
                             reports: seq<Extent2D>, idleAnswers: seq<VkResult>) returns (r: Outcome)
      requires SupportWellFormed(p.support)
      requires EventuallyNonZero(reports) && Settles(idleAnswers)
      modifies this`extent, this`colorImage, this`depthImage, this`depthFormat, this`framebuffers
      modifies swapchainR, dev, statics`swapchainDestroyed
      ensures statics.swapchainDestroyed
      ensures r == BuildOutcome(p)
      ensures dev.calls == old(dev.calls) + RecreationCalls(FirstSettled(idleAnswers) + 1,
        old(colorImage), old(depthImage), old(framebuffers), old(statics.swapchainDestroyed),
        old(swapchainR.views), old(swapchainR.swapchain), old(dev.nextHandle), p, reports[FirstNonZero(reports)])
      ensures r == Done ==>
        ChainRebuilt(old(dev.nextHandle), |p.chainImages|, ChooseSwapExtent(p.support.capabilities, reports[FirstNonZero(reports)]),
          swapchainR.swapchain, swapchainR.views, extent, colorImage, depthImage, framebuffers)
    {
      var size, consumed := WaitForNonZeroFramebuffer(reports);
      assert size == reports[FirstNonZero(reports)];
      TearDownChain(dev, statics, idleAnswers);
      assert dev.nextHandle == old(dev.nextHandle);
      r := BuildChain(dev, p, size);
      AppendStages(old(dev.calls), Repeat(DeviceWaitIdle, FirstSettled(idleAnswers) + 1),
        TeardownCalls(old(colorImage), old(depthImage), old(framebuffers), old(statics.swapchainDestroyed),
                      old(swapchainR.views), old(swapchainR.swapchain)),
        ChainCalls(old(dev.nextHandle), p, size), TargetCalls(old(dev.nextHandle), p, size));
    }

    /** What a tick issues up to the acquire: the fence wait of the current
        slot, `fenceAttempts` times, then the acquire on its semaphore. */
    function FrameStart(fenceAttempts: nat): seq<Call>
      requires Valid()
      reads this`imageAvailable, this`renderFinished, this`inFlightFences, this`commandBuffers, this`currentFrame
      reads swapchainR
    {
      Repeat(WaitForFence(inFlightFences[currentFrame]), fenceAttempts)
        + [AcquireNextImage(swapchainR.swapchain, imageAvailable[currentFrame])]
    }

    /** What a tick issues for swapchain image `imageIndex` once the acquire
        succeeded: reset, record, submit and present on the current slot. */
    function FrameCalls(imageIndex: nat): seq<Call>
      requires Valid() && imageIndex < |framebuffers|
      reads this, swapchainR
    {
      FrameWork(inFlightFences[currentFrame], commandBuffers[currentFrame], imageAvailable[currentFrame],
                renderFinished[currentFrame], swapchainR.swapchain, imageIndex,
                RecordCalls(commandBuffers[currentFrame], renderPass, framebuffers[imageIndex], extent, pipeline,
                            tickCmdFuncs))
    }

    /** What recreateSwapChain issues from the current objects, with `waits`
        device waits, rebuilding from handle `start` at window size `size`. */
    function RecreationFrom(waits: nat, chainDestroyedBefore: bool, start: Handle, p: Platform, size: Extent2D)
      : seq<Call>
      requires SupportWellFormed(p.support)
      reads this`colorImage, this`depthImage, this`framebuffers, swapchainR
    {
      RecreationCalls(waits, colorImage, depthImage, framebuffers, chainDestroyedBefore, swapchainR.views,
                      swapchainR.swapchain, start, p, size)
    }

    /** The start of tick: wait on the slot's fence until it does not time
        out, then acquire the next image. */
    method BeginFrame(dev: Device, fenceAnswers: seq<VkResult>)
      requires Valid() && Settles(fenceAnswers)
      modifies dev`calls
      ensures dev.calls == old(dev.calls) + FrameStart(FirstSettled(fenceAnswers) + 1)
    {
      var attempts := RetryWhileTimeout(dev, WaitForFence(inFlightFences[currentFrame]), fenceAnswers);
      dev.calls := dev.calls + [AcquireNextImage(swapchainR.swapchain, imageAvailable[currentFrame])];
      SeqAssoc(old(dev.calls), Repeat(WaitForFence(inFlightFences[currentFrame]), attempts),
               [AcquireNextImage(swapchainR.swapchain, imageAvailable[currentFrame])]);
    }

    /** The middle of tick: reset the slot's fence and command buffer, record
        it for the acquired image, submit it waiting on the image-available
        semaphore and signalling render-finished and the fence, present. */
    method RenderFrame(dev: Device, imageIndex: nat)
      requires Valid() && imageIndex < |framebuffers|
      modifies dev`calls
      ensures dev.calls == old(dev.calls) + FrameCalls(imageIndex)
    {
      var f := currentFrame;
      var cmd := commandBuffers[f];
      dev.calls := dev.calls + [ResetFence(inFlightFences[f]), ResetCommandBuffer(cmd)];
      ghost var mid := dev.calls;
      RecordCommandBuffer(dev, cmd, imageIndex);
      ghost var record := RecordCalls(cmd, renderPass, framebuffers[imageIndex], extent, pipeline, tickCmdFuncs);
      dev.calls := dev.calls + [Submit([cmd], [imageAvailable[f]], [renderFinished[f]], inFlightFences[f]),
                                Present(swapchainR.swapchain, imageIndex, renderFinished[f])];
      AppendThree(old(dev.calls), [ResetFence(inFlightFences[f]), ResetCommandBuffer(cmd)], record,
                  [Submit([cmd], [imageAvailable[f]], [renderFinished[f]], inFlightFences[f]),
                   Present(swapchainR.swapchain, imageIndex, renderFinished[f])]);
    }

    /** The end of tick, after the present: an out-of-date or suboptimal
        present or a pending resize clears the resize flag and rebuilds the
        chain, any other failure raises, and a frame that does not raise
        moves to the next slot. */
    method AfterPresent(dev: Device, statics: ProcessStatics, p: Platform, presented: VkResult,
                        reports: seq<Extent2D>, idleAnswers: seq<VkResult>) returns (r: Outcome)
      requires Valid()
      requires SupportWellFormed(p.support) && EventuallyNonZero(reports) && Settles(idleAnswers)
      modifies this`extent, this`colorImage, this`depthImage, this`depthFormat, this`framebuffers
      modifies this`currentFrame, this`framebufferResized
      modifies swapchainR, dev, statics`swapchainDestroyed
      ensures Valid()
      ensures OnPresent(presented, old(framebufferResized)) == RecreateAfterPresent ==>
        r == BuildOutcome(p) && !framebufferResized
        && dev.calls == old(dev.calls) + old(RecreationFrom(FirstSettled(idleAnswers) + 1, statics.swapchainDestroyed,
                                                            dev.nextHandle, p, reports[FirstNonZero(reports)]))
        && (r == Done ==> ChainRebuilt(old(dev.nextHandle), |p.chainImages|, ChooseSwapExtent(p.support.capabilities, reports[FirstNonZero(reports)]),
          swapchainR.swapchain, swapchainR.views, extent, colorImage, depthImage, framebuffers))
        && currentFrame == (if r == Done then NextFrame(old(currentFrame)) else old(currentFrame))
      ensures OnPresent(presented, old(framebufferResized)) == AbortPresent ==>
        r == Fail(Fatal("failed to present!")) && unchanged(dev)
        && unchanged(this) && unchanged(swapchainR) && unchanged(statics)
      ensures OnPresent(presented, old(framebufferResized)) == Presented ==>
        r == Done && unchanged(dev)
        && currentFrame == NextFrame(old(currentFrame)) && framebufferResized == old(framebufferResized)
        && unchanged(this`framebuffers) && unchanged(this`extent) && unchanged(swapchainR) && unchanged(statics)
    {
      var next := OnPresent(presented, framebufferResized);
      if next == RecreateAfterPresent {
        framebufferResized := false;
        r := RecreateSwapChain(dev, statics, p, reports, idleAnswers);
        if r.Fail? {
          return;
        }
      } else if next == AbortPresent {
        return Fail(Fatal("failed to present!"));
      } else {
        r := Done;
      }
      currentFrame := NextFrame(currentFrame);
    }

    /** The rest of tick once the acquire succeeded: render and present the
        frame, then decide on the present's result. */
    method PresentFrame(dev: Device, statics: ProcessStatics, p: Platform, imageIndex: nat, presented: VkResult,
                        reports: seq<Extent2D>, idleAnswers: seq<VkResult>) returns (r: Outcome)
      requires Valid() && imageIndex < |framebuffers|
      requires SupportWellFormed(p.support) && EventuallyNonZero(reports) && Settles(idleAnswers)
      modifies this`extent, this`colorImage, this`depthImage, this`depthFormat, this`framebuffers
      modifies this`currentFrame, this`framebufferResized
      modifies swapchainR, dev, statics`swapchainDestroyed
      ensures Valid()
      ensures OnPresent(presented, old(framebufferResized)) == RecreateAfterPresent ==>
        r == BuildOutcome(p) && !framebufferResized
        && dev.calls == old(dev.calls) + old(FrameCalls(imageIndex))
             + old(RecreationFrom(FirstSettled(idleAnswers) + 1, statics.swapchainDestroyed, dev.nextHandle, p,
                                  reports[FirstNonZero(reports)]))
        && (r == Done ==> ChainRebuilt(old(dev.nextHandle), |p.chainImages|, ChooseSwapExtent(p.support.capabilities, reports[FirstNonZero(reports)]),
          swapchainR.swapchain, swapchainR.views, extent, colorImage, depthImage, framebuffers))
        && currentFrame == (if r == Done then NextFrame(old(currentFrame)) else old(currentFrame))
      ensures OnPresent(presented, old(framebufferResized)) == AbortPresent ==>
        r == Fail(Fatal("failed to present!")) && dev.calls == old(dev.calls) + old(FrameCalls(imageIndex))
        && unchanged(this) && unchanged(swapchainR) && unchanged(statics)
      ensures OnPresent(presented, old(framebufferResized)) == Presented ==>
        r == Done && dev.calls == old(dev.calls) + old(FrameCalls(imageIndex))
        && currentFrame == NextFrame(old(currentFrame)) && framebufferResized == old(framebufferResized)
        && unchanged(this`framebuffers) && unchanged(this`extent) && unchanged(swapchainR) && unchanged(statics)
    {
      ghost var recreation := RecreationFrom(FirstSettled(idleAnswers) + 1, statics.swapchainDestroyed,
                                             dev.nextHandle, p, reports[FirstNonZero(reports)]);
      RenderFrame(dev, imageIndex);
      assert RecreationFrom(FirstSettled(idleAnswers) + 1, statics.swapchainDestroyed, dev.nextHandle, p,
                            reports[FirstNonZero(reports)]) == recreation;
      r := AfterPresent(dev, statics, p, presented, reports, idleAnswers);
    }

    /** The part of tick after vkAcquireNextImageKHR: an out-of-date acquire
        rebuilds the chain and ends the tick with nothing reset, submitted or
        presented and the slot unchanged; any other failure raises; a
        successful or suboptimal acquire goes on to render and present. */
    method AfterAcquire(dev: Device, statics: ProcessStatics, p: Platform, acquired: VkResult, imageIndex: nat,
                        presented: VkResult, reports: seq<Extent2D>, idleAnswers: seq<VkResult>) returns (r: Outcome)
      requires Valid()
      requires SupportWellFormed(p.support) && EventuallyNonZero(reports) && Settles(idleAnswers)
      requires OnAcquire(acquired) == Render ==> imageIndex < |framebuffers|
      modifies this`extent, this`colorImage, this`depthImage, this`depthFormat, this`framebuffers
      modifies this`currentFrame, this`framebufferResized
      modifies swapchainR, dev, statics`swapchainDestroyed
      ensures Valid()
      ensures OnAcquire(acquired) == RecreateAndReturn ==>
        r == BuildOutcome(p)
        && dev.calls == old(dev.calls) + old(RecreationFrom(FirstSettled(idleAnswers) + 1, statics.swapchainDestroyed,
                                                            dev.nextHandle, p, reports[FirstNonZero(reports)]))
        && (r == Done ==> ChainRebuilt(old(dev.nextHandle), |p.chainImages|, ChooseSwapExtent(p.support.capabilities, reports[FirstNonZero(reports)]),
          swapchainR.swapchain, swapchainR.views, extent, colorImage, depthImage, framebuffers))
        && currentFrame == old(currentFrame) && framebufferResized == old(framebufferResized)
      ensures OnAcquire(acquired) == AbortAcquire ==>
        r == Fail(Fatal("failed to acquire swap chain image!")) && unchanged(dev)
        && unchanged(this) && unchanged(swapchainR) && unchanged(statics)
      ensures OnAcquire(acquired) == Render && OnPresent(presented, old(framebufferResized)) == RecreateAfterPresent ==>
        r == BuildOutcome(p) && !framebufferResized
        && dev.calls == old(dev.calls) + old(FrameCalls(imageIndex))
             + old(RecreationFrom(FirstSettled(idleAnswers) + 1, statics.swapchainDestroyed, dev.nextHandle, p,
                                  reports[FirstNonZero(reports)]))
        && (r == Done ==> ChainRebuilt(old(dev.nextHandle), |p.chainImages|, ChooseSwapExtent(p.support.capabilities, reports[FirstNonZero(reports)]),
          swapchainR.swapchain, swapchainR.views, extent, colorImage, depthImage, framebuffers))
        && currentFrame == (if r == Done then NextFrame(old(currentFrame)) else old(currentFrame))
      ensures OnAcquire(acquired) == Render && OnPresent(presented, old(framebufferResized)) == AbortPresent ==>
        r == Fail(Fatal("failed to present!")) && dev.calls == old(dev.calls) + old(FrameCalls(imageIndex))
        && unchanged(this) && unchanged(swapchainR) && unchanged(statics)
      ensures OnAcquire(acquired) == Render && OnPresent(presented, old(framebufferResized)) == Presented ==>
        r == Done && dev.calls == old(dev.calls) + old(FrameCalls(imageIndex))
        && currentFrame == NextFrame(old(currentFrame)) && framebufferResized == old(framebufferResized)
        && unchanged(this`framebuffers) && unchanged(this`extent) && unchanged(swapchainR) && unchanged(statics)
    {
      var decision := OnAcquire(acquired);
      if decision == RecreateAndReturn {
        r := RecreateSwapChain(dev, statics, p, reports, idleAnswers);
      } else if decision == AbortAcquire {
        r := Fail(Fatal("failed to acquire swap chain image!"));
      } else {
        r := PresentFrame(dev, statics, p, imageIndex, presented, reports, idleAnswers);
      }
    }

    /** tick: one frame on slot `currentFrame`.  The fence wait is retried on
        timeout and a timeout is never an error; the acquire follows, and
        what happens next depends on its result and on the present's. */
    method Tick(dev: Device, statics: ProcessStatics, p: Platform, fenceAnswers: seq<VkResult>,
                acquired: VkResult, imageIndex: nat, presented: VkResult,
                reports: seq<Extent2D>, idleAnswers: seq<VkResult>) returns (r: Outcome)
      requires Valid() && Settles(fenceAnswers)
      requires SupportWellFormed(p.support) && EventuallyNonZero(reports) && Settles(idleAnswers)
      requires OnAcquire(acquired) == Render ==> imageIndex < |framebuffers|
      modifies this`extent, this`colorImage, this`depthImage, this`depthFormat, this`framebuffers
      modifies this`currentFrame, this`framebufferResized
      modifies swapchainR, dev, statics`swapchainDestroyed
      ensures Valid()
      ensures OnAcquire(acquired) == RecreateAndReturn ==>
        r == BuildOutcome(p)
        && dev.calls == old(dev.calls) + old(FrameStart(FirstSettled(fenceAnswers) + 1))
             + old(RecreationFrom(FirstSettled(idleAnswers) + 1, statics.swapchainDestroyed, dev.nextHandle, p,
                                  reports[FirstNonZero(reports)]))
        && (r == Done ==> ChainRebuilt(old(dev.nextHandle), |p.chainImages|, ChooseSwapExtent(p.support.capabilities, reports[FirstNonZero(reports)]),
          swapchainR.swapchain, swapchainR.views, extent, colorImage, depthImage, framebuffers))
        && currentFrame == old(currentFrame) && framebufferResized == old(framebufferResized)
      ensures OnAcquire(acquired) == AbortAcquire ==>
        r == Fail(Fatal("failed to acquire swap chain image!"))
        && dev.calls == old(dev.calls) + old(FrameStart(FirstSettled(fenceAnswers) + 1))
        && unchanged(this) && unchanged(swapchainR) && unchanged(statics)
      ensures OnAcquire(acquired) == Render && OnPresent(presented, old(framebufferResized)) == RecreateAfterPresent ==>
        r == BuildOutcome(p) && !framebufferResized
        && dev.calls == old(dev.calls) + old(FrameStart(FirstSettled(fenceAnswers) + 1)) + old(FrameCalls(imageIndex))
             + old(RecreationFrom(FirstSettled(idleAnswers) + 1, statics.swapchainDestroyed, dev.nextHandle, p,
                                  reports[FirstNonZero(reports)]))
        && (r == Done ==> ChainRebuilt(old(dev.nextHandle), |p.chainImages|, ChooseSwapExtent(p.support.capabilities, reports[FirstNonZero(reports)]),
          swapchainR.swapchain, swapchainR.views, extent, colorImage, depthImage, framebuffers))
        && currentFrame == (if r == Done then NextFrame(old(currentFrame)) else old(currentFrame))
      ensures OnAcquire(acquired) == Render && OnPresent(presented, old(framebufferResized)) == AbortPresent ==>
        r == Fail(Fatal("failed to present!"))
        && dev.calls == old(dev.calls) + old(FrameStart(FirstSettled(fenceAnswers) + 1)) + old(FrameCalls(imageIndex))
        && unchanged(this) && unchanged(swapchainR) && unchanged(statics)
      ensures OnAcquire(acquired) == Render && OnPresent(presented, old(framebufferResized)) == Presented ==>
        r == Done
        && dev.calls == old(dev.calls) + old(FrameStart(FirstSettled(fenceAnswers) + 1)) + old(FrameCalls(imageIndex))
        && currentFrame == NextFrame(old(currentFrame)) && framebufferResized == old(framebufferResized)
        && unchanged(this`framebuffers) && unchanged(this`extent) && unchanged(swapchainR) && unchanged(statics)
    {
      ghost var recreation := RecreationFrom(FirstSettled(idleAnswers) + 1, statics.swapchainDestroyed,
                                             dev.nextHandle, p, reports[FirstNonZero(reports)]);
      BeginFrame(dev, fenceAnswers);
      assert RecreationFrom(FirstSettled(idleAnswers) + 1, statics.swapchainDestroyed, dev.nextHandle, p,
                            reports[FirstNonZero(reports)]) == recreation;
      assert OnAcquire(acquired) == Render ==> FrameCalls(imageIndex) == old(FrameCalls(imageIndex));
      r := AfterAcquire(dev, statics, p, acquired, imageIndex, presented, reports, idleAnswers);
    }
  }

  /** createSyncObjects' calls for the first `n` slots, from handle `start`. */
  function SyncCreates(start: Handle, n: nat): (cs: seq<Call>)
    ensures |cs| == 3 * n
  {
    if n == 0 then []
    else
      SyncCreates(start, n - 1)
      + [CreateSemaphore(start + 3 * (n - 1)), CreateSemaphore(start + 3 * (n - 1) + 1), CreateFence(start + 3 * (n - 1) + 2, true)]
  }

  /** Every fence createSyncObjects makes starts signalled. */
  lemma {:induction false} SyncFencesStartSignalled(start: Handle, n: nat, i: nat)
    requires i < 3 * n && SyncCreates(start, n)[i].CreateFence?
    ensures SyncCreates(start, n)[i].signaled
    ensures i % 3 == 2 && SyncCreates(start, n)[i].fence == start + i
  {
    if i < 3 * (n - 1) {
      SyncFencesStartSignalled(start, n - 1, i);
    }
  }
}
