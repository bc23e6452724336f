// VulkanGraphics of the older revision: the choice of a physical device, the
// per-frame uniform buffers and descriptor pool, the frame-in-flight loop
// with its extra command buffers, and the order of the final teardown.  The
// instance, the physical devices and the window are inputs: a
// PhysicalDevice record for what each device reports, sequences of answers
// for the calls that are retried, and the GPU trace for what the engine asks
// of the device.
module LegacyGraphics {
  import opened Wrappers
  import opened Vk
  import opened Gpu
  import opened Commands
  import opened FrameRules
  import opened GraphicsDetail
  import opened BufferCommon
  import opened LegacyBuffers
  import opened LegacySwapchain
  import opened LegacyDescriptors
  import opened LegacyTextures
  import opened LegacyRenderPasses
  import opened LegacyModelFile
  import opened DescriptorSets
  import opened TextureRules
  import CoreGraphics
  import Scenes

  // ---------------------------------------------------------------------------
  // Choosing the physical device

  /** The one device extension the renderer asks for. */
  const SWAPCHAIN_EXTENSION: string := "VK_KHR_swapchain"
  const DEVICE_EXTENSIONS: seq<string> := [SWAPCHAIN_EXTENSION]

  const NO_VULKAN_GPU: Error := Fatal("Failed to find GPUs with Vulkan support.")
  const NO_SUITABLE_GPU: Error := Fatal("Failed to find suitable GPU.")

  /** What one physical device reports to isDeviceSuitable and to the
      sample-count query: its queue families, its extension names, the
      surface formats and present modes it offers, the samplerAnisotropy
      feature, and the sample counts its colour and depth framebuffers
      support. */
  datatype PhysicalDevice = PhysicalDevice(
    families: seq<QueueFamily>,
    extensions: seq<string>,
    formats: seq<SurfaceFormat>,
    presentModes: seq<PresentMode>,
    samplerAnisotropy: bool,
    colorCounts: set<nat>,
    depthCounts: set<nat>)

  /** checkDeviceExtensionSupport's verdict on the required list. */
  predicate ExtensionsSupported(available: seq<string>)
  {
    (|set n | n in DEVICE_EXTENSIONS| - MatchCount(available, set n | n in DEVICE_EXTENSIONS)) % SIZE_MODULUS == 0
  }

  /** A device the renderer can use: complete queue families, the required
      extensions, at least one surface format and one present mode, and
      sampler anisotropy. */
  predicate Suitable(d: PhysicalDevice)
  {
    ScanQueueFamilies(d.families).Ok? && ExtensionsSupported(d.extensions)
    && |d.formats| > 0 && |d.presentModes| > 0 && d.samplerAnisotropy
  }

  /** isDeviceSuitable as written: it starts by constructing
      QueueFamilyIndices, whose constructor raises on a device without a
      graphics and a presenting family, before anything else is looked at. */
  function SuitabilityAsWritten(d: PhysicalDevice): Result<bool>
  {
    match ScanQueueFamilies(d.families)
    case Err(e) => Err(e)
    case Ok(ix) =>
      Ok(ix.IsComplete() && ExtensionsSupported(d.extensions)
         && |d.formats| > 0 && |d.presentModes| > 0 && d.samplerAnisotropy)
  }

  /** A queue-family scan that succeeds has found both families. */
  lemma {:induction false} ScanFromComplete(fs: seq<QueueFamily>, i: nat, ix: QueueFamilyIndices)
    requires ScanFrom(fs, i, ix).Ok?
    ensures ScanFrom(fs, i, ix).value.IsComplete()
    decreases |fs| - i
  {
    var next := ScanStep(ix, fs[i], i);
    if !next.IsComplete() {
      ScanFromComplete(fs, i + 1, next);
    }
  }

  /** isDeviceSuitable raises exactly on a device whose queue families are
      incomplete, and such a device is not suitable; otherwise it answers
      whether the device is suitable. */
  lemma SuitabilityAsWrittenSpec(d: PhysicalDevice)
    ensures SuitabilityAsWritten(d).Err? <==> ScanQueueFamilies(d.families).Err?
    ensures SuitabilityAsWritten(d).Err? ==>
      SuitabilityAsWritten(d).error == Fatal("Cannot find suitable queue families!") && !Suitable(d)
    ensures SuitabilityAsWritten(d).Ok? ==> SuitabilityAsWritten(d).value == Suitable(d)
  {
    if ScanQueueFamilies(d.families).Ok? {
      ScanFromComplete(d.families, 0, QueueFamilyIndices(None, None));
    }
  }

  /** isDeviceSuitable: the queue-family scan, the extension count, the
      surface formats and present modes (queried only when the extensions
      are there), then the anisotropy feature. */
  method IsDeviceSuitable(d: PhysicalDevice) returns (r: Result<bool>)
    ensures r == SuitabilityAsWritten(d)
  {
    var indices := FindQueueFamilies(d.families);
    if indices.Err? {
      return Err(indices.error);
    }
    assert (set n | n in DEVICE_EXTENSIONS) == {SWAPCHAIN_EXTENSION};
    var extensionsSupported := CheckDeviceExtensionSupport(d.extensions, DEVICE_EXTENSIONS);
    var swapChainAdequate := false;
    if extensionsSupported {
      swapChainAdequate := |d.formats| > 0 && |d.presentModes| > 0;
    }
    return Ok(indices.value.IsComplete() && extensionsSupported && swapChainAdequate && d.samplerAnisotropy);
  }

  /** Where pickPhysicalDevice's walk over the devices ends. */
  datatype Walk = Picked(index: nat) | NonePicked | Raised(error: Error)

  /** The walk as written, from device i on: the first device found suitable
      is taken, and a device whose check raises ends the walk with that
      error. */
  function WalkFrom(devices: seq<PhysicalDevice>, i: nat): (w: Walk)
    requires i <= |devices|
    ensures w.Picked? ==> i <= w.index < |devices| && SuitabilityAsWritten(devices[w.index]) == Ok(true)
    ensures w.Raised? ==> w.error == Fatal("Cannot find suitable queue families!")
    decreases |devices| - i
  {
    if i == |devices| then NonePicked
    else
      match SuitabilityAsWritten(devices[i])
      case Err(e) => Raised(e)
      case Ok(suitable) => if suitable then Picked(i) else WalkFrom(devices, i + 1)
  }

  /** The intended walk: the first suitable device from i on. */
  function FirstSuitableFrom(devices: seq<PhysicalDevice>, i: nat): Option<nat>
    requires i <= |devices|
    decreases |devices| - i
  {
    if i == |devices| then None
    else if Suitable(devices[i]) then Some(i)
    else FirstSuitableFrom(devices, i + 1)
  }

  /** FirstSuitableFrom finds the least suitable index from i on, and finds
      nothing only when no device from i on is suitable. */
  lemma {:induction false} FirstSuitableFromSpec(devices: seq<PhysicalDevice>, i: nat)
    requires i <= |devices|
    ensures FirstSuitableFrom(devices, i).Some? ==>
      var k := FirstSuitableFrom(devices, i).value;
      i <= k < |devices| && Suitable(devices[k]) && forall j :: i <= j < k ==> !Suitable(devices[j])
    ensures FirstSuitableFrom(devices, i).None? ==> forall j :: i <= j < |devices| ==> !Suitable(devices[j])
    decreases |devices| - i
  {
    if i < |devices| && !Suitable(devices[i]) {
      FirstSuitableFromSpec(devices, i + 1);
    }
  }

  /** Where every device has complete queue families, the walk as written
      and the intended walk agree. */
  lemma {:induction false} WalkAgreesWhenFamiliesComplete(devices: seq<PhysicalDevice>, i: nat)
    requires i <= |devices|
    requires forall j :: i <= j < |devices| ==> ScanQueueFamilies(devices[j].families).Ok?
    ensures WalkFrom(devices, i) == match FirstSuitableFrom(devices, i)
                                   case Some(k) => Picked(k)
                                   case None => NonePicked
    decreases |devices| - i
  {
    if i < |devices| {
      SuitabilityAsWrittenSpec(devices[i]);
      WalkAgreesWhenFamiliesComplete(devices, i + 1);
    }
  }

  /** A device the renderer could use, and one without any presenting
      queue family. */
  const USABLE_DEVICE: PhysicalDevice :=
    PhysicalDevice([QueueFamily(true, true)], DEVICE_EXTENSIONS, [SurfaceFormat(B8G8R8A8Srgb, SrgbNonlinear)],
                   [Fifo], true, {}, {})
  const HEADLESS_DEVICE: PhysicalDevice := USABLE_DEVICE.(families := [QueueFamily(true, false)])

  /** As written, a first device that cannot present aborts the pick with
      the queue-family error, although the second device is suitable and is
      the one the intended rule takes. */
  lemma HeadlessFirstDeviceAbortsPick()
    ensures WalkFrom([HEADLESS_DEVICE, USABLE_DEVICE], 0) == Raised(Fatal("Cannot find suitable queue families!"))
    ensures FirstSuitableFrom([HEADLESS_DEVICE, USABLE_DEVICE], 0) == Some(1)
  {
    assert ScanStep(QueueFamilyIndices(None, None), QueueFamily(true, true), 0).IsComplete();
    assert !ScanStep(QueueFamilyIndices(None, None), QueueFamily(true, false), 0).IsComplete();
    assert (set n | n in DEVICE_EXTENSIONS) == {SWAPCHAIN_EXTENSION};
    assert MatchCount(DEVICE_EXTENSIONS, {SWAPCHAIN_EXTENSION}) == 1 by {
      assert DEVICE_EXTENSIONS[..0] == [];
    }
    assert Suitable(USABLE_DEVICE);
  }

  // ---------------------------------------------------------------------------
  // The calls each step issues

  /** The descriptor pool sizes createDescriptor asks for: one uniform
      buffer and one combined image sampler per frame in flight. */
  const DESCRIPTOR_POOL_SIZES: seq<PoolSize> :=
    [PoolSize(UniformBuffer, MAX_FRAMES_IN_FLIGHT), PoolSize(CombinedImageSampler, MAX_FRAMES_IN_FLIGHT)]

  /** recordCommandBuffer: begin, render pass over the whole extent,
      pipeline, viewport and scissor, the model's vertex and index buffers,
      the slot's descriptor set, one indexed draw over the model's indices,
      the overlay, then end. */
  function RecordCalls(cmd: Handle, renderPass: Handle, framebuffer: Handle, extent: Extent2D, pipeline: Handle,
                       vertexBuffer: Handle, indexBuffer: Handle, descriptorSet: Handle, indexCount: nat): seq<Call>
  {
    CoreGraphics.RecordPrologue(cmd, renderPass, framebuffer, extent, pipeline)
      + [BindVertexBuffer(cmd, vertexBuffer), BindIndexBuffer(cmd, indexBuffer), BindDescriptorSet(cmd, descriptorSet),
         DrawIndexed(cmd, indexCount), RenderOverlay(cmd), EndRenderPass(cmd), EndCommandBuffer(cmd)]
  }

  /** The recording binds the given descriptor set and draws exactly once,
      with the given index count, inside the render pass and after the
      buffers and the set are bound. */
  lemma RecordDrawsOnce(cmd: Handle, renderPass: Handle, framebuffer: Handle, extent: Extent2D, pipeline: Handle,
                        vertexBuffer: Handle, indexBuffer: Handle, descriptorSet: Handle, indexCount: nat)
    ensures var cs := RecordCalls(cmd, renderPass, framebuffer, extent, pipeline, vertexBuffer, indexBuffer,
                                  descriptorSet, indexCount);
      |cs| == 12
      && cs[1] == BeginRenderPass(cmd, renderPass, framebuffer, extent)
      && cs[7] == BindDescriptorSet(cmd, descriptorSet)
      && cs[8] == DrawIndexed(cmd, indexCount)
      && cs[10] == EndRenderPass(cmd)
      && (forall i :: 0 <= i < |cs| && cs[i].DrawIndexed? ==> i == 8)
      && (forall i :: 0 <= i < |cs| && cs[i].BindDescriptorSet? ==> i == 7)
  {
  }

  /** What one rendered frame issues between the acquire and the present:
      the slot's uniform update, the fence and command-buffer resets, the
      recording, one submit of the extra buffers followed by the slot's own
      buffer, and the present. */
  function FrameWork(slot: nat, fence: Handle, cmd: Handle, extra: seq<Handle>, imageAvailable: Handle,
                     renderFinished: Handle, swapchain: Handle, imageIndex: nat, record: seq<Call>): seq<Call>
  {
    [UpdateUniform(slot), ResetFence(fence), ResetCommandBuffer(cmd)] + record
      + [Submit(extra + [cmd], [imageAvailable], [renderFinished], fence), Present(swapchain, imageIndex, renderFinished)]
  }

  /** The uniform buffer of the slot is written first, before the fence is
      reset; the one submit carries the extra buffers in their order, then
      the slot's buffer last, and waits on the image-available semaphore. */
  lemma FrameWorkOrder(slot: nat, fence: Handle, cmd: Handle, extra: seq<Handle>, imageAvailable: Handle,
                       renderFinished: Handle, swapchain: Handle, imageIndex: nat, record: seq<Call>)
    requires forall c :: c in record ==> !c.Submit? && !c.UpdateUniform?
    ensures var cs := FrameWork(slot, fence, cmd, extra, imageAvailable, renderFinished, swapchain, imageIndex, record);
      cs[0] == UpdateUniform(slot) && cs[1] == ResetFence(fence)
      && (forall i :: 0 <= i < |cs| && cs[i].UpdateUniform? ==> i == 0)
      && (forall i :: 0 <= i < |cs| && cs[i].Submit? ==> i == |cs| - 2)
      && cs[|cs| - 2].Submit? && cs[|cs| - 2].cmds[..|extra|] == extra && cs[|cs| - 2].cmds[|extra|] == cmd
      && |cs[|cs| - 2].cmds| == |extra| + 1 && cs[|cs| - 2].waitSemaphores == [imageAvailable]
  {
    var cs := FrameWork(slot, fence, cmd, extra, imageAvailable, renderFinished, swapchain, imageIndex, record);
    forall i | 3 <= i < 3 + |record|
      ensures cs[i] == record[i - 3]
    {
    }
  }

  /** The calls cleanup issues after the resource classes, from the
      pipeline to the instance: the pipeline and its layout, the render pass
      while it holds a device, each slot's two semaphores and fence, the
      command pool, then the device, the debug messenger in a debug build,
      the surface and the instance. */
  function DeviceReleases(pipeline: Handle, pipelineLayout: Handle, renderPassLive: bool, renderPass: Handle,
                          imageAvailable: seq<Handle>, renderFinished: seq<Handle>, fences: seq<Handle>,
                          commandPool: Handle, device: Handle, debugMessenger: Handle, surface: Handle,
                          instance: Handle, inDebug: bool): seq<Call>
    requires |imageAvailable| == |renderFinished| == |fences| == MAX_FRAMES_IN_FLIGHT
  {
    BeforeDevice(pipeline, pipelineLayout, renderPassLive, renderPass, imageAvailable, renderFinished, fences,
                 commandPool)
      + FinalReleases(device, debugMessenger, surface, instance, inDebug)
  }

  /** What cleanup destroys of the device's own objects, before the device:
      the pipeline and its layout, the render pass, the slots' semaphores
      and fences, the command pool. */
  function BeforeDevice(pipeline: Handle, pipelineLayout: Handle, renderPassLive: bool, renderPass: Handle,
                        imageAvailable: seq<Handle>, renderFinished: seq<Handle>, fences: seq<Handle>,
                        commandPool: Handle): seq<Call>
    requires |imageAvailable| == |renderFinished| == |fences| == MAX_FRAMES_IN_FLIGHT
  {
    [DestroyObject(PipelineObject, pipeline), DestroyObject(PipelineLayoutObject, pipelineLayout)]
      + (if renderPassLive then [DestroyObject(RenderPassObject, renderPass)] else [])
      + SyncDestroys(imageAvailable, renderFinished, fences, MAX_FRAMES_IN_FLIGHT)
      + [DestroyObject(CommandPoolObject, commandPool)]
  }

  /** None of the device's own objects is a debug messenger. */
  lemma BeforeDeviceNoMessenger(pipeline: Handle, pipelineLayout: Handle, renderPassLive: bool, renderPass: Handle,
                                imageAvailable: seq<Handle>, renderFinished: seq<Handle>, fences: seq<Handle>,
                                commandPool: Handle)
    requires |imageAvailable| == |renderFinished| == |fences| == MAX_FRAMES_IN_FLIGHT
    ensures var front := BeforeDevice(pipeline, pipelineLayout, renderPassLive, renderPass, imageAvailable,
                                      renderFinished, fences, commandPool);
      forall k :: 0 <= k < |front| ==> !(front[k].DestroyObject? && front[k].kind == DebugMessengerObject)
  {
    SyncDestroysKinds(imageAvailable, renderFinished, fences, MAX_FRAMES_IN_FLIGHT);
    var front := BeforeDevice(pipeline, pipelineLayout, renderPassLive, renderPass, imageAvailable,
                              renderFinished, fences, commandPool);
    forall k | 0 <= k < |front|
      ensures !(front[k].DestroyObject? && front[k].kind == DebugMessengerObject)
    {
      assert front[k] in front;
    }
  }

  /** The last four steps of cleanup. */
  function FinalReleases(device: Handle, debugMessenger: Handle, surface: Handle, instance: Handle, inDebug: bool)
    : seq<Call>
  {
    [DestroyObject(DeviceObject, device)]
      + (if inDebug then [DestroyObject(DebugMessengerObject, debugMessenger)] else [])
      + [DestroyObject(SurfaceObject, surface), DestroyObject(InstanceObject, instance)]
  }

  /** The semaphores and fences of the first n slots, slot by slot. */
  function SyncDestroys(imageAvailable: seq<Handle>, renderFinished: seq<Handle>, fences: seq<Handle>, n: nat)
    : seq<Call>
    requires n <= |imageAvailable| && n <= |renderFinished| && n <= |fences|
  {
    if n == 0 then []
    else
      SyncDestroys(imageAvailable, renderFinished, fences, n - 1)
      + [DestroyObject(SemaphoreObject, imageAvailable[n - 1]), DestroyObject(SemaphoreObject, renderFinished[n - 1]),
         DestroyObject(FenceObject, fences[n - 1])]
  }

  /** Every slot's image-available semaphore, render-finished semaphore and
      fence are destroyed, in that order, slot after slot. */
  lemma {:induction false} SyncDestroysEverySlot(imageAvailable: seq<Handle>, renderFinished: seq<Handle>,
                                                 fences: seq<Handle>, n: nat, k: nat)
    requires n <= |imageAvailable| && n <= |renderFinished| && n <= |fences| && k < n
    ensures |SyncDestroys(imageAvailable, renderFinished, fences, n)| == 3 * n
    ensures SyncDestroys(imageAvailable, renderFinished, fences, n)[3 * k] == DestroyObject(SemaphoreObject, imageAvailable[k])
    ensures SyncDestroys(imageAvailable, renderFinished, fences, n)[3 * k + 1] == DestroyObject(SemaphoreObject, renderFinished[k])
    ensures SyncDestroys(imageAvailable, renderFinished, fences, n)[3 * k + 2] == DestroyObject(FenceObject, fences[k])
  {
    SyncDestroysLength(imageAvailable, renderFinished, fences, n - 1);
    if k < n - 1 {
      SyncDestroysEverySlot(imageAvailable, renderFinished, fences, n - 1, k);
    }
  }

  lemma {:induction false} SyncDestroysLength(imageAvailable: seq<Handle>, renderFinished: seq<Handle>,
                                              fences: seq<Handle>, n: nat)
    requires n <= |imageAvailable| && n <= |renderFinished| && n <= |fences|
    ensures |SyncDestroys(imageAvailable, renderFinished, fences, n)| == 3 * n
  {
    if n > 0 {
      SyncDestroysLength(imageAvailable, renderFinished, fences, n - 1);
    }
  }

  /** Only semaphores and fences are destroyed by the slot loop. */
  lemma {:induction false} SyncDestroysKinds(imageAvailable: seq<Handle>, renderFinished: seq<Handle>,
                                             fences: seq<Handle>, n: nat)
    requires n <= |imageAvailable| && n <= |renderFinished| && n <= |fences|
    ensures forall c :: c in SyncDestroys(imageAvailable, renderFinished, fences, n) ==>
      c.DestroyObject? && (c.kind == SemaphoreObject || c.kind == FenceObject)
  {
    if n > 0 {
      SyncDestroysKinds(imageAvailable, renderFinished, fences, n - 1);
    }
  }

  /** The device is destroyed after everything made from it, the debug
      messenger only in a debug build and after the device, and the
      instance last, after the surface. */
  lemma DeviceReleasesEnd(pipeline: Handle, pipelineLayout: Handle, renderPassLive: bool, renderPass: Handle,
                          imageAvailable: seq<Handle>, renderFinished: seq<Handle>, fences: seq<Handle>,
                          commandPool: Handle, device: Handle, debugMessenger: Handle, surface: Handle,
                          instance: Handle, inDebug: bool)
    requires |imageAvailable| == |renderFinished| == |fences| == MAX_FRAMES_IN_FLIGHT
    ensures var cs := DeviceReleases(pipeline, pipelineLayout, renderPassLive, renderPass, imageAvailable,
                                     renderFinished, fences, commandPool, device, debugMessenger, surface,
                                     instance, inDebug);
      var tail := if inDebug then 3 else 2;
      |cs| > tail
      && cs[|cs| - tail - 1] == DestroyObject(DeviceObject, device)
      && (inDebug ==> cs[|cs| - 3] == DestroyObject(DebugMessengerObject, debugMessenger))
      && (forall i :: 0 <= i < |cs| && cs[i].DestroyObject? && cs[i].kind == DebugMessengerObject ==> inDebug)
      && cs[|cs| - 2] == DestroyObject(SurfaceObject, surface)
      && cs[|cs| - 1] == DestroyObject(InstanceObject, instance)
  {
    BeforeDeviceNoMessenger(pipeline, pipelineLayout, renderPassLive, renderPass, imageAvailable, renderFinished,
                            fences, commandPool);
    var front := BeforeDevice(pipeline, pipelineLayout, renderPassLive, renderPass, imageAvailable,
                              renderFinished, fences, commandPool);
    FinalTail(front, device, debugMessenger, surface, instance, inDebug);
  }

  /** Whatever precedes the final releases, when it destroys no debug
      messenger: the device, the messenger in a debug build only, the
      surface and the instance close the sequence. */
  lemma FinalTail(front: seq<Call>, device: Handle, debugMessenger: Handle, surface: Handle, instance: Handle,
                  inDebug: bool)
    requires forall k :: 0 <= k < |front| ==> !(front[k].DestroyObject? && front[k].kind == DebugMessengerObject)
    ensures var cs := front + FinalReleases(device, debugMessenger, surface, instance, inDebug);
      var tail := if inDebug then 3 else 2;
      |cs| > tail
      && cs[|cs| - tail - 1] == DestroyObject(DeviceObject, device)
      && (inDebug ==> cs[|cs| - 3] == DestroyObject(DebugMessengerObject, debugMessenger))
      && (forall i :: 0 <= i < |cs| && cs[i].DestroyObject? && cs[i].kind == DebugMessengerObject ==> inDebug)
      && cs[|cs| - 2] == DestroyObject(SurfaceObject, surface)
      && cs[|cs| - 1] == DestroyObject(InstanceObject, instance)
  {
    var fin := FinalReleases(device, debugMessenger, surface, instance, inDebug);
    var cs := front + fin;
    forall i | |front| <= i < |cs| && cs[i].DestroyObject? && cs[i].kind == DebugMessengerObject
      ensures inDebug
    {
      assert cs[i] == fin[i - |front|];
    }
  }


  // ---------------------------------------------------------------------------
  // The uniform buffers' inits, one step at a time

  /** One uniform buffer's init, with the size of the uniform buffer
      object. */
  method InitUniform(dev: Device, u: BufferResourceUniform, q: MemoryQuery, ghost before: seq<Call>, ghost h: Handle)
    returns (r: Outcome)
    requires QueryWellFormed(q) && dev.calls == before && dev.nextHandle == h
    modifies u, dev
    ensures u.bufferSize == UNIFORM_BUFFER_OBJECT_SIZE
    ensures MemoryTypeFor(q, HOST_VISIBLE_COHERENT).Err? ==> r == Fail(MemoryTypeFor(q, HOST_VISIBLE_COHERENT).error)
    ensures MemoryTypeFor(q, HOST_VISIBLE_COHERENT).Ok? ==> r == Done && dev.nextHandle == h + 2
    ensures dev.calls == before + Scenes.UniformInitCalls(h, q)
  {
    r := u.Init(dev, UNIFORM_BUFFER_OBJECT_SIZE, q);
    if r.Done? {
      AppendAssoc(before, CreateBufferCalls(u.buffer, u.memory, UNIFORM_BUFFER_OBJECT_SIZE, BUFFER_USAGE_UNIFORM,
                                            MemoryTypeFor(q, HOST_VISIBLE_COHERENT).value),
                  [MapMemory(u.memory, UNIFORM_BUFFER_OBJECT_SIZE)]);
    }
  }

  /** The i-th uniform buffer's init, one step of the walk. */
  method InitStep(dev: Device, u: BufferResourceUniform, qs: seq<MemoryQuery>, i: nat, ghost base: seq<Call>, ghost start: Handle)
    returns (r: Outcome)
    requires Scenes.QueriesWellFormed(qs) && i < |qs|
    requires Scenes.UniformWalkAt(base, start, dev.calls, dev.nextHandle, qs, i)
    modifies u, dev
    ensures u.bufferSize == UNIFORM_BUFFER_OBJECT_SIZE
    ensures r.Done? ==> Scenes.UniformWalkAt(base, start, dev.calls, dev.nextHandle, qs, i + 1)
    ensures r.Fail? ==>
      Scenes.UniformsDone(qs) == i && r == Scenes.UniformsOutcome(qs)
      && dev.calls == base + Scenes.UniformsCallsFrom(start, qs, 0)
  {
    ghost var before := dev.calls;
    ghost var h := dev.nextHandle;
    r := InitUniform(dev, u, qs[i], before, h);
    Scenes.UniformsWalkStep(base, start, before, h, qs, i, dev.calls, dev.nextHandle);
  }

  // ---------------------------------------------------------------------------
  // Rebuilding the chain

  /** What createSwapChain, createExtent, createColorResources,
      createDepthResources and createFramebuffers leave behind when run from
      a given handle for a given window size: the calls they issue, the
      handles they take, whether they raise, and the chain, its views, the
      extent, the two attachments and the framebuffers they store. */
  datatype ChainRebuild = ChainRebuild(
    calls: seq<Call>,
    handles: nat,
    outcome: Outcome,
    swapchain: Handle,
    views: seq<Handle>,
    extent: Extent2D,
    color: Handle,
    depth: Handle,
    framebuffers: seq<Handle>)

  // ---------------------------------------------------------------------------
  // Releasing buffers

  /** What destroy reads of one buffer: whether it holds a device, and its
      buffer and memory. */
  datatype BufferState = BufferState(live: bool, buffer: Handle, memory: Handle)

  function Snapshot(us: seq<BufferResourceUniform>): (r: seq<BufferState>)
    reads us
    ensures |r| == |us|
  {
    if us == [] then []
    else Snapshot(us[..|us| - 1]) + [BufferState(us[|us| - 1].hasDevice, us[|us| - 1].buffer, us[|us| - 1].memory)]
  }

  /** The snapshot's i-th entry is the i-th buffer's state. */
  lemma {:induction false} SnapshotAt(us: seq<BufferResourceUniform>, i: nat)
    requires i < |us|
    ensures Snapshot(us)[i] == BufferState(us[i].hasDevice, us[i].buffer, us[i].memory)
  {
    if i < |us| - 1 {
      SnapshotAt(us[..|us| - 1], i);
    }
  }

  /** One buffer's destroy: its buffer and its memory if it holds a device,
      else nothing. */
  function BufferRelease(s: BufferState): seq<Call>
  {
    if s.live then BufferDestroys(s.buffer, s.memory) else []
  }

  /** Destroying each buffer in list order. */
  function Releases(bs: seq<BufferState>): seq<Call>
  {
    if bs == [] then [] else Releases(bs[..|bs| - 1]) + BufferRelease(bs[|bs| - 1])
  }

  /** Releasing one more buffer appends its release. */
  lemma ReleasesSnoc(bs: seq<BufferState>, i: nat)
    requires i < |bs|
    ensures Releases(bs[..i + 1]) == Releases(bs[..i]) + BufferRelease(bs[i])
  {
    assert bs[..i + 1][..i] == bs[..i];
  }

  /** Each buffer's destroy, in list order. */
  method DestroyEach(dev: Device, us: seq<BufferResourceUniform>)
    requires forall i, j :: 0 <= i < j < |us| ==> us[i] != us[j]
    modifies dev`calls, us`hasDevice
    ensures forall i :: 0 <= i < |us| ==> !us[i].hasDevice
    ensures dev.calls == old(dev.calls) + old(Releases(Snapshot(us)))
  {
    ghost var snap := Snapshot(us);
    forall k | 0 <= k < |us|
      ensures snap[k] == BufferState(us[k].hasDevice, us[k].buffer, us[k].memory)
    {
      SnapshotAt(us, k);
    }
    var i := 0;
    while i < |us|
      invariant 0 <= i <= |us|
      invariant dev.calls == old(dev.calls) + Releases(snap[..i])
      invariant forall k :: i <= k < |us| ==> snap[k] == BufferState(us[k].hasDevice, us[k].buffer, us[k].memory)
      invariant forall k :: 0 <= k < i ==> !us[k].hasDevice
    {
      ReleasesSnoc(snap, i);
      us[i].Destroy(dev);
      i := i + 1;
    }
    assert snap[..i] == snap;
  }

  /** `c` is the release of the buffer or the memory of a live buffer `s`. */
  predicate ReleasedBy(c: Call, s: BufferState)
  {
    s.live && (c == DestroyObject(BufferObject, s.buffer) || c == DestroyObject(MemoryObject, s.memory))
  }

  /** Every buffer that holds a device has its buffer and its memory
      released. */
  lemma {:induction false} ReleasesCoverLive(bs: seq<BufferState>)
    ensures forall i :: 0 <= i < |bs| && bs[i].live ==>
      DestroyObject(BufferObject, bs[i].buffer) in Releases(bs) && DestroyObject(MemoryObject, bs[i].memory) in Releases(bs)
  {
    if bs != [] {
      var n := |bs| - 1;
      var front := bs[..n];
      ReleasesCoverLive(front);
      var rs := Releases(bs);
      assert rs == Releases(front) + BufferRelease(bs[n]);
      forall i | 0 <= i < |bs| && bs[i].live
        ensures DestroyObject(BufferObject, bs[i].buffer) in rs && DestroyObject(MemoryObject, bs[i].memory) in rs
      {
        if i < n {
          assert bs[i] == front[i];
        } else {
          assert BufferRelease(bs[n]) == [DestroyObject(BufferObject, bs[i].buffer), DestroyObject(MemoryObject, bs[i].memory)];
        }
      }
    }
  }

  /** Nothing but the buffer or the memory of a buffer that holds a device
      is released. */
  lemma {:induction false} ReleasesOnlyLive(bs: seq<BufferState>)
    ensures forall c :: c in Releases(bs) ==> exists i :: 0 <= i < |bs| && ReleasedBy(c, bs[i])
  {
    if bs != [] {
      var n := |bs| - 1;
      var front := bs[..n];
      ReleasesOnlyLive(front);
      var rs := Releases(bs);
      assert rs == Releases(front) + BufferRelease(bs[n]);
      forall c | c in rs
        ensures exists i :: 0 <= i < |bs| && ReleasedBy(c, bs[i])
      {
        if c in Releases(front) {
          var i :| 0 <= i < |front| && ReleasedBy(c, front[i]);
          assert bs[i] == front[i];
        } else {
          assert ReleasedBy(c, bs[n]);
        }
      }
    }
  }

  // ---------------------------------------------------------------------------
  // The renderer

  /** The model file the renderer draws. */
  const MODEL_PATH: string := "Resources/Models/viking_room.obj"

  class VulkanGraphics<V(==)> {
    const swapchainR: SwapchainResource
    const renderPassR: RenderPass
    /** The shader's descriptor. */
    const descriptors: Descriptor
    const texture: Texture
    const vertexBufferRC: BufferResource
    const indexBufferRC: BufferResource
    const model: ModelFile<V>
    var phyDevice: Option<PhysicalDevice>
    var msaaSamples: nat
    var instance: Handle
    var surface: Handle
    var device: Handle
    var debugMessenger: Handle
    var extent: Extent2D
    var colorImage: Handle
    var depthImage: Handle
    var framebuffers: seq<Handle>
    var pipeline: Handle
    var pipelineLayout: Handle
    var commandPool: Handle
    var uniformBufferRs: seq<BufferResourceUniform>
    var imageAvailable: seq<Handle>
    var renderFinished: seq<Handle>
    var inFlightFences: seq<Handle>
    var commandBuffers: seq<Handle>
    /** Command buffers other parts of the engine bound for submission with
        every frame. */
    var addCmdBuffers: seq<Handle>
    var currentFrame: nat
    var framebufferResized: bool

    /** Per-slot objects exist for every frame in flight, the current slot is
        one of them, and so is its descriptor set. */
    predicate Valid()
      reads this, descriptors
    {
      |imageAvailable| == MAX_FRAMES_IN_FLIGHT && |renderFinished| == MAX_FRAMES_IN_FLIGHT
      && |inFlightFences| == MAX_FRAMES_IN_FLIGHT && |commandBuffers| == MAX_FRAMES_IN_FLIGHT
      && currentFrame < MAX_FRAMES_IN_FLIGHT && |descriptors.sets| == MAX_FRAMES_IN_FLIGHT
    }

    /** One uniform buffer per frame in flight, each sized for the uniform
        buffer object. */
    predicate UniformsReady()
      reads this, uniformBufferRs
    {
      |uniformBufferRs| == MAX_FRAMES_IN_FLIGHT
      && forall i :: 0 <= i < MAX_FRAMES_IN_FLIGHT ==> uniformBufferRs[i].bufferSize == UNIFORM_BUFFER_OBJECT_SIZE
    }

    /** The list holds its uniform buffers by value: no two entries are one
        object. */
    predicate DistinctUniforms()
      reads this
    {
      forall i, j :: 0 <= i < j < |uniformBufferRs| ==> uniformBufferRs[i] != uniformBufferRs[j]
    }

    /** The members as declared: the resource objects without a device yet,
        the model file over its fixed path, frame 0, no resize pending, one
        sample per pixel. */
    constructor (modelOnDisk: bool)
      ensures fresh(swapchainR) && fresh(renderPassR) && fresh(descriptors) && fresh(texture)
      ensures fresh(vertexBufferRC) && fresh(indexBufferRC) && vertexBufferRC != indexBufferRC && fresh(model)
      ensures model.filePath == MODEL_PATH && model.valid == model.PathValid(modelOnDisk)
      ensures model.vertices == [] && model.indices == []
      ensures phyDevice == None && msaaSamples == 1
      ensures uniformBufferRs == [] && addCmdBuffers == [] && framebuffers == []
      ensures imageAvailable == [] && renderFinished == [] && inFlightFences == [] && commandBuffers == []
      ensures currentFrame == 0 && !framebufferResized
    {
      swapchainR := new SwapchainResource();
      renderPassR := new RenderPass();
      descriptors := new Descriptor();
      texture := new Texture();
      vertexBufferRC := new BufferResource();
      indexBufferRC := new BufferResource();
      model := new ModelFile<V>(MODEL_PATH, modelOnDisk);
      phyDevice, msaaSamples := None, 1;
      instance, surface, device, debugMessenger := NULL_HANDLE, NULL_HANDLE, NULL_HANDLE, NULL_HANDLE;
      extent := Extent2D(0, 0);
      colorImage, depthImage, framebuffers := NULL_HANDLE, NULL_HANDLE, [];
      pipeline, pipelineLayout, commandPool := NULL_HANDLE, NULL_HANDLE, NULL_HANDLE;
      uniformBufferRs := [];
      imageAvailable, renderFinished, inFlightFences, commandBuffers := [], [], [], [];
      addCmdBuffers := [];
      currentFrame, framebufferResized := 0, false;
    }

    /** pickPhysicalDevice as written: no device at all raises; the first
        device isDeviceSuitable accepts is taken with its largest usable
        sample count; a device whose check raises ends the pick with that
        error; with none accepted, it raises unless a device was picked
        before. */
    method PickPhysicalDevice(devices: seq<PhysicalDevice>) returns (r: Outcome)
      modifies this`phyDevice, this`msaaSamples
      ensures devices == [] ==>
        r == Fail(NO_VULKAN_GPU) && phyDevice == old(phyDevice) && msaaSamples == old(msaaSamples)
      ensures devices != [] && WalkFrom(devices, 0).Raised? ==>
        r == Fail(WalkFrom(devices, 0).error) && phyDevice == old(phyDevice) && msaaSamples == old(msaaSamples)
      ensures devices != [] && WalkFrom(devices, 0).Picked? ==>
        var k := WalkFrom(devices, 0).index;
        k < |devices| && r == Done && phyDevice == Some(devices[k])
        && msaaSamples == GetMaxUsableSampleCount(devices[k].colorCounts, devices[k].depthCounts)
      ensures devices != [] && WalkFrom(devices, 0).NonePicked? ==>
        r == (if old(phyDevice).None? then Fail(NO_SUITABLE_GPU) else Done)
        && phyDevice == old(phyDevice) && msaaSamples == old(msaaSamples)
    {
      if |devices| == 0 {
        return Fail(NO_VULKAN_GPU);
      }
      var i := 0;
      while i < |devices|
        invariant 0 <= i <= |devices|
        invariant WalkFrom(devices, i) == WalkFrom(devices, 0)
        invariant phyDevice == old(phyDevice) && msaaSamples == old(msaaSamples)
      {
        var suitable := IsDeviceSuitable(devices[i]);
        if suitable.Err? {
          return Fail(suitable.error);
        }
        if suitable.value {
          phyDevice := Some(devices[i]);
          msaaSamples := GetMaxUsableSampleCount(devices[i].colorCounts, devices[i].depthCounts);
          return Done;
        }
        i := i + 1;
      }
      if phyDevice.None? {
        return Fail(NO_SUITABLE_GPU);
      }
      r := Done;
    }

    /** pickPhysicalDevice as intended: a device without a graphics and a
        presenting queue family is passed over like any other unsuitable
        device, so the first suitable device is the one taken. */
    method PickPhysicalDeviceChecked(devices: seq<PhysicalDevice>) returns (r: Outcome)
      modifies this`phyDevice, this`msaaSamples
      ensures devices == [] ==>
        r == Fail(NO_VULKAN_GPU) && phyDevice == old(phyDevice) && msaaSamples == old(msaaSamples)
      ensures devices != [] && FirstSuitableFrom(devices, 0).Some? ==>
        var k := FirstSuitableFrom(devices, 0).value;
        k < |devices| && r == Done && phyDevice == Some(devices[k])
        && msaaSamples == GetMaxUsableSampleCount(devices[k].colorCounts, devices[k].depthCounts)
      ensures devices != [] && FirstSuitableFrom(devices, 0).None? ==>
        r == (if old(phyDevice).None? then Fail(NO_SUITABLE_GPU) else Done)
        && phyDevice == old(phyDevice) && msaaSamples == old(msaaSamples)
    {
      if |devices| == 0 {
        return Fail(NO_VULKAN_GPU);
      }
      var i := 0;
      while i < |devices|
        invariant 0 <= i <= |devices|
        invariant FirstSuitableFrom(devices, i) == FirstSuitableFrom(devices, 0)
        invariant phyDevice == old(phyDevice) && msaaSamples == old(msaaSamples)
      {
        FirstSuitableFromSpec(devices, i);
        var checked := IsDeviceSuitable(devices[i]);
        SuitabilityAsWrittenSpec(devices[i]);
        if checked.Ok? && checked.value {
          phyDevice := Some(devices[i]);
          msaaSamples := GetMaxUsableSampleCount(devices[i].colorCounts, devices[i].depthCounts);
          return Done;
        }
        i := i + 1;
      }
      if phyDevice.None? {
        return Fail(NO_SUITABLE_GPU);
      }
      r := Done;
    }

    /** bindAddCmdBuffer: bound buffers are kept in binding order. */
    method BindAddCmdBuffer(cmd: Handle)
      modifies this`addCmdBuffers
      ensures addCmdBuffers == old(addCmdBuffers) + [cmd]
    {
      addCmdBuffers := addCmdBuffers + [cmd];
    }

    /** createCommandBuffers: one primary buffer per frame in flight. */
    method CreateCommandBuffers(dev: Device)
      modifies this`commandBuffers, dev
      ensures commandBuffers == HandleRange(old(dev.nextHandle), MAX_FRAMES_IN_FLIGHT)
      ensures dev.nextHandle == old(dev.nextHandle) + MAX_FRAMES_IN_FLIGHT
      ensures dev.calls == old(dev.calls) + [AllocateCommandBuffer(commandBuffers[0]), AllocateCommandBuffer(commandBuffers[1])]
    {
      var a := dev.NewHandle();
      var b := dev.NewHandle();
      commandBuffers := [a, b];
      dev.calls := dev.calls + [AllocateCommandBuffer(a), AllocateCommandBuffer(b)];
    }

    /** createSyncObjects: for each slot, an image-available semaphore, a
        render-finished semaphore and a fence created signalled. */
    method CreateSyncObjects(dev: Device)
      modifies this`imageAvailable, this`renderFinished, this`inFlightFences, dev
      ensures |imageAvailable| == MAX_FRAMES_IN_FLIGHT && |renderFinished| == MAX_FRAMES_IN_FLIGHT
      ensures |inFlightFences| == MAX_FRAMES_IN_FLIGHT
      ensures dev.nextHandle == old(dev.nextHandle) + 3 * MAX_FRAMES_IN_FLIGHT
      ensures forall i :: 0 <= i < MAX_FRAMES_IN_FLIGHT ==>
        imageAvailable[i] == old(dev.nextHandle) + 3 * i
        && renderFinished[i] == old(dev.nextHandle) + 3 * i + 1
        && inFlightFences[i] == old(dev.nextHandle) + 3 * i + 2
      ensures dev.calls == old(dev.calls) + CoreGraphics.SyncCreates(old(dev.nextHandle), MAX_FRAMES_IN_FLIGHT)
    {
      var start := dev.nextHandle;
      var ia: seq<Handle> := [];
      var rf: seq<Handle> := [];
      var fs: seq<Handle> := [];
      var i := 0;
      while i < MAX_FRAMES_IN_FLIGHT
        invariant 0 <= i <= MAX_FRAMES_IN_FLIGHT
        invariant |ia| == i && |rf| == i && |fs| == i
        invariant dev.nextHandle == start + 3 * i
        invariant forall j :: 0 <= j < i ==> ia[j] == start + 3 * j && rf[j] == start + 3 * j + 1 && fs[j] == start + 3 * j + 2
        invariant dev.calls == old(dev.calls) + CoreGraphics.SyncCreates(start, i)
      {
        var a := dev.NewHandle();
        var b := dev.NewHandle();
        var c := dev.NewHandle();
        dev.calls := dev.calls + [CreateSemaphore(a), CreateSemaphore(b), CreateFence(c, true)];
        ia, rf, fs := ia + [a], rf + [b], fs + [c];
        i := i + 1;
      }
      imageAvailable, renderFinished, inFlightFences := ia, rf, fs;
    }

    /** createUniformBuffers: the list is brought to one buffer per frame in
        flight, then each is initialised with the size of the uniform buffer
        object; an init that raises ends the walk. */
    method CreateUniformBuffers(dev: Device, queries: seq<MemoryQuery>, ghost start: Handle) returns (r: Outcome)
      requires |queries| == MAX_FRAMES_IN_FLIGHT && Scenes.QueriesWellFormed(queries) && dev.nextHandle == start
      requires |uniformBufferRs| <= MAX_FRAMES_IN_FLIGHT && DistinctUniforms()
      modifies this`uniformBufferRs, dev, set u <- uniformBufferRs :: u
      ensures r == Scenes.UniformsOutcome(queries)
      ensures |uniformBufferRs| == MAX_FRAMES_IN_FLIGHT && DistinctUniforms()
      ensures uniformBufferRs[..|old(uniformBufferRs)|] == old(uniformBufferRs)
      ensures forall i :: |old(uniformBufferRs)| <= i < MAX_FRAMES_IN_FLIGHT ==> fresh(uniformBufferRs[i])
      ensures forall i :: 0 <= i < Scenes.UniformsDone(queries) ==> uniformBufferRs[i].bufferSize == UNIFORM_BUFFER_OBJECT_SIZE
      ensures r.Done? ==> UniformsReady()
      ensures dev.calls == old(dev.calls) + Scenes.UniformsCalls(start, queries)
    {
      while |uniformBufferRs| < MAX_FRAMES_IN_FLIGHT
        invariant |old(uniformBufferRs)| <= |uniformBufferRs| <= MAX_FRAMES_IN_FLIGHT
        invariant uniformBufferRs[..|old(uniformBufferRs)|] == old(uniformBufferRs)
        invariant forall i :: |old(uniformBufferRs)| <= i < |uniformBufferRs| ==> fresh(uniformBufferRs[i])
        invariant DistinctUniforms()
        invariant dev.calls == old(dev.calls) && dev.nextHandle == old(dev.nextHandle)
      {
        var b := new BufferResourceUniform();
        uniformBufferRs := uniformBufferRs + [b];
      }
      var i := 0;
      while i < MAX_FRAMES_IN_FLIGHT
        invariant 0 <= i <= MAX_FRAMES_IN_FLIGHT
        invariant |uniformBufferRs| == MAX_FRAMES_IN_FLIGHT && DistinctUniforms()
        invariant uniformBufferRs[..|old(uniformBufferRs)|] == old(uniformBufferRs)
        invariant forall k :: |old(uniformBufferRs)| <= k < MAX_FRAMES_IN_FLIGHT ==> fresh(uniformBufferRs[k])
        invariant forall k :: 0 <= k < i ==> uniformBufferRs[k].bufferSize == UNIFORM_BUFFER_OBJECT_SIZE
        invariant Scenes.UniformWalkAt(old(dev.calls), start, dev.calls, dev.nextHandle, queries, i)
      {
        var u := uniformBufferRs[i];
        assert u in old(uniformBufferRs) || fresh(u) by {
          if i < |old(uniformBufferRs)| {
            assert u == old(uniformBufferRs)[i];
          }
        }
        r := InitStep(dev, u, queries, i, old(dev.calls), start);
        if r.Fail? {
          return;
        }
        i := i + 1;
      }
      r := Done;
    }

    /** createDescriptor: a pool for one uniform buffer and one sampler per
        frame in flight, then one set per uniform buffer, each bound to its
        buffer and to the texture.  It runs initSets as written, so each
        uniform binding's range is the buffer's never-set `size`. */
    method CreateDescriptor(dev: Device)
      requires descriptors.hasDevice
      modifies descriptors`pool, descriptors`poolInited, descriptors`sets, descriptors`setsInited, dev
      ensures descriptors.pool == old(dev.nextHandle)
      ensures descriptors.sets == HandleRange(old(dev.nextHandle) + 1, |uniformBufferRs|)
      ensures dev.nextHandle == old(dev.nextHandle) + 1 + |uniformBufferRs|
      ensures dev.calls == old(dev.calls)
        + ([CreateDescriptorPool(descriptors.pool, MAX_FRAMES_IN_FLIGHT, DESCRIPTOR_POOL_SIZES)]
           + [AllocateDescriptorSets(descriptors.pool, LayoutCopies(descriptors.layout, |uniformBufferRs|), descriptors.sets)]
           + SetUpdates(descriptors.sets, WrittenRanges(uniformBufferRs), texture.sampler, texture.image))
    {
      descriptors.InitPool(dev, MAX_FRAMES_IN_FLIGHT, DESCRIPTOR_POOL_SIZES);
      ghost var mid := dev.calls;
      descriptors.InitSetsAsWritten(dev, uniformBufferRs, texture.sampler, texture.image);
      CoreGraphics.AppendThree(old(dev.calls), [CreateDescriptorPool(descriptors.pool, MAX_FRAMES_IN_FLIGHT, DESCRIPTOR_POOL_SIZES)],
                  [AllocateDescriptorSets(descriptors.pool, LayoutCopies(descriptors.layout, |uniformBufferRs|), descriptors.sets)],
                  SetUpdates(descriptors.sets, WrittenRanges(uniformBufferRs), texture.sampler, texture.image));
    }

    /** The end of initVulkan: the uniform buffers, the descriptor sets over
        them, the command buffers and the synchronisation objects.  A uniform
        buffer without a host-visible memory type raises and stops the rest;
        otherwise every frame slot has what a tick uses. */
    method InitFrameResources(dev: Device, queries: seq<MemoryQuery>) returns (r: Outcome)
      requires |queries| == MAX_FRAMES_IN_FLIGHT && Scenes.QueriesWellFormed(queries)
      requires uniformBufferRs == [] && descriptors.hasDevice && currentFrame < MAX_FRAMES_IN_FLIGHT
      modifies this`uniformBufferRs, this`commandBuffers, this`imageAvailable, this`renderFinished, this`inFlightFences
      modifies descriptors`pool, descriptors`poolInited, descriptors`sets, descriptors`setsInited, dev
      ensures r == Scenes.UniformsOutcome(queries)
      ensures r.Done? ==> Valid() && UniformsReady()
      ensures r.Fail? ==>
        commandBuffers == old(commandBuffers) && inFlightFences == old(inFlightFences)
        && descriptors.sets == old(descriptors.sets)
    {
      r := CreateUniformBuffers(dev, queries, dev.nextHandle);
      if r.Fail? {
        return;
      }
      CreateDescriptor(dev);
      CreateCommandBuffers(dev);
      CreateSyncObjects(dev);
    }

    /** recordCommandBuffer for swapchain image `imageIndex`, on the current
        slot's descriptor set, drawing the model's indices. */
    method RecordCommandBuffer(dev: Device, cmd: Handle, imageIndex: nat)
      requires Valid() && imageIndex < |framebuffers|
      modifies dev`calls
      ensures dev.calls == old(dev.calls) + RecordCalls(cmd, renderPassR.renderPass, framebuffers[imageIndex], extent,
        pipeline, vertexBufferRC.buffer, indexBufferRC.buffer, descriptors.sets[currentFrame], |model.indices|)
    {
      dev.calls := dev.calls + RecordCalls(cmd, renderPassR.renderPass, framebuffers[imageIndex], extent,
        pipeline, vertexBufferRC.buffer, indexBufferRC.buffer, descriptors.sets[currentFrame], |model.indices|);
    }

    /** cleanupSwapChain: the color and depth attachments, every
        framebuffer, then the chain's destroy, which does nothing once the
        chain has lost its device. */
    method CleanupSwapChain(dev: Device)
      modifies dev`calls, swapchainR`hasDevice
      ensures !swapchainR.hasDevice
      ensures dev.calls == old(dev.calls) + CoreGraphics.TeardownCalls(colorImage, depthImage, framebuffers,
        !old(swapchainR.hasDevice), swapchainR.views, swapchainR.swapchain)
    {
      dev.calls := dev.calls + [DestroyObject(ColorImageObject, colorImage), DestroyObject(DepthImageObject, depthImage)];
      var before := dev.calls;
      var i := 0;
      while i < |framebuffers|
        invariant 0 <= i <= |framebuffers|
        invariant dev.calls == before + CoreGraphics.FramebufferDestroys(framebuffers[..i])
        invariant swapchainR.hasDevice == old(swapchainR.hasDevice)
      {
        assert CoreGraphics.FramebufferDestroys(framebuffers[..i + 1])
          == CoreGraphics.FramebufferDestroys(framebuffers[..i]) + [DestroyObject(FramebufferObject, framebuffers[i])];
        dev.calls := dev.calls + [DestroyObject(FramebufferObject, framebuffers[i])];
        i := i + 1;
      }
      assert framebuffers[..i] == framebuffers;
      swapchainR.Destroy(dev);
    }

    /** The chain's objects and the attachments are those of `rb`, and the
        chain holds a device again. */
    predicate Rebuilt(rb: ChainRebuild)
      reads this, swapchainR
    {
      swapchainR.hasDevice && swapchainR.swapchain == rb.swapchain && swapchainR.views == rb.views
      && extent == rb.extent && colorImage == rb.color && depthImage == rb.depth && framebuffers == rb.framebuffers
    }

    /** The five create steps of recreateSwapChain, as `rb` describes them. */
    method ApplyRebuild(dev: Device, rb: ChainRebuild)
      modifies this`extent, this`colorImage, this`depthImage, this`framebuffers
      modifies swapchainR`hasDevice, swapchainR`swapchain, swapchainR`views, dev
      ensures Rebuilt(rb)
      ensures dev.calls == old(dev.calls) + rb.calls && dev.nextHandle == old(dev.nextHandle) + rb.handles
    {
      swapchainR.hasDevice := true;
      swapchainR.swapchain, swapchainR.views := rb.swapchain, rb.views;
      extent, colorImage, depthImage, framebuffers := rb.extent, rb.color, rb.depth, rb.framebuffers;
      dev.calls := dev.calls + rb.calls;
      dev.nextHandle := dev.nextHandle + rb.handles;
    }

    /** What recreateSwapChain issues from the current objects, with `waits`
        device waits, ending with the rebuild `rb`. */
    function RecreationFrom(waits: nat, rb: ChainRebuild): seq<Call>
      reads this, swapchainR
    {
      Repeat(DeviceWaitIdle, waits)
        + CoreGraphics.TeardownCalls(colorImage, depthImage, framebuffers, !swapchainR.hasDevice, swapchainR.views,
                                     swapchainR.swapchain)
        + rb.calls
    }

    /** recreateSwapChain: wait for a non-zero window, wait for the device to
        go idle (retrying on timeout), cleanupSwapChain, then the five create
        steps for the window size the wait found. */
    method RecreateSwapChain(dev: Device, reports: seq<Extent2D>, idleAnswers: seq<VkResult>,
                             rebuild: (Handle, Extent2D) -> ChainRebuild) returns (r: Outcome)
      requires EventuallyNonZero(reports) && Settles(idleAnswers)
      modifies this`extent, this`colorImage, this`depthImage, this`framebuffers
      modifies swapchainR`hasDevice, swapchainR`swapchain, swapchainR`views, dev
      ensures var rb := rebuild(old(dev.nextHandle), reports[FirstNonZero(reports)]);
        r == rb.outcome && Rebuilt(rb) && dev.nextHandle == old(dev.nextHandle) + rb.handles
        && dev.calls == old(dev.calls) + old(RecreationFrom(FirstSettled(idleAnswers) + 1, rb))
    {
      var size, consumed := WaitForNonZeroFramebuffer(reports);
      ghost var rb := rebuild(dev.nextHandle, size);
      ghost var waits := Repeat(DeviceWaitIdle, FirstSettled(idleAnswers) + 1);
      ghost var tear := CoreGraphics.TeardownCalls(colorImage, depthImage, framebuffers, !swapchainR.hasDevice,
                                                   swapchainR.views, swapchainR.swapchain);
      var attempts := RetryWhileTimeout(dev, DeviceWaitIdle, idleAnswers);
      CleanupSwapChain(dev);
      var made := rebuild(dev.nextHandle, size);
      ApplyRebuild(dev, made);
      r := made.outcome;
      CoreGraphics.AppendThree(old(dev.calls), waits, tear, rb.calls);
    }

    /** What a tick issues up to the acquire: the fence wait of the current
        slot, `fenceAttempts` times, then the acquire on its semaphore. */
    function FrameStart(fenceAttempts: nat): seq<Call>
      requires Valid()
      reads this, descriptors, swapchainR
    {
      Repeat(WaitForFence(inFlightFences[currentFrame]), fenceAttempts)
        + [AcquireNextImage(swapchainR.swapchain, imageAvailable[currentFrame])]
    }

    /** What a tick issues for swapchain image `imageIndex` once the acquire
        succeeded, on the current slot. */
    function FrameCalls(imageIndex: nat): seq<Call>
      requires Valid() && imageIndex < |framebuffers|
      reads this, descriptors, swapchainR, renderPassR, vertexBufferRC, indexBufferRC, model
    {
      FrameWork(currentFrame, inFlightFences[currentFrame], commandBuffers[currentFrame], addCmdBuffers,
                imageAvailable[currentFrame], renderFinished[currentFrame], swapchainR.swapchain, imageIndex,
                RecordCalls(commandBuffers[currentFrame], renderPassR.renderPass, framebuffers[imageIndex], extent,
                            pipeline, vertexBufferRC.buffer, indexBufferRC.buffer, descriptors.sets[currentFrame],
                            |model.indices|))
    }

    /** The start of tick: wait on the slot's fence until it does not time
        out, then acquire the next image. */
    method BeginFrame(dev: Device, fenceAnswers: seq<VkResult>)
      requires Valid() && Settles(fenceAnswers)
      modifies dev`calls
      ensures dev.calls == old(dev.calls) + FrameStart(FirstSettled(fenceAnswers) + 1)
    {
      var attempts := RetryWhileTimeout(dev, WaitForFence(inFlightFences[currentFrame]), fenceAnswers);
      dev.calls := dev.calls + [AcquireNextImage(swapchainR.swapchain, imageAvailable[currentFrame])];
      CoreGraphics.SeqAssoc(old(dev.calls), Repeat(WaitForFence(inFlightFences[currentFrame]), attempts),
                            [AcquireNextImage(swapchainR.swapchain, imageAvailable[currentFrame])]);
    }

    /** updateUniformBuffer: the uniform buffer object, of its fixed size,
        is written into the slot's mapped buffer. */
    method UpdateUniformBuffer(dev: Device, slot: nat, ubo: seq<bv8>)
      requires UniformsReady() && slot < MAX_FRAMES_IN_FLIGHT && |ubo| == UNIFORM_BUFFER_OBJECT_SIZE
      modifies (uniformBufferRs[slot] as BufferResourceUniform)`mapped, dev`calls
      ensures uniformBufferRs[slot].mapped == ubo
      ensures dev.calls == old(dev.calls) + [UpdateUniform(slot)]
    {
      var written := uniformBufferRs[slot].Update(ubo);
      dev.calls := dev.calls + [UpdateUniform(slot)];
    }

    /** The middle of tick: the slot's uniform buffer, the fence and command
        buffer resets, the recording, one submit of the bound buffers and the
        slot's own, waiting on image-available and signalling
        render-finished and the fence, then the present. */
    method RenderFrame(dev: Device, imageIndex: nat, ubo: seq<bv8>)
      requires Valid() && UniformsReady() && imageIndex < |framebuffers| && |ubo| == UNIFORM_BUFFER_OBJECT_SIZE
      modifies (uniformBufferRs[currentFrame] as BufferResourceUniform)`mapped, dev`calls
      ensures uniformBufferRs[currentFrame].mapped == ubo
      ensures dev.calls == old(dev.calls) + FrameCalls(imageIndex)
    {
      var f := currentFrame;
      var cmd := commandBuffers[f];
      UpdateUniformBuffer(dev, f, ubo);
      dev.calls := dev.calls + [ResetFence(inFlightFences[f]), ResetCommandBuffer(cmd)];
      ghost var head := [UpdateUniform(f), ResetFence(inFlightFences[f]), ResetCommandBuffer(cmd)];
      assert dev.calls == old(dev.calls) + head;
      RecordCommandBuffer(dev, cmd, imageIndex);
      ghost var record := RecordCalls(cmd, renderPassR.renderPass, framebuffers[imageIndex], extent, pipeline,
                                      vertexBufferRC.buffer, indexBufferRC.buffer, descriptors.sets[f], |model.indices|);
      var allCmdBuffers := addCmdBuffers + [cmd];
      dev.calls := dev.calls + [Submit(allCmdBuffers, [imageAvailable[f]], [renderFinished[f]], inFlightFences[f]),
                                Present(swapchainR.swapchain, imageIndex, renderFinished[f])];
      CoreGraphics.AppendThree(old(dev.calls), head, record,
                               [Submit(allCmdBuffers, [imageAvailable[f]], [renderFinished[f]], inFlightFences[f]),
                                Present(swapchainR.swapchain, imageIndex, renderFinished[f])]);
    }

    /** The end of tick, after the present: an out-of-date or suboptimal
        present or a pending resize clears the resize flag and recreates the
        chain, any other failure raises, and a frame that does not raise
        moves to the next slot. */
    method AfterPresent(dev: Device, presented: VkResult, reports: seq<Extent2D>, idleAnswers: seq<VkResult>,
                        rebuild: (Handle, Extent2D) -> ChainRebuild) returns (r: Outcome)
      requires Valid() && EventuallyNonZero(reports) && Settles(idleAnswers)
      modifies this`extent, this`colorImage, this`depthImage, this`framebuffers
      modifies this`currentFrame, this`framebufferResized
      modifies swapchainR`hasDevice, swapchainR`swapchain, swapchainR`views, dev
      ensures Valid()
      ensures OnPresent(presented, old(framebufferResized)) == RecreateAfterPresent ==>
        var rb := rebuild(old(dev.nextHandle), reports[FirstNonZero(reports)]);
        r == rb.outcome && !framebufferResized && Rebuilt(rb)
        && dev.calls == old(dev.calls) + old(RecreationFrom(FirstSettled(idleAnswers) + 1, rb))
        && currentFrame == (if r == Done then NextFrame(old(currentFrame)) else old(currentFrame))
      ensures OnPresent(presented, old(framebufferResized)) == AbortPresent ==>
        r == Fail(Fatal("failed to present!")) && unchanged(dev) && unchanged(this) && unchanged(swapchainR)
      ensures OnPresent(presented, old(framebufferResized)) == Presented ==>
        r == Done && unchanged(dev) && unchanged(swapchainR)
        && currentFrame == NextFrame(old(currentFrame)) && framebufferResized == old(framebufferResized)
        && unchanged(this`framebuffers) && unchanged(this`extent)
    {
      var next := OnPresent(presented, framebufferResized);
      if next == RecreateAfterPresent {
        framebufferResized := false;
        r := RecreateSwapChain(dev, reports, idleAnswers, rebuild);
        if r.Fail? {
          return;
        }
      } else if next == AbortPresent {
        return Fail(Fatal("failed to present!"));
      } else {
        r := Done;
      }
      currentFrame := NextFrame(currentFrame);
    }

    /** The rest of tick once the acquire succeeded: render and present the
        frame, then decide on the present's result. */
    method PresentFrame(dev: Device, imageIndex: nat, ubo: seq<bv8>, presented: VkResult, reports: seq<Extent2D>,
                        idleAnswers: seq<VkResult>, rebuild: (Handle, Extent2D) -> ChainRebuild) returns (r: Outcome)
      requires Valid() && UniformsReady() && imageIndex < |framebuffers| && |ubo| == UNIFORM_BUFFER_OBJECT_SIZE
      requires EventuallyNonZero(reports) && Settles(idleAnswers)
      modifies this`extent, this`colorImage, this`depthImage, this`framebuffers
      modifies this`currentFrame, this`framebufferResized
      modifies swapchainR`hasDevice, swapchainR`swapchain, swapchainR`views, dev
      modifies (uniformBufferRs[currentFrame] as BufferResourceUniform)`mapped
      ensures Valid() && uniformBufferRs[old(currentFrame)].mapped == ubo
      ensures OnPresent(presented, old(framebufferResized)) == RecreateAfterPresent ==>
        var rb := rebuild(old(dev.nextHandle), reports[FirstNonZero(reports)]);
        r == rb.outcome && !framebufferResized && Rebuilt(rb)
        && dev.calls == old(dev.calls) + old(FrameCalls(imageIndex)) + old(RecreationFrom(FirstSettled(idleAnswers) + 1, rb))
        && currentFrame == (if r == Done then NextFrame(old(currentFrame)) else old(currentFrame))
      ensures OnPresent(presented, old(framebufferResized)) == AbortPresent ==>
        r == Fail(Fatal("failed to present!")) && dev.calls == old(dev.calls) + old(FrameCalls(imageIndex))
        && unchanged(this) && unchanged(swapchainR)
      ensures OnPresent(presented, old(framebufferResized)) == Presented ==>
        r == Done && dev.calls == old(dev.calls) + old(FrameCalls(imageIndex)) && unchanged(swapchainR)
        && currentFrame == NextFrame(old(currentFrame)) && framebufferResized == old(framebufferResized)
        && unchanged(this`framebuffers) && unchanged(this`extent)
    {
      RenderFrame(dev, imageIndex, ubo);
      r := AfterPresent(dev, presented, reports, idleAnswers, rebuild);
    }

    /** The part of tick after the acquire: an out-of-date acquire recreates
        the chain and ends the tick with nothing updated, reset, submitted or
        presented and the slot unchanged; any other failure raises; a
        successful or suboptimal acquire goes on to render and present. */
    method AfterAcquire(dev: Device, acquired: VkResult, imageIndex: nat, ubo: seq<bv8>, presented: VkResult,
                        reports: seq<Extent2D>, idleAnswers: seq<VkResult>,
                        rebuild: (Handle, Extent2D) -> ChainRebuild) returns (r: Outcome)
      requires Valid() && UniformsReady() && |ubo| == UNIFORM_BUFFER_OBJECT_SIZE
      requires EventuallyNonZero(reports) && Settles(idleAnswers)
      requires OnAcquire(acquired) == Render ==> imageIndex < |framebuffers|
      modifies this`extent, this`colorImage, this`depthImage, this`framebuffers
      modifies this`currentFrame, this`framebufferResized
      modifies swapchainR`hasDevice, swapchainR`swapchain, swapchainR`views, dev
      modifies (uniformBufferRs[currentFrame] as BufferResourceUniform)`mapped
      ensures Valid() && UniformsReady()
      ensures OnAcquire(acquired) == Render ==> uniformBufferRs[old(currentFrame)].mapped == ubo
      ensures OnAcquire(acquired) != Render ==> unchanged(uniformBufferRs[old(currentFrame)])
      ensures OnAcquire(acquired) == RecreateAndReturn ==>
        var rb := rebuild(old(dev.nextHandle), reports[FirstNonZero(reports)]);
        r == rb.outcome && Rebuilt(rb)
        && dev.calls == old(dev.calls) + old(RecreationFrom(FirstSettled(idleAnswers) + 1, rb))
        && currentFrame == old(currentFrame) && framebufferResized == old(framebufferResized)
      ensures OnAcquire(acquired) == AbortAcquire ==>
        r == Fail(Fatal("failed to acquire swap chain image!")) && unchanged(dev)
        && unchanged(this) && unchanged(swapchainR)
      ensures OnAcquire(acquired) == Render && OnPresent(presented, old(framebufferResized)) == RecreateAfterPresent ==>
        var rb := rebuild(old(dev.nextHandle), reports[FirstNonZero(reports)]);
        r == rb.outcome && !framebufferResized && Rebuilt(rb)
        && dev.calls == old(dev.calls) + old(FrameCalls(imageIndex)) + old(RecreationFrom(FirstSettled(idleAnswers) + 1, rb))
        && currentFrame == (if r == Done then NextFrame(old(currentFrame)) else old(currentFrame))
      ensures OnAcquire(acquired) == Render && OnPresent(presented, old(framebufferResized)) == AbortPresent ==>
        r == Fail(Fatal("failed to present!")) && dev.calls == old(dev.calls) + old(FrameCalls(imageIndex))
        && unchanged(this) && unchanged(swapchainR)
      ensures OnAcquire(acquired) == Render && OnPresent(presented, old(framebufferResized)) == Presented ==>
        r == Done && dev.calls == old(dev.calls) + old(FrameCalls(imageIndex)) && unchanged(swapchainR)
        && currentFrame == NextFrame(old(currentFrame)) && framebufferResized == old(framebufferResized)
        && unchanged(this`framebuffers) && unchanged(this`extent)
    {
      var decision := OnAcquire(acquired);
      if decision == RecreateAndReturn {
        r := RecreateSwapChain(dev, reports, idleAnswers, rebuild);
      } else if decision == AbortAcquire {
        r := Fail(Fatal("failed to acquire swap chain image!"));
      } else {
        r := PresentFrame(dev, imageIndex, ubo, presented, reports, idleAnswers, rebuild);
      }
    }

    /** tick: one frame on slot `currentFrame`.  The fence wait is retried on
        timeout and a timeout is never an error; the acquire follows, and
        what happens next depends on its result and on the present's.  The
        bound command buffers are copied for the submit, never changed. */
    method Tick(dev: Device, fenceAnswers: seq<VkResult>, acquired: VkResult, imageIndex: nat, ubo: seq<bv8>,
                presented: VkResult, reports: seq<Extent2D>, idleAnswers: seq<VkResult>,
                rebuild: (Handle, Extent2D) -> ChainRebuild) returns (r: Outcome)
      requires Valid() && UniformsReady() && Settles(fenceAnswers) && |ubo| == UNIFORM_BUFFER_OBJECT_SIZE
      requires EventuallyNonZero(reports) && Settles(idleAnswers)
      requires OnAcquire(acquired) == Render ==> imageIndex < |framebuffers|
      modifies this`extent, this`colorImage, this`depthImage, this`framebuffers
      modifies this`currentFrame, this`framebufferResized
      modifies swapchainR`hasDevice, swapchainR`swapchain, swapchainR`views, dev
      modifies (uniformBufferRs[currentFrame] as BufferResourceUniform)`mapped
      ensures Valid() && UniformsReady() && addCmdBuffers == old(addCmdBuffers)
      ensures OnAcquire(acquired) == Render ==> uniformBufferRs[old(currentFrame)].mapped == ubo
      ensures OnAcquire(acquired) != Render ==> unchanged(uniformBufferRs[old(currentFrame)])
      ensures OnAcquire(acquired) == RecreateAndReturn ==>
        var rb := rebuild(old(dev.nextHandle), reports[FirstNonZero(reports)]);
        r == rb.outcome && Rebuilt(rb)
        && dev.calls == old(dev.calls) + old(FrameStart(FirstSettled(fenceAnswers) + 1))
             + old(RecreationFrom(FirstSettled(idleAnswers) + 1, rb))
        && currentFrame == old(currentFrame) && framebufferResized == old(framebufferResized)
      ensures OnAcquire(acquired) == AbortAcquire ==>
        r == Fail(Fatal("failed to acquire swap chain image!"))
        && dev.calls == old(dev.calls) + old(FrameStart(FirstSettled(fenceAnswers) + 1))
        && unchanged(this) && unchanged(swapchainR)
      ensures OnAcquire(acquired) == Render && OnPresent(presented, old(framebufferResized)) == RecreateAfterPresent ==>
        var rb := rebuild(old(dev.nextHandle), reports[FirstNonZero(reports)]);
        r == rb.outcome && !framebufferResized && Rebuilt(rb)
        && dev.calls == old(dev.calls) + old(FrameStart(FirstSettled(fenceAnswers) + 1)) + old(FrameCalls(imageIndex))
             + old(RecreationFrom(FirstSettled(idleAnswers) + 1, rb))
        && currentFrame == (if r == Done then NextFrame(old(currentFrame)) else old(currentFrame))
      ensures OnAcquire(acquired) == Render && OnPresent(presented, old(framebufferResized)) == AbortPresent ==>
        r == Fail(Fatal("failed to present!"))
        && dev.calls == old(dev.calls) + old(FrameStart(FirstSettled(fenceAnswers) + 1)) + old(FrameCalls(imageIndex))
        && unchanged(this) && unchanged(swapchainR)
      ensures OnAcquire(acquired) == Render && OnPresent(presented, old(framebufferResized)) == Presented ==>
        r == Done
        && dev.calls == old(dev.calls) + old(FrameStart(FirstSettled(fenceAnswers) + 1)) + old(FrameCalls(imageIndex))
        && currentFrame == NextFrame(old(currentFrame)) && framebufferResized == old(framebufferResized)
        && unchanged(this`framebuffers) && unchanged(this`extent) && unchanged(swapchainR)
    {
      BeginFrame(dev, fenceAnswers);
      assert unchanged(this) && unchanged(swapchainR) && dev.nextHandle == old(dev.nextHandle);
      assert OnAcquire(acquired) == Render ==> FrameCalls(imageIndex) == old(FrameCalls(imageIndex));
      ghost var rb := rebuild(old(dev.nextHandle), reports[FirstNonZero(reports)]);
      assert RecreationFrom(FirstSettled(idleAnswers) + 1, rb) == old(RecreationFrom(FirstSettled(idleAnswers) + 1, rb));
      r := AfterAcquire(dev, acquired, imageIndex, ubo, presented, reports, idleAnswers, rebuild);
    }

    /** The index buffer's release, then the vertex buffer's. */
    function ModelBufferReleases(): seq<Call>
      reads this, indexBufferRC, vertexBufferRC
    {
      BufferRelease(BufferState(indexBufferRC.hasDevice, indexBufferRC.buffer, indexBufferRC.memory))
        + BufferRelease(BufferState(vertexBufferRC.hasDevice, vertexBufferRC.buffer, vertexBufferRC.memory))
    }

    /** Each uniform buffer's destroy, in list order. */
    method ReleaseUniforms(dev: Device)
      requires DistinctUniforms()
      modifies dev`calls, uniformBufferRs`hasDevice
      ensures forall i :: 0 <= i < |uniformBufferRs| ==> !uniformBufferRs[i].hasDevice
      ensures dev.calls == old(dev.calls) + old(Releases(Snapshot(uniformBufferRs)))
    {
      DestroyEach(dev, uniformBufferRs);
    }

    /** texture.destroy, then each uniform buffer's destroy. */
    method ReleaseTextureAndUniforms(dev: Device)
      requires DistinctUniforms()
      modifies dev`calls, texture`imageRInited, texture`samplerInited, uniformBufferRs`hasDevice
      ensures !texture.imageRInited && !texture.samplerInited
      ensures forall i :: 0 <= i < |uniformBufferRs| ==> !uniformBufferRs[i].hasDevice
      ensures dev.calls == old(dev.calls) + old(TextureReleases(texture)) + old(Releases(Snapshot(uniformBufferRs)))
    {
      ghost var uni := Releases(Snapshot(uniformBufferRs));
      texture.Destroy(dev);
      assert Releases(Snapshot(uniformBufferRs)) == uni;
      ReleaseUniforms(dev);
    }

    /** The index buffer's destroy, then the vertex buffer's. */
    method ReleaseModelBuffers(dev: Device)
      requires vertexBufferRC != indexBufferRC
      modifies dev`calls, indexBufferRC`hasDevice, vertexBufferRC`hasDevice
      ensures !indexBufferRC.hasDevice && !vertexBufferRC.hasDevice
      ensures dev.calls == old(dev.calls) + old(ModelBufferReleases())
    {
      indexBufferRC.Destroy(dev);
      vertexBufferRC.Destroy(dev);
    }

    /** The resource half of cleanup: texture.destroy, every uniform
        buffer's destroy, then the index and the vertex buffer's. */
    method ReleaseResources(dev: Device)
      requires DistinctUniforms() && vertexBufferRC != indexBufferRC
      modifies dev`calls, texture`imageRInited, texture`samplerInited, uniformBufferRs`hasDevice
      modifies indexBufferRC`hasDevice, vertexBufferRC`hasDevice
      ensures !texture.imageRInited && !texture.samplerInited && !indexBufferRC.hasDevice && !vertexBufferRC.hasDevice
      ensures forall i :: 0 <= i < |uniformBufferRs| ==> !uniformBufferRs[i].hasDevice
      ensures dev.calls == old(dev.calls) + old(TextureReleases(texture)) + old(Releases(Snapshot(uniformBufferRs)))
        + old(ModelBufferReleases())
    {
      ReleaseTextureAndUniforms(dev);
      ReleaseModelBuffers(dev);
    }

    /** Each slot's semaphores and fence, slot after slot. */
    method ReleaseSyncObjects(dev: Device)
      requires |imageAvailable| == |renderFinished| == |inFlightFences| == MAX_FRAMES_IN_FLIGHT
      modifies dev`calls
      ensures dev.calls == old(dev.calls) + SyncDestroys(imageAvailable, renderFinished, inFlightFences, MAX_FRAMES_IN_FLIGHT)
    {
      var i := 0;
      while i < MAX_FRAMES_IN_FLIGHT
        invariant 0 <= i <= MAX_FRAMES_IN_FLIGHT
        invariant dev.calls == old(dev.calls) + SyncDestroys(imageAvailable, renderFinished, inFlightFences, i)
      {
        dev.calls := dev.calls + [DestroyObject(SemaphoreObject, imageAvailable[i]),
                                  DestroyObject(SemaphoreObject, renderFinished[i]),
                                  DestroyObject(FenceObject, inFlightFences[i])];
        i := i + 1;
      }
    }

    /** The device's own objects: the pipeline and its layout, the render
        pass, each slot's semaphores and fence, the command pool. */
    method ReleaseOwnObjects(dev: Device)
      requires |imageAvailable| == |renderFinished| == |inFlightFences| == MAX_FRAMES_IN_FLIGHT
      modifies dev`calls, renderPassR`hasDevice
      ensures !renderPassR.hasDevice
      ensures dev.calls == old(dev.calls) + BeforeDevice(pipeline, pipelineLayout, old(renderPassR.hasDevice),
        renderPassR.renderPass, imageAvailable, renderFinished, inFlightFences, commandPool)
    {
      dev.calls := dev.calls + [DestroyObject(PipelineObject, pipeline), DestroyObject(PipelineLayoutObject, pipelineLayout)];
      renderPassR.Destroy(dev);
      ReleaseSyncObjects(dev);
      dev.calls := dev.calls + [DestroyObject(CommandPoolObject, commandPool)];
    }

    /** The device half of cleanup: the device's own objects, then the
        device, the debug messenger in a debug build, the surface, the
        instance. */
    method ReleaseDevice(dev: Device, inDebug: bool)
      requires |imageAvailable| == |renderFinished| == |inFlightFences| == MAX_FRAMES_IN_FLIGHT
      modifies dev`calls, renderPassR`hasDevice
      ensures !renderPassR.hasDevice
      ensures dev.calls == old(dev.calls) + DeviceReleases(pipeline, pipelineLayout, old(renderPassR.hasDevice),
        renderPassR.renderPass, imageAvailable, renderFinished, inFlightFences, commandPool, device, debugMessenger,
        surface, instance, inDebug)
    {
      ReleaseOwnObjects(dev);
      ghost var own := dev.calls;
      dev.calls := dev.calls + [DestroyObject(DeviceObject, device)];
      if inDebug {
        dev.calls := dev.calls + [DestroyObject(DebugMessengerObject, debugMessenger)];
      }
      dev.calls := dev.calls + [DestroyObject(SurfaceObject, surface), DestroyObject(InstanceObject, instance)];
      assert dev.calls == own + FinalReleases(device, debugMessenger, surface, instance, inDebug);
    }

    /** Everything cleanup releases after the swapchain: the resources,
        then the device and what it came from. */
    method ReleaseAll(dev: Device, inDebug: bool)
      requires |imageAvailable| == |renderFinished| == |inFlightFences| == MAX_FRAMES_IN_FLIGHT
      requires DistinctUniforms() && vertexBufferRC != indexBufferRC
      modifies dev`calls, texture`imageRInited, texture`samplerInited, uniformBufferRs`hasDevice
      modifies indexBufferRC`hasDevice, vertexBufferRC`hasDevice, renderPassR`hasDevice
      ensures !renderPassR.hasDevice && !texture.imageRInited && !texture.samplerInited
      ensures !indexBufferRC.hasDevice && !vertexBufferRC.hasDevice
      ensures forall i :: 0 <= i < |uniformBufferRs| ==> !uniformBufferRs[i].hasDevice
      ensures dev.calls == old(dev.calls)
        + old(TextureReleases(texture)) + old(Releases(Snapshot(uniformBufferRs))) + old(ModelBufferReleases())
        + DeviceReleases(pipeline, pipelineLayout, old(renderPassR.hasDevice), renderPassR.renderPass, imageAvailable,
                         renderFinished, inFlightFences, commandPool, device, debugMessenger, surface, instance, inDebug)
    {
      ReleaseResources(dev);
      ReleaseDevice(dev, inDebug);
    }

    /** cleanup: wait for the device to go idle (retrying on timeout),
        cleanupSwapChain, release the resources, then the device and what
        it came from. */
    method Cleanup(dev: Device, idleAnswers: seq<VkResult>, inDebug: bool)
      requires Settles(idleAnswers) && Valid() && DistinctUniforms() && vertexBufferRC != indexBufferRC
      modifies dev`calls, swapchainR`hasDevice, texture`imageRInited, texture`samplerInited, uniformBufferRs`hasDevice
      modifies indexBufferRC`hasDevice, vertexBufferRC`hasDevice, renderPassR`hasDevice
      ensures !swapchainR.hasDevice && !renderPassR.hasDevice && !texture.imageRInited && !texture.samplerInited
      ensures !indexBufferRC.hasDevice && !vertexBufferRC.hasDevice
      ensures forall i :: 0 <= i < |uniformBufferRs| ==> !uniformBufferRs[i].hasDevice
      ensures dev.calls == old(dev.calls) + Repeat(DeviceWaitIdle, FirstSettled(idleAnswers) + 1)
        + old(CoreGraphics.TeardownCalls(colorImage, depthImage, framebuffers, !swapchainR.hasDevice, swapchainR.views,
                                         swapchainR.swapchain))
        + old(TextureReleases(texture)) + old(Releases(Snapshot(uniformBufferRs))) + old(ModelBufferReleases())
        + DeviceReleases(pipeline, pipelineLayout, old(renderPassR.hasDevice), renderPassR.renderPass, imageAvailable,
                         renderFinished, inFlightFences, commandPool, device, debugMessenger, surface, instance, inDebug)
    {
      ghost var snap := Snapshot(uniformBufferRs);
      var attempts := RetryWhileTimeout(dev, DeviceWaitIdle, idleAnswers);
      CleanupSwapChain(dev);
      assert Snapshot(uniformBufferRs) == snap;
      ReleaseAll(dev, inDebug);
    }
  }

  /** What texture.destroy releases: the sampler if it was made, then the
      image if its mip chain was built. */
  function TextureReleases(t: Texture): seq<Call>
    reads t
  {
    (if t.samplerInited then [DestroyObject(SamplerObject, t.sampler)] else [])
      + (if t.imageRInited then ImageReleases(t.image) else [])
  }
}
