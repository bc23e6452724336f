// The GPU as the engine sees it: a device that hands out opaque handles and
// records, in order, every command it is given.  The record is a ghost trace:
// it is what the properties of the engine are stated over, not something the
// engine reads back.
module Gpu {
  import opened Vk

  const NULL_HANDLE: Handle := 0

  /** Kinds of objects that are torn down with a plain destroy call. */
  datatype ObjectKind =
    | SwapchainObject | ImageViewObject | FramebufferObject
    | SemaphoreObject | FenceObject | CommandPoolObject
    | ColorImageObject | DepthImageObject
    | PipelineObject | PipelineLayoutObject | RenderPassObject
    | BufferObject | MemoryObject | ImageObject | SamplerObject
    | DescriptorPoolObject | DescriptorSetLayoutObject | ShaderModuleObject
    | DeviceObject | DebugMessengerObject | SurfaceObject | InstanceObject

  datatype Call =
    // creation
    | CreateSwapchain(swapchain: Handle, info: SwapchainCreateInfo)
    | CreateImageView(view: Handle, image: Handle, format: Format, levelCount: nat, layerCount: nat)
    | CreateFramebuffer(framebuffer: Handle, attachments: seq<Handle>, width: nat, height: nat, layers: nat)
    | CreateSemaphore(semaphore: Handle)
    | CreateFence(fence: Handle, signaled: bool)
    | CreateAttachmentImage(kind: ObjectKind, image: Handle, format: Format, extent: Extent2D)
    | DestroyObject(kind: ObjectKind, handle: Handle)
    // per-frame work
    | WaitForFence(fence: Handle)
    | AcquireNextImage(swapchain: Handle, semaphore: Handle)
    | ResetFence(fence: Handle)
    | ResetCommandBuffer(cmd: Handle)
    | BeginCommandBuffer(cmd: Handle, oneTimeSubmit: bool)
    | BeginRenderPass(cmd: Handle, renderPass: Handle, framebuffer: Handle, area: Extent2D)
    | BindPipeline(cmd: Handle, pipeline: Handle)
    | SetViewport(cmd: Handle, extent: Extent2D)
    | SetScissor(cmd: Handle, extent: Extent2D)
    | RunRecorder(cmd: Handle, recorder: nat)
    | EndRenderPass(cmd: Handle)
    | EndCommandBuffer(cmd: Handle)
    | Submit(cmds: seq<Handle>, waitSemaphores: seq<Handle>, signalSemaphores: seq<Handle>, fence: Handle)
    | Present(swapchain: Handle, imageIndex: nat, semaphore: Handle)
    | DeviceWaitIdle
    | QueueWaitIdle
    | AllocateCommandBuffer(cmd: Handle)
    | FreeCommandBuffer(cmd: Handle)
    | UpdateUniform(slot: nat)
    | BindVertexBuffer(cmd: Handle, buffer: Handle)
    | BindIndexBuffer(cmd: Handle, buffer: Handle)
    | BindDescriptorSet(cmd: Handle, descriptorSet: Handle)
    | DrawIndexed(cmd: Handle, indexCount: nat)
    | RenderOverlay(cmd: Handle)
    // buffers and memory
    | CreateBuffer(buffer: Handle, size: nat, usage: bv32)
    | AllocateMemory(memory: Handle, memoryType: nat)
    | BindBufferMemory(buffer: Handle, memory: Handle)
    | MapMemory(memory: Handle, size: nat)
    | FillStaging(memory: Handle, data: seq<bv8>)
    | CopyBuffer(cmd: Handle, src: Handle, dst: Handle, size: nat)
    // descriptors and shaders
    | CreateDescriptorSetLayout(layout: Handle, bindings: seq<LayoutBinding>)
    | CreateDescriptorPool(pool: Handle, maxSets: nat, sizes: seq<PoolSize>)
    | AllocateDescriptorSets(pool: Handle, layouts: seq<Handle>, sets: seq<Handle>)
    | UpdateDescriptorSets(writes: seq<DescriptorWrite>)
    | CreateShaderModule(shaderModule: Handle, codeSize: nat)
    | CreateRenderPass(renderPass: Handle, passInfo: RenderPassCreateInfo)
    // textures
    | CreateTextureImage(image: Handle, extent: Extent2D, format: Format)
    | CreateSampler(sampler: Handle, maxLod: nat)
    | PipelineBarrier(cmd: Handle, srcStage: Stage, dstStage: Stage, barrier: ImageBarrier)
    | CopyBufferToImage(cmd: Handle, buffer: Handle, image: Handle, imageLayout: ImageLayout, extent: Extent2D)
    | BlitImage(cmd: Handle, image: Handle, srcLevel: nat, srcLayout: ImageLayout, srcExtent: Extent2D,
                dstLevel: nat, dstLayout: ImageLayout, dstExtent: Extent2D)

  class Device {
    var nextHandle: nat
    ghost var calls: seq<Call>

    constructor ()
      ensures nextHandle == 1 && calls == []
    {
      nextHandle := 1;
      calls := [];
    }

    /** `n` handles no earlier call has been given, in order. */
    method NewHandles(n: nat) returns (hs: seq<Handle>)
      modifies this`nextHandle
      ensures hs == HandleRange(old(nextHandle), n) && nextHandle == old(nextHandle) + n
    {
      hs := HandleRange(nextHandle, n);
      nextHandle := nextHandle + n;
    }

    /** A handle no earlier call has been given. */
    method NewHandle() returns (h: Handle)
      modifies this`nextHandle
      ensures h == old(nextHandle) && nextHandle == h + 1
    {
      h := nextHandle;
      nextHandle := nextHandle + 1;
    }
  }

  /** Consecutive fresh handles start, start + 1, ... */
  function HandleRange(start: Handle, n: nat): seq<Handle>
  {
    seq(n, i => start + i)
  }

  /** Regrouping a trace whose pieces were appended one after another. */
  lemma AppendAssoc(x: seq<Call>, a: seq<Call>, b: seq<Call>)
    ensures x + a + b == x + (a + b)
  {
  }

  /** A trace that grew by `a` and then by `b` grew by `a + b`. */
  lemma ThenAppend(x: seq<Call>, a: seq<Call>, mid: seq<Call>, b: seq<Call>, after: seq<Call>)
    requires mid == x + a
    requires after == mid + b
    ensures after == x + a + b
  {
  }
}
