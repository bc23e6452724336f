// The slice of the Vulkan vocabulary the engine's decisions depend on:
// capability records, formats, layouts, access and stage masks, result codes.
// GPU objects are opaque integer handles.
module Vk {

  /** Number of frames the renderer keeps in flight (graphics.hpp). */
  const MAX_FRAMES_IN_FLIGHT: nat := 2

  /** std::numeric_limits<uint32_t>::max(), the "no current extent" sentinel. */
  const UINT32_MAX: nat := 0xFFFF_FFFF

  /** uint32 arithmetic is modulo this. */
  const U32_MODULUS: nat := 0x1_0000_0000

  /** sizeof(UniformBufferObject): three 16-byte-aligned 4x4 float matrices. */
  const UNIFORM_BUFFER_OBJECT_SIZE: nat := 192

  predicate IsU32(x: int) { 0 <= x <= UINT32_MAX }

  type Handle = nat

  datatype Extent2D = Extent2D(width: nat, height: nat)

  datatype SurfaceCapabilities = SurfaceCapabilities(
    minImageCount: nat,
    maxImageCount: nat,   // 0 means "no limit"
    currentExtent: Extent2D,
    minImageExtent: Extent2D,
    maxImageExtent: Extent2D)

  datatype Format =
    | FormatUndefined
    | B8G8R8A8Srgb
    | R8G8B8A8Srgb
    | D32Sfloat
    | D32SfloatS8Uint
    | D24UnormS8Uint
    | OtherFormat(code: nat)

  datatype ColorSpace = SrgbNonlinear | OtherColorSpace(code: nat)

  datatype SurfaceFormat = SurfaceFormat(format: Format, colorSpace: ColorSpace)

  datatype PresentMode = Immediate | Mailbox | Fifo | FifoRelaxed | OtherPresentMode(code: nat)

  datatype ImageTiling = Optimal | Linear | DrmFormatModifier

  /** Bits of VkFormatFeatureFlags; a mask is the set of its bits. */
  datatype FormatFeature = DepthStencilAttachment | SampledImageFilterLinear | OtherFeature(bit: nat)

  /** Feature masks of one format, as VkFormatProperties reports them. */
  datatype FormatProperties = FormatProperties(linearTilingFeatures: set<FormatFeature>,
                                               optimalTilingFeatures: set<FormatFeature>)

  const MEMORY_DEVICE_LOCAL: bv32 := 0x1
  const MEMORY_HOST_VISIBLE: bv32 := 0x2
  const MEMORY_HOST_COHERENT: bv32 := 0x4

  const BUFFER_USAGE_TRANSFER_SRC: bv32 := 0x01
  const BUFFER_USAGE_TRANSFER_DST: bv32 := 0x02
  const BUFFER_USAGE_UNIFORM: bv32 := 0x10
  const BUFFER_USAGE_INDEX: bv32 := 0x40
  const BUFFER_USAGE_VERTEX: bv32 := 0x80

  datatype ImageLayout =
    | Undefined
    | TransferDstOptimal
    | TransferSrcOptimal
    | ShaderReadOnlyOptimal
    | ColorAttachmentOptimal
    | DepthStencilAttachmentOptimal
    | PresentSrc

  datatype Access = TransferWrite | TransferRead | ShaderRead | ColorAttachmentWrite | DepthStencilAttachmentWrite

  datatype Stage = TopOfPipe | Transfer | FragmentShader | ColorAttachmentOutput | EarlyFragmentTests

  datatype VkResult = Success | Timeout | NotReady | Suboptimal | ErrorOutOfDate | ErrorOther(code: int)

  datatype DescriptorType = UniformBuffer | CombinedImageSampler

  datatype ShaderStage = VertexStage | FragmentStage

  datatype AttachmentLoadOp = LoadOpLoad | LoadOpClear | LoadOpDontCare
  datatype AttachmentStoreOp = StoreOpStore | StoreOpDontCare

  // Creation parameters the engine fills in and the GPU trace records.

  /** VkDescriptorSetLayoutBinding, without immutable samplers. */
  datatype LayoutBinding = LayoutBinding(binding: nat, kind: DescriptorType, count: nat, stage: ShaderStage)

  /** VkDescriptorPoolSize. */
  datatype PoolSize = PoolSize(kind: DescriptorType, count: nat)

  /** What one descriptor write points at: a buffer range or a sampled image. */
  datatype DescriptorInfo =
    | BufferInfo(buffer: Handle, offset: nat, range: nat)
    | ImageInfo(sampler: Handle, view: Handle, layout: ImageLayout)

  /** VkWriteDescriptorSet with one descriptor. */
  datatype DescriptorWrite = DescriptorWrite(dstSet: Handle, binding: nat, arrayElement: nat,
                                             kind: DescriptorType, count: nat, info: DescriptorInfo)

  datatype SharingMode = Exclusive | Concurrent

  datatype SwapchainCreateInfo = SwapchainCreateInfo(
    minImageCount: nat,
    imageFormat: Format,
    imageColorSpace: ColorSpace,
    imageExtent: Extent2D,
    imageArrayLayers: nat,
    sharingMode: SharingMode,
    queueFamilyIndices: seq<nat>,
    presentMode: PresentMode)

  /** VkAttachmentDescription; a sample count is the number of samples. */
  datatype AttachmentDescription = AttachmentDescription(
    format: Format,
    samples: nat,
    loadOp: AttachmentLoadOp,
    storeOp: AttachmentStoreOp,
    stencilLoadOp: AttachmentLoadOp,
    stencilStoreOp: AttachmentStoreOp,
    initialLayout: ImageLayout,
    finalLayout: ImageLayout)

  /** VkAttachmentReference: an index into the pass's attachments. */
  datatype AttachmentReference = AttachmentReference(attachment: nat, layout: ImageLayout)

  /** VkSubpassDescription of a graphics subpass. */
  datatype SubpassDescription = SubpassDescription(
    colorAttachments: seq<AttachmentReference>,
    depthStencilAttachment: AttachmentReference,
    resolveAttachments: seq<AttachmentReference>)

  /** A subpass index, or VK_SUBPASS_EXTERNAL. */
  datatype SubpassRef = External | SubpassIndex(index: nat)

  /** VkSubpassDependency; stage and access masks are sets of their bits. */
  datatype SubpassDependency = SubpassDependency(
    srcSubpass: SubpassRef,
    dstSubpass: SubpassRef,
    srcStages: set<Stage>,
    srcAccess: set<Access>,
    dstStages: set<Stage>,
    dstAccess: set<Access>)

  datatype RenderPassCreateInfo = RenderPassCreateInfo(
    attachments: seq<AttachmentDescription>,
    subpasses: seq<SubpassDescription>,
    dependencies: seq<SubpassDependency>)

  /** A VkImageMemoryBarrier on the colour aspect of one image's single array
      layer: mip levels [baseLevel, baseLevel + levelCount) move from
      oldLayout to newLayout.  Queue-family ownership is never transferred. */
  datatype ImageBarrier = ImageBarrier(
    image: Handle,
    baseLevel: nat,
    levelCount: nat,
    oldLayout: ImageLayout,
    newLayout: ImageLayout,
    srcAccess: set<Access>,
    dstAccess: set<Access>)
}
