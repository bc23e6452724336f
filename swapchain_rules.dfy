// The swapchain creation rules both revisions of swapChainResource.cpp share:
// image count, sharing mode, and the create-info they assemble.
module SwapchainRules {
  import opened Vk
  import opened Gpu
  import opened GraphicsDetail

  /** The three surface queries bundled as SwapChainSupportDetails. */
  datatype SurfaceSupport = SurfaceSupport(
    capabilities: SurfaceCapabilities,
    formats: seq<SurfaceFormat>,
    presentModes: seq<PresentMode>)

  /** What the choice functions rely on: at least one format (guaranteed for a
      device that passed the suitability check), and a sane extent range when
      the surface leaves the extent to the application. */
  predicate SupportWellFormed(s: SurfaceSupport)
  {
    |s.formats| > 0 &&
    IsU32(s.capabilities.minImageCount) &&
    (s.capabilities.currentExtent.width == UINT32_MAX ==>
      s.capabilities.minImageExtent.width <= s.capabilities.maxImageExtent.width &&
      s.capabilities.minImageExtent.height <= s.capabilities.maxImageExtent.height)
  }

  /** One image more than the surface's minimum, lowered to its maximum when
      there is one (maxImageCount > 0) and it would be exceeded.  The addition
      is uint32 arithmetic. */
  function ImageCount(caps: SurfaceCapabilities): (r: nat)
    requires IsU32(caps.minImageCount)
    ensures r <= caps.minImageCount + 1
    ensures caps.maxImageCount > 0 ==> r <= caps.maxImageCount
  {
    var wanted := (caps.minImageCount + 1) % U32_MODULUS;
    if caps.maxImageCount > 0 && wanted > caps.maxImageCount then caps.maxImageCount else wanted
  }

  /** The count never exceeds a reported maximum; below the uint32 limit it
      is one past the minimum unless the maximum is reached, and at the limit
      the addition wraps to zero. */
  lemma ImageCountRule(caps: SurfaceCapabilities)
    requires IsU32(caps.minImageCount)
    ensures caps.maxImageCount > 0 ==> ImageCount(caps) <= caps.maxImageCount
    ensures caps.minImageCount < UINT32_MAX && (caps.maxImageCount == 0 || caps.minImageCount < caps.maxImageCount)
      ==> ImageCount(caps) == caps.minImageCount + 1
    ensures caps.minImageCount < UINT32_MAX && 0 < caps.maxImageCount <= caps.minImageCount
      ==> ImageCount(caps) == caps.maxImageCount
    ensures caps.minImageCount == UINT32_MAX ==> ImageCount(caps) == 0
  {
  }

  /** Whenever the surface's range is consistent, the count lies inside it. */
  lemma ImageCountWithinSurfaceRange(caps: SurfaceCapabilities)
    requires caps.minImageCount < UINT32_MAX
    requires caps.maxImageCount == 0 || caps.minImageCount <= caps.maxImageCount
    ensures caps.minImageCount <= ImageCount(caps)
    ensures caps.maxImageCount > 0 ==> ImageCount(caps) <= caps.maxImageCount
  {
  }

  /** Sharing is concurrent exactly when the two families differ; then the
      list is the index pair in graphics, present order, otherwise it is empty. */
  function SharingFor(ix: QueueFamilyIndices): (r: (SharingMode, seq<nat>))
    ensures r.0 == Concurrent <==> ix.graphicsFamily != ix.presentFamily
    ensures r.0 == Concurrent ==> r.1 == ToArray(ix)
    ensures r.0 == Exclusive ==> r.1 == []
  {
    if ix.graphicsFamily != ix.presentFamily then (Concurrent, ToArray(ix)) else (Exclusive, [])
  }

  /** For complete indices the concurrent list names two different families,
      exactly the set the device queues were created for. */
  lemma ConcurrentSharingNamesBothFamilies(ix: QueueFamilyIndices)
    requires ix.IsComplete() && SharingFor(ix).0 == Concurrent
    ensures |SharingFor(ix).1| == 2 && SharingFor(ix).1[0] != SharingFor(ix).1[1]
    ensures (set k | k in SharingFor(ix).1) == ToSet(ix)
  {
    ConversionRules(ix);
    var l := SharingFor(ix).1;
    assert l == [ix.graphicsFamily.value, ix.presentFamily.value];
    assert (set k | k in l) == {ix.graphicsFamily.value, ix.presentFamily.value};
  }

  /** The create-info of createSwapChain. */
  function SwapchainInfoFor(s: SurfaceSupport, ix: QueueFamilyIndices, bufferSize: Extent2D): SwapchainCreateInfo
    requires SupportWellFormed(s)
  {
    var surfaceFormat := ChooseSwapSurfaceFormat(s.formats);
    var sharing := SharingFor(ix);
    SwapchainCreateInfo(
      ImageCount(s.capabilities),
      surfaceFormat.format,
      surfaceFormat.colorSpace,
      ChooseSwapExtent(s.capabilities, bufferSize),
      1,
      sharing.0,
      sharing.1,
      ChooseSwapPresentMode(s.presentModes))
  }

  /** One 2D colour view per image: view i targets image i with the chain
      format, one mip level and one array layer. */
  function ViewCreates(images: seq<Handle>, views: seq<Handle>, format: Format): seq<Call>
    requires |views| == |images|
  {
    seq(|images|, i requires 0 <= i < |images| => CreateImageView(views[i], images[i], format, 1, 1))
  }

  lemma ViewCreatesSnoc(images: seq<Handle>, views: seq<Handle>, format: Format, i: nat)
    requires |views| == |images| && i < |images|
    ensures ViewCreates(images[..i + 1], views[..i + 1], format)
         == ViewCreates(images[..i], views[..i], format) + [CreateImageView(views[i], images[i], format, 1, 1)]
  {
  }

  /** Teardown of a chain: every view, then the chain itself. */
  function ChainDestroys(views: seq<Handle>, swapchain: Handle): seq<Call>
  {
    seq(|views|, i requires 0 <= i < |views| => DestroyObject(ImageViewObject, views[i])) + [DestroyObject(SwapchainObject, swapchain)]
  }
}
