// SwapchainResource of the older revision: the same creation rules, with a
// device pointer that destroy clears, so a second destroy does nothing until
// initAll hands the object a device again.
module LegacySwapchain {
  import opened Wrappers
  import opened Vk
  import opened Gpu
  import opened GraphicsDetail
  import opened SwapchainRules

  class SwapchainResource {
    var hasDevice: bool   // pDevice != nullptr
    var swapchain: Handle
    var images: seq<Handle>
    var views: seq<Handle>
    var format: Format

    constructor ()
      ensures !hasDevice && swapchain == NULL_HANDLE && images == [] && views == [] && format == FormatUndefined
    {
      hasDevice, swapchain, images, views, format := false, NULL_HANDLE, [], [], FormatUndefined;
    }

    /** Creates the chain and, in the same function, fetches its images; the
        format is recorded last.  The queue-family scan may raise first. */
    method CreateSwapChain(dev: Device, support: SurfaceSupport, families: seq<QueueFamily>, bufferSize: Extent2D,
                           chainImages: seq<Handle>) returns (r: Outcome)
      requires SupportWellFormed(support)
      modifies this, dev
      ensures ScanQueueFamilies(families).Err? ==>
        r == Fail(ScanQueueFamilies(families).error) && unchanged(this) && unchanged(dev)
      ensures ScanQueueFamilies(families).Ok? ==>
        r == Done &&
        swapchain == old(dev.nextHandle) && dev.nextHandle == old(dev.nextHandle) + 1 &&
        dev.calls == old(dev.calls) + [CreateSwapchain(swapchain, SwapchainInfoFor(support, ScanQueueFamilies(families).value, bufferSize))] &&
        images == chainImages &&
        format == ChooseSwapSurfaceFormat(support.formats).format &&
        views == old(views) && hasDevice == old(hasDevice)
    {
      var indices := FindQueueFamilies(families);
      if indices.Err? {
        return Fail(indices.error);
      }
      var info := SwapchainInfoFor(support, indices.value, bufferSize);
      swapchain := dev.NewHandle();
      dev.calls := dev.calls + [CreateSwapchain(swapchain, info)];
      images := chainImages;
      format := info.imageFormat;
      return Done;
    }

    method CreateImages(chainImages: seq<Handle>)
      modifies this`images
      ensures images == chainImages
    {
      images := chainImages;
    }

    /** One view per image, view i on image i. */
    method CreateViews(dev: Device)
      modifies this`views, dev
      ensures views == HandleRange(old(dev.nextHandle), |images|)
      ensures dev.nextHandle == old(dev.nextHandle) + |images|
      ensures dev.calls == old(dev.calls) + ViewCreates(images, views, format)
    {
      var start := dev.nextHandle;
      var made: seq<Handle> := [];
      var i := 0;
      while i < |images|
        invariant 0 <= i <= |images|
        invariant made == HandleRange(start, i)
        invariant dev.nextHandle == start + i
        invariant dev.calls == old(dev.calls) + ViewCreates(images[..i], made, format)
      {
        ViewCreatesSnoc(images, HandleRange(start, |images|), format, i);
        assert HandleRange(start, |images|)[..i] == made;
        var h := dev.NewHandle();
        dev.calls := dev.calls + [CreateImageView(h, images[i], format, 1, 1)];
        made := made + [h];
        assert made == HandleRange(start, |images|)[..i + 1];
        i := i + 1;
      }
      assert images[..i] == images;
      views := made;
    }

    /** initAll: set the device (and surface), then swapchain, images, views. */
    method InitAll(dev: Device, support: SurfaceSupport, families: seq<QueueFamily>, bufferSize: Extent2D,
                   chainImages: seq<Handle>) returns (r: Outcome)
      requires SupportWellFormed(support)
      modifies this, dev
      ensures hasDevice
      ensures ScanQueueFamilies(families).Err? ==>
        r == Fail(ScanQueueFamilies(families).error) && unchanged(dev) &&
        swapchain == old(swapchain) && images == old(images) && views == old(views) && format == old(format)
      ensures ScanQueueFamilies(families).Ok? ==>
        var start := old(dev.nextHandle);
        r == Done && swapchain == start && images == chainImages &&
        views == HandleRange(start + 1, |chainImages|) &&
        format == ChooseSwapSurfaceFormat(support.formats).format &&
        dev.nextHandle == start + 1 + |chainImages| &&
        dev.calls == old(dev.calls)
          + [CreateSwapchain(swapchain, SwapchainInfoFor(support, ScanQueueFamilies(families).value, bufferSize))]
          + ViewCreates(chainImages, views, format)
    {
      hasDevice := true;
      r := CreateSwapChain(dev, support, families, bufferSize, chainImages);
      if r.Fail? {
        return;
      }
      CreateImages(chainImages);
      CreateViews(dev);
    }

    /** No-op without a device; otherwise every view, then the chain, then the
        device pointer is cleared. */
    method Destroy(dev: Device)
      modifies dev`calls, this`hasDevice
      ensures !hasDevice
      ensures !old(hasDevice) ==> dev.calls == old(dev.calls)
      ensures old(hasDevice) ==> dev.calls == old(dev.calls) + ChainDestroys(views, swapchain)
    {
      if !hasDevice {
        return;
      }
      var i := 0;
      while i < |views|
        invariant 0 <= i <= |views|
        invariant dev.calls == old(dev.calls) + ChainDestroys(views[..i], swapchain)[..i]
      {
        assert ChainDestroys(views[..i + 1], swapchain)[..i + 1] == ChainDestroys(views[..i], swapchain)[..i] + [DestroyObject(ImageViewObject, views[i])];
        dev.calls := dev.calls + [DestroyObject(ImageViewObject, views[i])];
        i := i + 1;
      }
      assert views[..i] == views;
      dev.calls := dev.calls + [DestroyObject(SwapchainObject, swapchain)];
      hasDevice := false;
    }
  }
}
