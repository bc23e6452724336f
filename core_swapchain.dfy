// SwapchainResource of the newer revision: chain, images and views, built in
// the order chain, images, views; torn down through a function-local static
// flag, so only the first destroy in the whole process does anything.
module CoreSwapchain {
  import opened Wrappers
  import opened Vk
  import opened Gpu
  import opened GraphicsDetail
  import opened SwapchainRules
  import opened Statics

  class SwapchainResource {
    var swapchain: Handle
    var images: seq<Handle>
    var views: seq<Handle>
    var format: Format

    constructor ()
      ensures swapchain == NULL_HANDLE && images == [] && views == [] && format == FormatUndefined
    {
      swapchain, images, views, format := NULL_HANDLE, [], [], FormatUndefined;
    }

    /** Choose format, present mode, extent, image count and sharing, create
        the chain, then record the chosen format.  The queue-family scan may
        raise, before anything is created. */
    method CreateSwapChain(dev: Device, support: SurfaceSupport, families: seq<QueueFamily>, bufferSize: Extent2D)
      returns (r: Outcome)
      requires SupportWellFormed(support)
      modifies this, dev
      ensures ScanQueueFamilies(families).Err? ==>
        r == Fail(ScanQueueFamilies(families).error) && unchanged(this) && unchanged(dev)
      ensures ScanQueueFamilies(families).Ok? ==>
        r == Done &&
        swapchain == old(dev.nextHandle) && dev.nextHandle == old(dev.nextHandle) + 1 &&
        dev.calls == old(dev.calls) + [CreateSwapchain(swapchain, SwapchainInfoFor(support, ScanQueueFamilies(families).value, bufferSize))] &&
        format == ChooseSwapSurfaceFormat(support.formats).format &&
        images == old(images) && views == old(views)
    {
      var indices := FindQueueFamilies(families);
      if indices.Err? {
        return Fail(indices.error);
      }
      var info := SwapchainInfoFor(support, indices.value, bufferSize);
      swapchain := dev.NewHandle();
      dev.calls := dev.calls + [CreateSwapchain(swapchain, info)];
      format := info.imageFormat;
      return Done;
    }

    /** The images the driver reports for the chain. */
    method CreateImages(chainImages: seq<Handle>)
      modifies this`images
      ensures images == chainImages
    {
      images := chainImages;
    }

    /** One view per image, view i on image i. */
    method CreateViews(dev: Device)
      modifies this`views, dev
      ensures views == HandleRange(old(dev.nextHandle), |images|)
      ensures dev.nextHandle == old(dev.nextHandle) + |images|
      ensures dev.calls == old(dev.calls) + ViewCreates(images, views, format)
    {
      var start := dev.nextHandle;
      var made: seq<Handle> := [];
      var i := 0;
      while i < |images|
        invariant 0 <= i <= |images|
        invariant made == HandleRange(start, i)
        invariant dev.nextHandle == start + i
        invariant dev.calls == old(dev.calls) + ViewCreates(images[..i], made, format)
      {
        ViewCreatesSnoc(images, HandleRange(start, |images|), format, i);
        assert HandleRange(start, |images|)[..i] == made;
        var h := dev.NewHandle();
        dev.calls := dev.calls + [CreateImageView(h, images[i], format, 1, 1)];
        made := made + [h];
        assert made == HandleRange(start, |images|)[..i + 1];
        i := i + 1;
      }
      assert images[..i] == images;
      views := made;
    }

    /** init: swapchain, then images, then views. */
    method Init(dev: Device, support: SurfaceSupport, families: seq<QueueFamily>, bufferSize: Extent2D,
                chainImages: seq<Handle>) returns (r: Outcome)
      requires SupportWellFormed(support)
      modifies this, dev
      ensures ScanQueueFamilies(families).Err? ==>
        r == Fail(ScanQueueFamilies(families).error) && unchanged(this) && unchanged(dev)
      ensures ScanQueueFamilies(families).Ok? ==>
        var start := old(dev.nextHandle);
        r == Done && swapchain == start && images == chainImages &&
        views == HandleRange(start + 1, |chainImages|) &&
        format == ChooseSwapSurfaceFormat(support.formats).format &&
        dev.nextHandle == start + 1 + |chainImages| &&
        dev.calls == old(dev.calls)
          + [CreateSwapchain(swapchain, SwapchainInfoFor(support, ScanQueueFamilies(families).value, bufferSize))]
          + ViewCreates(chainImages, views, format)
    {
      r := CreateSwapChain(dev, support, families, bufferSize);
      if r.Fail? {
        return;
      }
      CreateImages(chainImages);
      CreateViews(dev);
    }

    /** Destroys every view, then the chain, but only on the first call in the
        process; nothing is reset, so later calls leave the current chain alive. */
    method Destroy(dev: Device, statics: ProcessStatics)
      modifies dev`calls, statics`swapchainDestroyed
      ensures statics.swapchainDestroyed
      ensures old(statics.swapchainDestroyed) ==> dev.calls == old(dev.calls)
      ensures !old(statics.swapchainDestroyed) ==> dev.calls == old(dev.calls) + ChainDestroys(views, swapchain)
    {
      if !statics.swapchainDestroyed {
        var i := 0;
        while i < |views|
          invariant 0 <= i <= |views|
          invariant dev.calls == old(dev.calls) + ChainDestroys(views[..i], swapchain)[..i]
        {
          assert ChainDestroys(views[..i + 1], swapchain)[..i + 1] == ChainDestroys(views[..i], swapchain)[..i] + [DestroyObject(ImageViewObject, views[i])];
          dev.calls := dev.calls + [DestroyObject(ImageViewObject, views[i])];
          i := i + 1;
        }
        assert views[..i] == views;
        dev.calls := dev.calls + [DestroyObject(SwapchainObject, swapchain)];
        statics.swapchainDestroyed := true;
      }
    }
  }
}
