// Texture of the older revision: init uploads the decoded image and builds
// its mip chain and sampler; destroy releases the sampler and the image only
// when their own flags say they were made, then clears the flags.
module LegacyTextures {
  import opened Wrappers
  import opened Vk
  import opened Gpu
  import opened Commands
  import opened BufferCommon
  import opened MipChains
  import opened TextureRules

  /** The texture's image format (the format its layout transitions name). */
  const TEXTURE_FORMAT: Format := R8G8B8A8Srgb

  class Texture {
    var image: Handle
    var sampler: Handle
    var mipLevels: nat
    var imageRInited: bool
    var samplerInited: bool

    constructor ()
      ensures image == NULL_HANDLE && sampler == NULL_HANDLE && mipLevels == 0
      ensures !imageRInited && !samplerInited
    {
      image, sampler, mipLevels := NULL_HANDLE, NULL_HANDLE, 0;
      imageRInited, samplerInited := false, false;
    }

    /** destroy: the sampler if it was made, then the image if its mip
        chain was built; both flags end cleared, so a second destroy does
        nothing. */
    method Destroy(dev: Device)
      modifies this`imageRInited, this`samplerInited, dev`calls
      ensures !imageRInited && !samplerInited
      ensures dev.calls == old(dev.calls)
        + (if old(samplerInited) then [DestroyObject(SamplerObject, sampler)] else [])
        + (if old(imageRInited) then ImageReleases(image) else [])
    {
      if samplerInited {
        dev.calls := dev.calls + [DestroyObject(SamplerObject, sampler)];
        samplerInited := false;
      }
      if imageRInited {
        dev.calls := dev.calls + ImageReleases(image);
        imageRInited := false;
      }
    }

    /** init: the level count is fixed first; then the upload.  imageRInited
        is set once the mip chain is built and samplerInited once the sampler
        exists; a raise on the way leaves each flag that was not reached as
        it was. */
    method Init(dev: Device, tex: TextureContent, stagingQuery: MemoryQuery, props: FormatProperties,
                transitionIdle: seq<VkResult>, copyIdle: seq<VkResult>, mipIdle: seq<VkResult>)
      returns (r: Outcome)
      requires Loaded(tex) && QueryWellFormed(stagingQuery)
      requires Settles(transitionIdle) && Settles(copyIdle) && Settles(mipIdle)
      modifies this, dev
      ensures mipLevels == MipLevels(TexExtent(tex))
      ensures r == UploadOutcome(MemoryTypeFor(stagingQuery, HOST_VISIBLE_COHERENT), SupportsLinearBlit(props))
      ensures dev.calls == old(dev.calls)
        + UploadTrace(old(dev.nextHandle), tex, TEXTURE_FORMAT, MemoryTypeFor(stagingQuery, HOST_VISIBLE_COHERENT), SupportsLinearBlit(props),
                      FirstSettled(transitionIdle) + 1, FirstSettled(copyIdle) + 1, FirstSettled(mipIdle) + 1)
      ensures MemoryTypeFor(stagingQuery, HOST_VISIBLE_COHERENT).Ok? ==> image == old(dev.nextHandle) + 2
      ensures MemoryTypeFor(stagingQuery, HOST_VISIBLE_COHERENT).Err? ==> image == old(image)
      ensures r.Done? ==> imageRInited && samplerInited && sampler == old(dev.nextHandle) + 6
      ensures r.Fail? ==> imageRInited == old(imageRInited) && samplerInited == old(samplerInited) && sampler == old(sampler)
    {
      mipLevels := MipLevels(TexExtent(tex));
      var made, s;
      r, made, s := Upload(dev, tex, TEXTURE_FORMAT, stagingQuery, props, transitionIdle, copyIdle, mipIdle);
      if made.Some? {
        image := made.value;
      }
      if s.Some? {
        imageRInited := true;
        sampler := s.value;
        samplerInited := true;
      }
    }
  }

  /** A texture destroyed twice releases its sampler and image once. */
  method DestroyTwice(dev: Device, t: Texture)
    requires t.imageRInited && t.samplerInited
    modifies t`imageRInited, t`samplerInited, dev`calls
    ensures dev.calls == old(dev.calls) + [DestroyObject(SamplerObject, t.sampler)] + ImageReleases(t.image)
  {
    t.Destroy(dev);
    t.Destroy(dev);
  }
}
