// TextureInterface of the newer revision: read uploads a decoded image that
// the caller owns, frees the caller's pixels as soon as the staging buffer
// holds them, and builds the mip chain and sampler; destroy is guarded by its
// function-local static flag, so only the first destroy in the process, on
// any texture, releases anything.
module CoreTextures {
  import opened Wrappers
  import opened Vk
  import opened Gpu
  import opened Commands
  import opened BufferCommon
  import opened MipChains
  import opened TextureRules
  import opened Statics

  /** The decoded texture the caller hands over, with its host copy of the
      pixels, which `free()` releases. */
  class TextureFileContent {
    var content: TextureContent
    var freed: bool

    constructor (content: TextureContent)
      ensures this.content == content && !freed
    {
      this.content := content;
      freed := false;
    }
  }

  class TextureInterface {
    var image: Handle
    var format: Format
    var sampler: Handle
    var mipLevels: nat

    constructor ()
      ensures image == NULL_HANDLE && sampler == NULL_HANDLE && mipLevels == 0
      ensures format == R8G8B8A8Srgb
    {
      image, sampler, mipLevels := NULL_HANDLE, NULL_HANDLE, 0;
      format := R8G8B8A8Srgb;
    }

    /** destroy: the sampler, then the image, on the first call in the
        process only. */
    method Destroy(dev: Device, statics: ProcessStatics)
      modifies statics`textureDestroyed, dev`calls
      ensures statics.textureDestroyed
      ensures old(statics.textureDestroyed) ==> dev.calls == old(dev.calls)
      ensures !old(statics.textureDestroyed) ==>
        dev.calls == old(dev.calls) + [DestroyObject(SamplerObject, sampler)] + ImageReleases(image)
    {
      if !statics.textureDestroyed {
        dev.calls := dev.calls + [DestroyObject(SamplerObject, sampler)] + ImageReleases(image);
        statics.textureDestroyed := true;
      }
    }

    /** read: the level count first; the staging buffer is filled and the
        caller's pixels are freed at once; the image format is fixed to
        R8G8B8A8Srgb; then the image, the mip chain and the sampler.  A
        failed staging buffer raises before the pixels are freed. */
    method Read(dev: Device, file: TextureFileContent, stagingQuery: MemoryQuery, props: FormatProperties,
                transitionIdle: seq<VkResult>, copyIdle: seq<VkResult>, mipIdle: seq<VkResult>, ghost start: Handle)
      returns (r: Outcome)
      requires Loaded(file.content) && QueryWellFormed(stagingQuery) && dev.nextHandle == start
      requires Settles(transitionIdle) && Settles(copyIdle) && Settles(mipIdle)
      modifies this, dev, file`freed
      ensures mipLevels == MipLevels(TexExtent(old(file.content)))
      ensures r == UploadOutcome(MemoryTypeFor(stagingQuery, HOST_VISIBLE_COHERENT), SupportsLinearBlit(props))
      ensures dev.nextHandle == start + UploadHandles(MemoryTypeFor(stagingQuery, HOST_VISIBLE_COHERENT), SupportsLinearBlit(props))
      ensures dev.calls == old(dev.calls)
        + UploadTrace(start, old(file.content), R8G8B8A8Srgb, MemoryTypeFor(stagingQuery, HOST_VISIBLE_COHERENT), SupportsLinearBlit(props),
                      FirstSettled(transitionIdle) + 1, FirstSettled(copyIdle) + 1, FirstSettled(mipIdle) + 1)
      ensures file.freed == (MemoryTypeFor(stagingQuery, HOST_VISIBLE_COHERENT).Ok? || old(file.freed))
      ensures MemoryTypeFor(stagingQuery, HOST_VISIBLE_COHERENT).Ok? ==> image == start + 2 && format == R8G8B8A8Srgb
      ensures MemoryTypeFor(stagingQuery, HOST_VISIBLE_COHERENT).Err? ==> image == old(image) && format == old(format)
      ensures r.Done? ==> sampler == start + 6
      ensures r.Fail? ==> sampler == old(sampler)
    {
      var tex := file.content;
      mipLevels := MipLevels(TexExtent(tex));
      var made, s;
      r, made, s := Upload(dev, tex, R8G8B8A8Srgb, stagingQuery, props, transitionIdle, copyIdle, mipIdle);
      if made.Some? {
        file.freed := true;
        format := R8G8B8A8Srgb;
        image := made.value;
      }
      if s.Some? {
        sampler := s.value;
      }
    }
  }

  /** Two textures destroyed one after the other: only the first is
      released; the second keeps its sampler and image. */
  method DestroyTwo(dev: Device, statics: ProcessStatics, a: TextureInterface, b: TextureInterface)
    requires !statics.textureDestroyed
    modifies statics`textureDestroyed, dev`calls
    ensures dev.calls == old(dev.calls) + [DestroyObject(SamplerObject, a.sampler)] + ImageReleases(a.image)
  {
    a.Destroy(dev, statics);
    b.Destroy(dev, statics);
  }
}
