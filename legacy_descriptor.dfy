// Descriptor of the older revision: a descriptor-set layout, a pool and the
// sets allocated from it, each with an initialised flag that destroy clears.
// The device pointer comes from setPDevice; destroy does nothing while it is
// null, and the other members dereference it.
module LegacyDescriptors {
  import opened Vk
  import opened Gpu
  import opened BufferCommon
  import opened LegacyBuffers
  import opened DescriptorSets

  /** The buffer and range initSets is meant to write for each uniform
      buffer: the whole mapped buffer, bufferSize bytes. */
  function BindingRanges(bs: seq<BufferResourceUniform>): (r: seq<(Handle, nat)>)
    reads bs
    ensures |r| == |bs|
    ensures forall i :: 0 <= i < |bs| ==> r[i] == (bs[i].buffer, bs[i].bufferSize)
  {
    if bs == [] then []
    else BindingRanges(bs[..|bs| - 1]) + [(bs[|bs| - 1].buffer, bs[|bs| - 1].bufferSize)]
  }

  /** The buffer and range initSets writes as the code stands: the `size`
      field inherited from BufferResource, which the uniform buffer never
      sets. */
  function WrittenRanges(bs: seq<BufferResourceUniform>): (r: seq<(Handle, nat)>)
    reads bs
    ensures |r| == |bs|
    ensures forall i :: 0 <= i < |bs| ==> r[i] == (bs[i].buffer, bs[i].size)
  {
    if bs == [] then []
    else WrittenRanges(bs[..|bs| - 1]) + [(bs[|bs| - 1].buffer, bs[|bs| - 1].size)]
  }

  class Descriptor {
    /** pDevice is set. */
    var hasDevice: bool
    var pool: Handle
    var layout: Handle
    var sets: seq<Handle>
    var poolInited: bool
    var layoutInited: bool
    var setsInited: bool

    constructor ()
      ensures !hasDevice && !poolInited && !layoutInited && !setsInited
      ensures pool == NULL_HANDLE && layout == NULL_HANDLE && sets == []
    {
      hasDevice, pool, layout, sets := false, NULL_HANDLE, NULL_HANDLE, [];
      poolInited, layoutInited, setsInited := false, false, false;
    }

    /** setPDevice. */
    method SetDevice()
      modifies this`hasDevice
      ensures hasDevice
    {
      hasDevice := true;
    }

    /** destroy: nothing without a device; otherwise the pool, if created,
        is destroyed (and the sets with it), then the layout, if created.
        The device pointer is kept. */
    method Destroy(dev: Device)
      modifies this`poolInited, this`layoutInited, this`setsInited, dev`calls
      ensures !old(hasDevice) ==>
        dev.calls == old(dev.calls)
        && poolInited == old(poolInited) && layoutInited == old(layoutInited) && setsInited == old(setsInited)
      ensures old(hasDevice) ==>
        !poolInited && !layoutInited
        && setsInited == (old(setsInited) && !old(poolInited))
        && dev.calls == old(dev.calls) + DescriptorDestroys(old(poolInited), old(layoutInited), pool, layout)
    {
      if !hasDevice {
        return;
      }
      if poolInited {
        dev.calls := dev.calls + [DestroyObject(DescriptorPoolObject, pool)];
        poolInited, setsInited := false, false;
      }
      if layoutInited {
        dev.calls := dev.calls + [DestroyObject(DescriptorSetLayoutObject, layout)];
        layoutInited := false;
      }
    }

    /** initLayout: one layout with the given bindings. */
    method InitLayout(dev: Device, bindings: seq<LayoutBinding>)
      requires hasDevice
      modifies this`layout, this`layoutInited, dev
      ensures layoutInited && layout == old(dev.nextHandle) && dev.nextHandle == old(dev.nextHandle) + 1
      ensures dev.calls == old(dev.calls) + [CreateDescriptorSetLayout(layout, bindings)]
    {
      layout := dev.NewHandle();
      dev.calls := dev.calls + [CreateDescriptorSetLayout(layout, bindings)];
      layoutInited := true;
    }

    /** initPool: a pool for up to maxSets sets of the given sizes. */
    method InitPool(dev: Device, maxSets: nat, sizes: seq<PoolSize>)
      requires hasDevice
      modifies this`pool, this`poolInited, dev
      ensures poolInited && pool == old(dev.nextHandle) && dev.nextHandle == old(dev.nextHandle) + 1
      ensures dev.calls == old(dev.calls) + [CreateDescriptorPool(pool, maxSets, sizes)]
    {
      pool := dev.NewHandle();
      dev.calls := dev.calls + [CreateDescriptorPool(pool, maxSets, sizes)];
      poolInited := true;
    }

    /** initSets, writing each uniform buffer's whole range: one set per
        uniform buffer, set i bound to buffer i and to the shared sampler. */
    method InitSets(dev: Device, uniBuffers: seq<BufferResourceUniform>, sampler: Handle, view: Handle)
      requires hasDevice
      modifies this`sets, this`setsInited, dev
      ensures setsInited
      ensures sets == HandleRange(old(dev.nextHandle), |uniBuffers|) && dev.nextHandle == old(dev.nextHandle) + |uniBuffers|
      ensures dev.calls == old(dev.calls) + [AllocateDescriptorSets(pool, LayoutCopies(layout, |uniBuffers|), sets)]
                           + SetUpdates(sets, BindingRanges(uniBuffers), sampler, view)
    {
      sets := WriteSets(dev, pool, layout, BindingRanges(uniBuffers), sampler, view);
      setsInited := true;
    }

    /** initSets as written: the range of binding 0 is the buffer's `size`. */
    method InitSetsAsWritten(dev: Device, uniBuffers: seq<BufferResourceUniform>, sampler: Handle, view: Handle)
      requires hasDevice
      modifies this`sets, this`setsInited, dev
      ensures setsInited
      ensures sets == HandleRange(old(dev.nextHandle), |uniBuffers|) && dev.nextHandle == old(dev.nextHandle) + |uniBuffers|
      ensures dev.calls == old(dev.calls) + [AllocateDescriptorSets(pool, LayoutCopies(layout, |uniBuffers|), sets)]
                           + SetUpdates(sets, WrittenRanges(uniBuffers), sampler, view)
    {
      sets := WriteSets(dev, pool, layout, WrittenRanges(uniBuffers), sampler, view);
      setsInited := true;
    }
  }

  /** A uniform buffer of 64 bytes, initialised, then bound by the
      as-written initSets: the one set's uniform binding covers 0 bytes. */
  method ZeroRangeWitness(sampler: Handle, view: Handle)
    returns (u: BufferResourceUniform, d: Descriptor, dev: Device)
    ensures u.bufferSize == 64 && |d.sets| == 1 && |dev.calls| > 0
    ensures dev.calls[|dev.calls| - 1] == UpdateDescriptorSets(SetWrites(d.sets[0], u.buffer, 0, sampler, view))
  {
    dev := new Device();
    u := new BufferResourceUniform();
    var r := u.Init(dev, 64, MemoryQuery([HOST_VISIBLE_COHERENT], 1));
    d := new Descriptor();
    d.SetDevice();
    d.InitSetsAsWritten(dev, [u], sampler, view);
    SetUpdatesAt(d.sets, WrittenRanges([u]), sampler, view, 0);
  }
}
