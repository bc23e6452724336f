// What both revisions of Descriptor::initSets do once the pool and the layout
// exist: allocate one set per uniform buffer, each from its own copy of the
// single layout, and give set i two writes, the uniform buffer at binding 0
// and the shared texture sampler at binding 1.
module DescriptorSets {
  import opened Vk
  import opened Gpu

  /** The two writes of one set: buffer range `range` of `buffer` from offset
      0 at binding 0, and the sampler over `view` in ShaderReadOnlyOptimal at
      binding 1. */
  function SetWrites(dstSet: Handle, buffer: Handle, range: nat, sampler: Handle, view: Handle): seq<DescriptorWrite>
  {
    [DescriptorWrite(dstSet, 0, 0, UniformBuffer, 1, BufferInfo(buffer, 0, range)),
     DescriptorWrite(dstSet, 1, 0, CombinedImageSampler, 1, ImageInfo(sampler, view, ShaderReadOnlyOptimal))]
  }

  /** One updateDescriptorSets per set, in set order; `buffers[i]` is the
      buffer and range written into `sets[i]`. */
  function SetUpdates(sets: seq<Handle>, buffers: seq<(Handle, nat)>, sampler: Handle, view: Handle): seq<Call>
    requires |sets| == |buffers|
  {
    if sets == [] then
      []
    else
      SetUpdates(sets[..|sets| - 1], buffers[..|buffers| - 1], sampler, view)
        + [UpdateDescriptorSets(SetWrites(sets[|sets| - 1], buffers[|buffers| - 1].0, buffers[|buffers| - 1].1, sampler, view))]
  }

  /** Set i, and only set i, is written by update i, with exactly the two
      writes of its buffer and the shared sampler. */
  lemma {:induction false} SetUpdatesAt(sets: seq<Handle>, buffers: seq<(Handle, nat)>, sampler: Handle, view: Handle, i: nat)
    requires |sets| == |buffers| && i < |sets|
    ensures |SetUpdates(sets, buffers, sampler, view)| == |sets|
    ensures SetUpdates(sets, buffers, sampler, view)[i]
      == UpdateDescriptorSets(SetWrites(sets[i], buffers[i].0, buffers[i].1, sampler, view))
  {
    var n := |sets| - 1;
    SetUpdatesLength(sets[..n], buffers[..n], sampler, view);
    if i < n {
      SetUpdatesAt(sets[..n], buffers[..n], sampler, view, i);
    }
  }

  lemma {:induction false} SetUpdatesLength(sets: seq<Handle>, buffers: seq<(Handle, nat)>, sampler: Handle, view: Handle)
    requires |sets| == |buffers|
    ensures |SetUpdates(sets, buffers, sampler, view)| == |sets|
  {
    if sets != [] {
      SetUpdatesLength(sets[..|sets| - 1], buffers[..|buffers| - 1], sampler, view);
    }
  }

  /** `n` copies of the one layout, one per set to allocate. */
  function LayoutCopies(layout: Handle, n: nat): (r: seq<Handle>)
    ensures |r| == n && forall i :: 0 <= i < n ==> r[i] == layout
  {
    seq(n, _ => layout)
  }

  /** initSets from the allocation on: the sets come back as fresh handles,
      and the loop writes each one. */
  method WriteSets(dev: Device, pool: Handle, layout: Handle, buffers: seq<(Handle, nat)>, sampler: Handle, view: Handle)
    returns (sets: seq<Handle>)
    modifies dev
    ensures sets == HandleRange(old(dev.nextHandle), |buffers|) && dev.nextHandle == old(dev.nextHandle) + |buffers|
    ensures dev.calls == old(dev.calls) + [AllocateDescriptorSets(pool, LayoutCopies(layout, |buffers|), sets)]
                         + SetUpdates(sets, buffers, sampler, view)
  {
    sets := dev.NewHandles(|buffers|);
    dev.calls := dev.calls + [AllocateDescriptorSets(pool, LayoutCopies(layout, |buffers|), sets)];
    ghost var afterAllocate := dev.calls;
    for i := 0 to |buffers|
      invariant dev.nextHandle == old(dev.nextHandle) + |buffers|
      invariant dev.calls == afterAllocate + SetUpdates(sets[..i], buffers[..i], sampler, view)
    {
      var writes := SetWrites(sets[i], buffers[i].0, buffers[i].1, sampler, view);
      dev.calls := dev.calls + [UpdateDescriptorSets(writes)];
      assert sets[..i + 1][..i] == sets[..i] && buffers[..i + 1][..i] == buffers[..i];
    }
    assert sets[..|buffers|] == sets && buffers[..|buffers|] == buffers;
  }

  /** destroy: the pool if it was created (its sets go with it), then the
      layout if it was created. */
  function DescriptorDestroys(poolInited: bool, layoutInited: bool, pool: Handle, layout: Handle): seq<Call>
  {
    (if poolInited then [DestroyObject(DescriptorPoolObject, pool)] else [])
      + (if layoutInited then [DestroyObject(DescriptorSetLayoutObject, layout)] else [])
  }
}
