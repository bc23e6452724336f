// ModelInterface of the newer revision: three parallel lists, one entry per
// model read (its index count, its vertex buffer, its index buffer), and
// getters by model index.  The buffers are newer-revision BufferResources,
// whose destructor runs their static-flag destroy: clearing the lists runs
// it once per element, and only the first of those calls in the process
// releases anything.
module CoreModels {
  import opened Wrappers
  import opened Vk
  import opened Gpu
  import opened Commands
  import opened BufferCommon
  import opened CoreBuffers
  import opened Statics
  import opened CoreTextures

  const VERTEX_BUFFER_USAGE: bv32 := BUFFER_USAGE_TRANSFER_DST | BUFFER_USAGE_VERTEX
  const INDEX_BUFFER_USAGE: bv32 := BUFFER_USAGE_TRANSFER_DST | BUFFER_USAGE_INDEX

  /** The GPU's answers for one buffer upload: the memory types and
      requirements of the device buffer and of its staging buffer, and the
      queue-idle answers of the one-shot copy. */
  datatype UploadAnswers = UploadAnswers(buffer: MemoryQuery, staging: MemoryQuery, idle: seq<VkResult>)

  predicate AnswersWellFormed(a: UploadAnswers)
  {
    QueryWellFormed(a.buffer) && QueryWellFormed(a.staging) && Settles(a.idle)
  }

  function DeviceType(a: UploadAnswers): Result<nat>
    requires AnswersWellFormed(a)
  {
    MemoryTypeFor(a.buffer, MEMORY_DEVICE_LOCAL)
  }

  function StagingType(a: UploadAnswers): Result<nat>
    requires AnswersWellFormed(a)
  {
    MemoryTypeFor(a.staging, HOST_VISIBLE_COHERENT)
  }

  /** One device-local upload of `data` with `usage`, from handle `start`. */
  function UploadCalls(start: Handle, data: seq<bv8>, usage: bv32, a: UploadAnswers): seq<Call>
    requires AnswersWellFormed(a)
  {
    InitTrace(start, data, usage, DeviceType(a), StagingType(a), FirstSettled(a.idle) + 1)
  }

  function UploadOutcome(a: UploadAnswers): Outcome
    requires AnswersWellFormed(a)
  {
    InitOutcome(DeviceType(a), StagingType(a))
  }

  function UploadHandles(a: UploadAnswers): nat
    requires AnswersWellFormed(a)
  {
    InitHandles(DeviceType(a), StagingType(a))
  }

  /** read's calls: the vertex upload, then, unless it raised, the index
      upload. */
  function ReadCalls(start: Handle, vertices: seq<bv8>, indices: seq<bv8>, va: UploadAnswers, ia: UploadAnswers): seq<Call>
    requires AnswersWellFormed(va) && AnswersWellFormed(ia)
  {
    UploadCalls(start, vertices, VERTEX_BUFFER_USAGE, va)
      + if UploadOutcome(va).Fail? then []
        else UploadCalls(start + UploadHandles(va), indices, INDEX_BUFFER_USAGE, ia)
  }

  /** read's result: the first upload that raises, else Done. */
  function ReadOutcome(va: UploadAnswers, ia: UploadAnswers): Outcome
    requires AnswersWellFormed(va) && AnswersWellFormed(ia)
  {
    if UploadOutcome(va).Fail? then UploadOutcome(va) else UploadOutcome(ia)
  }

  /** The handles read's uploads take. */
  function ReadHandles(va: UploadAnswers, ia: UploadAnswers): nat
    requires AnswersWellFormed(va) && AnswersWellFormed(ia)
  {
    UploadHandles(va) + if UploadOutcome(va).Fail? then 0 else UploadHandles(ia)
  }

  /** The calls of running the static-flag destroy on each buffer in turn:
      only the first, and only if no BufferResource was destroyed before. */
  function FirstRelease(destroyed: bool, bufs: seq<BufferResource>): seq<Call>
    reads bufs
  {
    if destroyed || bufs == [] then [] else BufferDestroys(bufs[0].buffer, bufs[0].memory)
  }

  /** Running the static-flag destroy on `a`'s buffers and then on `b`'s
      is running it on all of them in turn. */
  lemma FirstReleaseAppend(destroyed: bool, a: seq<BufferResource>, b: seq<BufferResource>)
    ensures FirstRelease(destroyed, a) + FirstRelease(destroyed || a != [], b) == FirstRelease(destroyed, a + b)
  {
    if !destroyed && a != [] {
      assert (a + b)[0] == a[0];
    } else if a == [] {
      assert a + b == b;
    }
  }

  /** The destructors of `bufs`, in order, as a reallocation or a clear
      runs them: each calls the static-flag destroy. */
  method RunDestructors(dev: Device, statics: ProcessStatics, bufs: seq<BufferResource>)
    modifies statics`bufferDestroyed, dev`calls
    ensures statics.bufferDestroyed == (old(statics.bufferDestroyed) || bufs != [])
    ensures dev.calls == old(dev.calls) + FirstRelease(old(statics.bufferDestroyed), bufs)
  {
    var i := 0;
    while i < |bufs|
      invariant 0 <= i <= |bufs|
      invariant statics.bufferDestroyed == (old(statics.bufferDestroyed) || i > 0)
      invariant dev.calls == old(dev.calls) + FirstRelease(old(statics.bufferDestroyed), bufs[..i])
    {
      bufs[i].Destroy(dev, statics);
      assert bufs[..i + 1][0] == bufs[0];
      i := i + 1;
    }
    assert bufs[..i] == bufs;
  }

  /** One device-local upload into `buf`, its result spelled in the
      answers' terms. */
  method UploadInto(dev: Device, buf: BufferResource, data: seq<bv8>, usage: bv32, a: UploadAnswers, ghost start: Handle)
    returns (r: Outcome)
    requires AnswersWellFormed(a) && dev.nextHandle == start
    modifies buf, dev
    ensures r == UploadOutcome(a)
    ensures dev.nextHandle == start + UploadHandles(a)
    ensures dev.calls == old(dev.calls) + UploadCalls(start, data, usage, a)
    ensures DeviceType(a).Ok? ==> buf.buffer == start
  {
    r := buf.Init(dev, data, usage, MEMORY_DEVICE_LOCAL, a.buffer, a.staging, a.idle);
  }

  /** The vertex bytes, then, unless that raised, the index bytes, each
      into its own device-local buffer. */
  method UploadPair(dev: Device, vertBuf: BufferResource, idxBuf: BufferResource,
                    vertices: seq<bv8>, indices: seq<bv8>, va: UploadAnswers, ia: UploadAnswers, ghost start: Handle)
    returns (r: Outcome)
    requires AnswersWellFormed(va) && AnswersWellFormed(ia) && dev.nextHandle == start
    modifies vertBuf, idxBuf, dev
    ensures r == ReadOutcome(va, ia) && dev.nextHandle == start + ReadHandles(va, ia)
    ensures dev.calls == old(dev.calls) + ReadCalls(start, vertices, indices, va, ia)
    ensures vertBuf != idxBuf && DeviceType(va).Ok? ==> vertBuf.buffer == start
    ensures UploadOutcome(va).Done? && DeviceType(ia).Ok? ==> idxBuf.buffer == start + UploadHandles(va)
  {
    ghost var before := dev.calls;
    ghost var vertCalls := UploadCalls(start, vertices, VERTEX_BUFFER_USAGE, va);
    r := UploadInto(dev, vertBuf, vertices, VERTEX_BUFFER_USAGE, va, start);
    if r.Fail? {
      assert ReadCalls(start, vertices, indices, va, ia) == vertCalls + [];
      return;
    }
    ghost var idxCalls := UploadCalls(start + UploadHandles(va), indices, INDEX_BUFFER_USAGE, ia);
    assert ReadCalls(start, vertices, indices, va, ia) == vertCalls + idxCalls;
    r := UploadInto(dev, idxBuf, indices, INDEX_BUFFER_USAGE, ia, start + UploadHandles(va));
    AppendAssoc(before, vertCalls, idxCalls);
  }

  class ModelInterface {
    var vertBufs: seq<BufferResource>
    var idxBufs: seq<BufferResource>
    var idxSizes: seq<nat>

    constructor ()
      ensures vertBufs == [] && idxBufs == [] && idxSizes == []
    {
      vertBufs, idxBufs, idxSizes := [], [], [];
    }

    /** read: one entry is appended to each list before anything is
        uploaded, so an upload that raises leaves its entries behind; then
        the vertex bytes and the index bytes are uploaded into device-local
        buffers, in that order.  `grows` says whether the two buffer
        emplace_backs outgrow the lists' capacity, a choice of the standard
        library; the two lists always hold as many entries, so they grow
        together.  A list that grows copies its elements (BufferResource
        declares a destructor, so it has no move constructor) and runs the
        old elements' destructors: the vertex list's, then the index
        list's. */
    method Read(dev: Device, statics: ProcessStatics, grows: bool,
                vertices: seq<bv8>, indices: seq<bv8>, idxSize: nat, va: UploadAnswers, ia: UploadAnswers)
      returns (r: Outcome)
      requires AnswersWellFormed(va) && AnswersWellFormed(ia)
      modifies this`vertBufs, this`idxBufs, this`idxSizes, dev, statics`bufferDestroyed
      ensures statics.bufferDestroyed ==
        (old(statics.bufferDestroyed) || (grows && old(vertBufs) + old(idxBufs) != []))
      ensures idxSizes == old(idxSizes) + [idxSize]
      ensures |vertBufs| == |old(vertBufs)| + 1 && vertBufs[..|old(vertBufs)|] == old(vertBufs)
      ensures |idxBufs| == |old(idxBufs)| + 1 && idxBufs[..|old(idxBufs)|] == old(idxBufs)
      ensures fresh(vertBufs[|vertBufs| - 1]) && fresh(idxBufs[|idxBufs| - 1])
      ensures dev.calls == old(dev.calls)
        + (if grows then FirstRelease(old(statics.bufferDestroyed), old(vertBufs) + old(idxBufs)) else [])
        + ReadCalls(old(dev.nextHandle), vertices, indices, va, ia)
      ensures r == ReadOutcome(va, ia) && dev.nextHandle == old(dev.nextHandle) + ReadHandles(va, ia)
      ensures DeviceType(va).Ok? ==> vertBufs[|vertBufs| - 1].buffer == old(dev.nextHandle)
      ensures UploadOutcome(va).Done? && DeviceType(ia).Ok? ==>
        idxBufs[|idxBufs| - 1].buffer == old(dev.nextHandle) + UploadHandles(va)
    {
      idxSizes := idxSizes + [idxSize];
      var vertBuf, idxBuf := EmplaceBuffers(dev, statics, grows);
      r := UploadPair(dev, vertBuf, idxBuf, vertices, indices, va, ia, dev.nextHandle);
    }

    /** The two emplace_backs of read: a fresh, empty buffer at the end of
        each list, and, when the lists grow, the old elements' destructors,
        the vertex list's before the index list's. */
    method EmplaceBuffers(dev: Device, statics: ProcessStatics, grows: bool)
      returns (vertBuf: BufferResource, idxBuf: BufferResource)
      modifies this`vertBufs, this`idxBufs, dev`calls, statics`bufferDestroyed
      ensures fresh(vertBuf) && fresh(idxBuf) && vertBuf != idxBuf
      ensures vertBufs == old(vertBufs) + [vertBuf] && idxBufs == old(idxBufs) + [idxBuf]
      ensures statics.bufferDestroyed ==
        (old(statics.bufferDestroyed) || (grows && old(vertBufs) + old(idxBufs) != []))
      ensures dev.calls == old(dev.calls)
        + (if grows then FirstRelease(old(statics.bufferDestroyed), old(vertBufs) + old(idxBufs)) else [])
      ensures dev.nextHandle == old(dev.nextHandle)
    {
      vertBuf := new BufferResource();
      if grows {
        RunDestructors(dev, statics, vertBufs);
      }
      vertBufs := vertBufs + [vertBuf];
      idxBuf := new BufferResource();
      if grows {
        RunDestructors(dev, statics, idxBufs);
        FirstReleaseAppend(old(statics.bufferDestroyed), old(vertBufs), idxBufs);
      }
      idxBufs := idxBufs + [idxBuf];
    }

    /** getVertBuffer: the vertex buffer of the idx-th read. */
    method GetVertBuffer(idx: nat) returns (b: Handle)
      requires idx < |vertBufs|
      ensures b == vertBufs[idx].buffer
    {
      b := vertBufs[idx].buffer;
    }

    /** getIdxBuffer: the index buffer of the idx-th read. */
    method GetIdxBuffer(idx: nat) returns (b: Handle)
      requires idx < |idxBufs|
      ensures b == idxBufs[idx].buffer
    {
      b := idxBufs[idx].buffer;
    }

    /** getIdxSize: the index count given to the idx-th read. */
    method GetIdxSize(idx: nat) returns (n: nat)
      requires idx < |idxSizes|
      ensures n == idxSizes[idx]
    {
      n := idxSizes[idx];
    }

    /** getTextureSampler: the renderer's one texture, whatever the index. */
    method GetTextureSampler(idx: nat, texture: TextureInterface) returns (s: Handle)
      ensures s == texture.sampler
    {
      s := texture.sampler;
    }

    /** getTextureImageView: likewise. */
    method GetTextureImage(idx: nat, texture: TextureInterface) returns (i: Handle)
      ensures i == texture.image
    {
      i := texture.image;
    }

    /** destroy: both buffer lists are cleared, each element's destructor
        running destroy in order; the index counts are kept. */
    method Destroy(dev: Device, statics: ProcessStatics)
      modifies this`vertBufs, this`idxBufs, statics`bufferDestroyed, dev`calls
      ensures vertBufs == [] && idxBufs == [] && idxSizes == old(idxSizes)
      ensures statics.bufferDestroyed == (old(statics.bufferDestroyed) || old(vertBufs) + old(idxBufs) != [])
      ensures dev.calls == old(dev.calls) + FirstRelease(old(statics.bufferDestroyed), old(vertBufs) + old(idxBufs))
    {
      RunDestructors(dev, statics, vertBufs + idxBufs);
      vertBufs, idxBufs := [], [];
    }
  }

  /** Early in a run, before any BufferResource was destroyed, a second
      read whose lists grow releases the first read's vertex buffer and its
      memory, although the list still holds that buffer, before its own
      uploads. */
  method GrowingReadReleasesLiveBuffer(dev: Device, statics: ProcessStatics, mi: ModelInterface,
                                       vertices: seq<bv8>, indices: seq<bv8>, idxSize: nat,
                                       va: UploadAnswers, ia: UploadAnswers)
    returns (r: Outcome)
    requires AnswersWellFormed(va) && AnswersWellFormed(ia)
    requires !statics.bufferDestroyed && |mi.vertBufs| == 1
    modifies mi, dev, statics
    ensures |mi.vertBufs| == 2 && mi.vertBufs[0] == old(mi.vertBufs[0]) && statics.bufferDestroyed
    ensures dev.calls == old(dev.calls) + BufferDestroys(mi.vertBufs[0].buffer, mi.vertBufs[0].memory)
                         + ReadCalls(old(dev.nextHandle), vertices, indices, va, ia)
  {
    r := mi.Read(dev, statics, true, vertices, indices, idxSize, va, ia);
  }
}
