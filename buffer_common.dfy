// What both revisions of BufferResource share: createBuffer (buffer, then
// memory of the first suitable type, then binding) and the staging buffer
// whose contents the device-local buffer is copied from.  The memory-type
// table and the memory requirements of each new buffer are the GPU's answers
// and are given by the caller.
module BufferCommon {
  import opened Wrappers
  import opened Vk
  import opened Gpu
  import opened GraphicsDetail
  import opened Recordings
  import opened Commands

  const HOST_VISIBLE_COHERENT: bv32 := MEMORY_HOST_VISIBLE | MEMORY_HOST_COHERENT

  /** The GPU's answers for one buffer: the physical device's memory-type
      flags and the memoryTypeBits of the buffer's requirements. */
  datatype MemoryQuery = MemoryQuery(typeFlags: seq<bv32>, requirementBits: bv32)

  predicate QueryWellFormed(q: MemoryQuery)
  {
    |q.typeFlags| <= MAX_MEMORY_TYPES
  }

  /** The memory type createBuffer allocates from, or its failure. */
  function MemoryTypeFor(q: MemoryQuery, properties: bv32): Result<nat>
    requires QueryWellFormed(q)
  {
    SuitableType(q.typeFlags, q.requirementBits, properties)
  }

  /** createBuffer's calls when a memory type is found. */
  function CreateBufferCalls(buffer: Handle, memory: Handle, size: nat, usage: bv32, memoryType: nat): seq<Call>
  {
    [CreateBuffer(buffer, size, usage), AllocateMemory(memory, memoryType), BindBufferMemory(buffer, memory)]
  }

  /** A buffer and its memory, released in that order. */
  function BufferDestroys(buffer: Handle, memory: Handle): seq<Call>
  {
    [DestroyObject(BufferObject, buffer), DestroyObject(MemoryObject, memory)]
  }

  /** createBuffer: the buffer is created first; when no memory type suits
      its requirements the search raises and the buffer is left behind;
      otherwise memory is allocated from the first suitable type and bound. */
  method CreateBufferObject(dev: Device, size: nat, usage: bv32, properties: bv32, q: MemoryQuery)
    returns (r: Result<(Handle, Handle)>)
    requires QueryWellFormed(q)
    modifies dev
    ensures MemoryTypeFor(q, properties).Err? ==>
      r == Err(MemoryTypeFor(q, properties).error)
      && dev.nextHandle == old(dev.nextHandle) + 1
      && dev.calls == old(dev.calls) + [CreateBuffer(old(dev.nextHandle), size, usage)]
    ensures MemoryTypeFor(q, properties).Ok? ==>
      r == Ok((old(dev.nextHandle), old(dev.nextHandle) + 1))
      && dev.nextHandle == old(dev.nextHandle) + 2
      && dev.calls == old(dev.calls)
         + CreateBufferCalls(old(dev.nextHandle), old(dev.nextHandle) + 1, size, usage, MemoryTypeFor(q, properties).value)
  {
    var buffer := dev.NewHandle();
    dev.calls := dev.calls + [CreateBuffer(buffer, size, usage)];
    var memoryType := FindMemoryType(q.typeFlags, q.requirementBits, properties);
    if memoryType.Err? {
      return Err(memoryType.error);
    }
    var memory := dev.NewHandle();
    dev.calls := dev.calls + [AllocateMemory(memory, memoryType.value), BindBufferMemory(buffer, memory)];
    r := Ok((buffer, memory));
  }

  /** StagingBuffer's constructor: a host-visible, host-coherent transfer
      source of the data's size, mapped, filled with the data and unmapped. */
  method CreateStaging(dev: Device, data: seq<bv8>, q: MemoryQuery) returns (r: Result<(Handle, Handle)>)
    requires QueryWellFormed(q)
    modifies dev
    ensures MemoryTypeFor(q, HOST_VISIBLE_COHERENT).Err? ==>
      r == Err(MemoryTypeFor(q, HOST_VISIBLE_COHERENT).error)
      && dev.nextHandle == old(dev.nextHandle) + 1
      && dev.calls == old(dev.calls) + [CreateBuffer(old(dev.nextHandle), |data|, BUFFER_USAGE_TRANSFER_SRC)]
    ensures MemoryTypeFor(q, HOST_VISIBLE_COHERENT).Ok? ==>
      r == Ok((old(dev.nextHandle), old(dev.nextHandle) + 1))
      && dev.nextHandle == old(dev.nextHandle) + 2
      && dev.calls == old(dev.calls) + StagingCalls(old(dev.nextHandle), old(dev.nextHandle) + 1, data,
                                                   MemoryTypeFor(q, HOST_VISIBLE_COHERENT).value)
  {
    r := CreateBufferObject(dev, |data|, BUFFER_USAGE_TRANSFER_SRC, HOST_VISIBLE_COHERENT, q);
    if r.Ok? {
      dev.calls := dev.calls + [FillStaging(r.value.1, data)];
    }
  }

  function StagingCalls(buffer: Handle, memory: Handle, data: seq<bv8>, memoryType: nat): seq<Call>
  {
    CreateBufferCalls(buffer, memory, |data|, BUFFER_USAGE_TRANSFER_SRC, memoryType) + [FillStaging(memory, data)]
  }

  /** `calls[k]` is `copy`, and no other call is a copy. */
  predicate OnlyCopyAt(calls: seq<Call>, k: nat, copy: Call)
  {
    k < |calls| && calls[k] == copy
    && forall i :: 0 <= i < |calls| && i != k ==> !calls[i].CopyBuffer?
  }

  predicate NoCopy(calls: seq<Call>)
  {
    forall i :: 0 <= i < |calls| ==> !calls[i].CopyBuffer?
  }

  /** Calls without a copy around a list with one copy shift it. */
  lemma OnlyCopyPrefix(a: seq<Call>, m: seq<Call>, k: nat, copy: Call)
    requires NoCopy(a) && OnlyCopyAt(m, k, copy)
    ensures OnlyCopyAt(a + m, |a| + k, copy)
  {
    forall i | 0 <= i < |a + m| && i != |a| + k
      ensures !(a + m)[i].CopyBuffer?
    {
      if i >= |a| {
        assert (a + m)[i] == m[i - |a|];
      }
    }
  }

  lemma OnlyCopySuffix(m: seq<Call>, k: nat, copy: Call, b: seq<Call>)
    requires OnlyCopyAt(m, k, copy) && NoCopy(b)
    ensures OnlyCopyAt(m + b, k, copy)
  {
    forall i | 0 <= i < |m + b| && i != k
      ensures !(m + b)[i].CopyBuffer?
    {
      if i >= |m| {
        assert (m + b)[i] == b[i - |m|];
      }
    }
  }

  /** The one-shot copy records its only copy third, after allocating and
      beginning the command buffer. */
  lemma DisposableCopy(cmd: Handle, src: Handle, dst: Handle, size: nat, idle: nat)
    ensures OnlyCopyAt(DisposableCalls(cmd, CopyRegion(src, dst, size), idle), 2, CopyBuffer(cmd, src, dst, size))
  {
    var d := DisposableCalls(cmd, CopyRegion(src, dst, size), idle);
    var waits := Repeat(QueueWaitIdle, idle);
    forall i | 0 <= i < |d| && i != 2
      ensures !d[i].CopyBuffer?
    {
      if 5 <= i < 5 + idle {
        assert d[i] == waits[i - 5];
      }
    }
  }
}
