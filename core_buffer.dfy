// BufferResource and BufferResourceUniform of the newer revision.  The device
// is the renderer's process-wide one, so init takes no device pointer, and
// each destroy is guarded by its function's static flag: the first call on
// any object releases that object's buffer and memory, and every later call,
// on whichever object, does nothing.
module CoreBuffers {
  import opened Wrappers
  import opened Vk
  import opened Gpu
  import opened Recordings
  import opened Commands
  import opened Statics
  import opened BufferCommon

  /** init's calls from the staging buffer on, once the device buffer
      (`start`, `start + 1`) exists.  A memory-type failure in the staging
      buffer's constructor raises out of it, so its destructor never runs and
      its buffer is left behind; otherwise the one-shot copy runs and the
      staging buffer is released at the end of init's scope. */
  function StagingTrace(start: Handle, data: seq<bv8>, staging: Result<nat>, idle: nat): seq<Call>
  {
    if staging.Err? then
      [CreateBuffer(start + 2, |data|, BUFFER_USAGE_TRANSFER_SRC)]
    else
      StagingCalls(start + 2, start + 3, data, staging.value)
        + DisposableCalls(start + 4, CopyRegion(start + 2, start, |data|), idle)
        + BufferDestroys(start + 2, start + 3)
  }

  /** init's calls for each answer of the two memory-type searches; the
      device buffer's comes first. */
  function InitTrace(start: Handle, data: seq<bv8>, usage: bv32, device: Result<nat>, staging: Result<nat>, idle: nat): seq<Call>
  {
    if device.Err? then [CreateBuffer(start, |data|, usage)]
    else CreateBufferCalls(start, start + 1, |data|, usage, device.value) + StagingTrace(start, data, staging, idle)
  }

  /** What init raises, if anything: the device buffer's search runs first. */
  function InitOutcome(device: Result<nat>, staging: Result<nat>): Outcome
  {
    if device.Err? then Fail(device.error)
    else if staging.Err? then Fail(staging.error)
    else Done
  }

  /** How many handles init takes: the device buffer and its memory, the
      staging buffer and its memory, the one-shot command buffer. */
  function InitHandles(device: Result<nat>, staging: Result<nat>): nat
  {
    if device.Err? then 1 else if staging.Err? then 3 else 5
  }

  /** The device buffer is created before the staging buffer. */
  lemma InitOrder(start: Handle, data: seq<bv8>, usage: bv32, deviceType: nat, staging: Result<nat>, idle: nat)
    ensures var t := InitTrace(start, data, usage, Ok(deviceType), staging, idle);
      |t| > 3 && t[0] == CreateBuffer(start, |data|, usage)
      && t[3] == CreateBuffer(start + 2, |data|, BUFFER_USAGE_TRANSFER_SRC)
  {
  }

  /** init copies exactly once, `|data|` bytes, from the staging buffer into
      the device buffer, after both exist and before the staging buffer is
      released. */
  lemma InitCopiesOnce(start: Handle, data: seq<bv8>, usage: bv32, deviceType: nat, stagingType: nat, idle: nat)
    ensures OnlyCopyAt(InitTrace(start, data, usage, Ok(deviceType), Ok(stagingType), idle), 9,
                       CopyBuffer(start + 4, start + 2, start, |data|))
  {
    var copy := CopyBuffer(start + 4, start + 2, start, |data|);
    var staging := StagingCalls(start + 2, start + 3, data, stagingType);
    var disposable := DisposableCalls(start + 4, CopyRegion(start + 2, start, |data|), idle);
    DisposableCopy(start + 4, start + 2, start, |data|, idle);
    OnlyCopyPrefix(staging, disposable, 2, copy);
    OnlyCopySuffix(staging + disposable, 6, copy, BufferDestroys(start + 2, start + 3));
    OnlyCopyPrefix(CreateBufferCalls(start, start + 1, |data|, usage, deviceType), staging + disposable + BufferDestroys(start + 2, start + 3), 6, copy);
  }

  class BufferResource {
    var buffer: Handle
    var memory: Handle
    var size: nat

    constructor ()
      ensures buffer == NULL_HANDLE && memory == NULL_HANDLE && size == 0
    {
      buffer, memory, size := NULL_HANDLE, NULL_HANDLE, 0;
    }

    /** destroy: only the first call in the process, on any buffer, releases
        anything. */
    method Destroy(dev: Device, statics: ProcessStatics)
      modifies statics`bufferDestroyed, dev`calls
      ensures statics.bufferDestroyed
      ensures old(statics.bufferDestroyed) ==> dev.calls == old(dev.calls)
      ensures !old(statics.bufferDestroyed) ==> dev.calls == old(dev.calls) + BufferDestroys(buffer, memory)
    {
      if !statics.bufferDestroyed {
        dev.calls := dev.calls + BufferDestroys(buffer, memory);
        statics.bufferDestroyed := true;
      }
    }

    /** init: size = |data|, then the device buffer is created and its
        handles stored, then the staging buffer is built and the data copied
        across.  A memory-type failure raises; the handles stored before it
        are kept. */
    method Init(dev: Device, data: seq<bv8>, usage: bv32, properties: bv32,
                bufferQuery: MemoryQuery, stagingQuery: MemoryQuery, idleAnswers: seq<VkResult>)
      returns (r: Outcome)
      requires QueryWellFormed(bufferQuery) && QueryWellFormed(stagingQuery) && Settles(idleAnswers)
      modifies this, dev
      ensures size == |data|
      ensures var device, staging := MemoryTypeFor(bufferQuery, properties), MemoryTypeFor(stagingQuery, HOST_VISIBLE_COHERENT);
        r == InitOutcome(device, staging)
        && dev.nextHandle == old(dev.nextHandle) + InitHandles(device, staging)
        && dev.calls == old(dev.calls) + InitTrace(old(dev.nextHandle), data, usage, device, staging, FirstSettled(idleAnswers) + 1)
        && (if device.Err? then buffer == old(buffer) && memory == old(memory)
            else buffer == old(dev.nextHandle) && memory == old(dev.nextHandle) + 1)
    {
      ghost var before := dev.calls;
      size := |data|;
      var created := CreateBufferObject(dev, size, usage, properties, bufferQuery);
      if created.Err? {
        return Fail(created.error);
      }
      buffer, memory := created.value.0, created.value.1;
      ghost var afterBuffer := dev.calls;
      r := StageAndCopy(dev, data, buffer, stagingQuery, idleAnswers);
      AppendAssoc(before, afterBuffer[|before|..], dev.calls[|afterBuffer|..]);
    }
  }

  /** StagingBuffer{inData} and the one-shot copy into `buffer`. */
  method StageAndCopy(dev: Device, data: seq<bv8>, buffer: Handle, q: MemoryQuery, idleAnswers: seq<VkResult>)
    returns (r: Outcome)
    requires QueryWellFormed(q) && Settles(idleAnswers) && buffer + 2 == dev.nextHandle
    modifies dev
    ensures var staging := MemoryTypeFor(q, HOST_VISIBLE_COHERENT);
      r == (if staging.Err? then Fail(staging.error) else Done)
      && dev.nextHandle == old(dev.nextHandle) + (if staging.Err? then 1 else 3)
      && dev.calls == old(dev.calls) + StagingTrace(buffer, data, staging, FirstSettled(idleAnswers) + 1)
  {
    ghost var before := dev.calls;
    var staging := CreateStaging(dev, data, q);
    if staging.Err? {
      return Fail(staging.error);
    }
    ghost var stagingCalls := dev.calls[|before|..];
    var cmd := DisposableCommands(dev, CopyRegion(staging.value.0, buffer, |data|), idleAnswers);
    ghost var copyCalls := dev.calls[|before| + |stagingCalls|..];
    dev.calls := dev.calls + BufferDestroys(staging.value.0, staging.value.1);
    AppendAssoc(before, stagingCalls, copyCalls);
    AppendAssoc(before, stagingCalls + copyCalls, BufferDestroys(staging.value.0, staging.value.1));
    r := Done;
  }

  class BufferResourceUniform {
    var buffer: Handle
    var memory: Handle
    /** Inherited from BufferResource and never set by the uniform buffer. */
    var size: nat
    var bufferSize: nat
    /** The persistently mapped memory, as the host writes it. */
    var mapped: seq<bv8>

    constructor ()
      ensures buffer == NULL_HANDLE && memory == NULL_HANDLE
      ensures size == 0 && bufferSize == 0 && mapped == []
    {
      buffer, memory := NULL_HANDLE, NULL_HANDLE;
      size, bufferSize, mapped := 0, 0, [];
    }

    /** destroy: its own static flag, separate from BufferResource's. */
    method Destroy(dev: Device, statics: ProcessStatics)
      modifies statics`uniformBufferDestroyed, dev`calls
      ensures statics.uniformBufferDestroyed
      ensures old(statics.uniformBufferDestroyed) ==> dev.calls == old(dev.calls)
      ensures !old(statics.uniformBufferDestroyed) ==> dev.calls == old(dev.calls) + BufferDestroys(buffer, memory)
    {
      if !statics.uniformBufferDestroyed {
        dev.calls := dev.calls + BufferDestroys(buffer, memory);
        statics.uniformBufferDestroyed := true;
      }
    }

    /** init: records bufferSize, creates a host-visible, host-coherent
        uniform buffer and maps all of it once.  The contents of the fresh
        mapping are unspecified. */
    method Init(dev: Device, bytes: nat, q: MemoryQuery) returns (r: Outcome)
      requires QueryWellFormed(q)
      modifies this, dev
      ensures bufferSize == bytes && size == old(size)
      ensures MemoryTypeFor(q, HOST_VISIBLE_COHERENT).Err? ==>
        r == Fail(MemoryTypeFor(q, HOST_VISIBLE_COHERENT).error)
        && buffer == old(buffer) && memory == old(memory) && mapped == old(mapped)
        && dev.calls == old(dev.calls) + [CreateBuffer(old(dev.nextHandle), bytes, BUFFER_USAGE_UNIFORM)]
      ensures MemoryTypeFor(q, HOST_VISIBLE_COHERENT).Ok? ==>
        r == Done && buffer == old(dev.nextHandle) && memory == old(dev.nextHandle) + 1
        && dev.nextHandle == old(dev.nextHandle) + 2 && |mapped| == bytes
        && dev.calls == old(dev.calls)
           + CreateBufferCalls(buffer, memory, bytes, BUFFER_USAGE_UNIFORM, MemoryTypeFor(q, HOST_VISIBLE_COHERENT).value)
           + [MapMemory(memory, bytes)]
    {
      bufferSize := bytes;
      var created := CreateBufferObject(dev, bufferSize, BUFFER_USAGE_UNIFORM, HOST_VISIBLE_COHERENT, q);
      if created.Err? {
        return Fail(created.error);
      }
      buffer, memory := created.value.0, created.value.1;
      dev.calls := dev.calls + [MapMemory(memory, bufferSize)];
      mapped := seq(bufferSize, _ => 0);
      r := Done;
    }

    /** update: data of any other size than bufferSize raises before the
        copy, leaving the mapping as it was; data of that size overwrites the
        whole mapping, without mapping or unmapping. */
    method Update(data: seq<bv8>) returns (r: Outcome)
      modifies this`mapped
      ensures |data| != bufferSize ==>
        r == Fail(Fatal("uniform buffer size not compatible")) && mapped == old(mapped)
      ensures |data| == bufferSize ==> r == Done && mapped == data
    {
      if |data| != bufferSize {
        return Fail(Fatal("uniform buffer size not compatible"));
      }
      mapped := data;
      r := Done;
    }
  }

  /** Two buffers destroyed one after the other: the second release is
      skipped, whichever buffer it belongs to. */
  method DestroyTwo(dev: Device, statics: ProcessStatics, a: BufferResource, b: BufferResource)
    requires !statics.bufferDestroyed
    modifies statics`bufferDestroyed, dev`calls
    ensures dev.calls == old(dev.calls) + BufferDestroys(a.buffer, a.memory)
  {
    a.Destroy(dev, statics);
    b.Destroy(dev, statics);
  }
}
