// BufferResource and BufferResourceUniform of the older revision.  Each
// object holds the device pointer it was initialised with; destroy does
// nothing while that pointer is null and nulls it after releasing the
// buffer and its memory, so destroying twice releases once.
module LegacyBuffers {
  import opened Wrappers
  import opened Vk
  import opened Gpu
  import opened Recordings
  import opened Commands
  import opened BufferCommon

  /** init's calls from the device buffer on, once the staging buffer
      (`start`, `start + 1`) exists: a memory-type failure for the device
      buffer releases the staging buffer as the exception leaves init;
      otherwise a one-shot command buffer copies the data across and the
      staging buffer is released at the end of init's scope. */
  function DeviceTrace(start: Handle, size: nat, usage: bv32, device: Result<nat>, idle: nat): seq<Call>
  {
    if device.Err? then
      [CreateBuffer(start + 2, size, usage)] + BufferDestroys(start, start + 1)
    else
      CreateBufferCalls(start + 2, start + 3, size, usage, device.value)
        + DisposableCalls(start + 4, CopyRegion(start, start + 2, size), idle)
        + BufferDestroys(start, start + 1)
  }

  /** init's calls for each answer of the two memory-type searches; the
      staging buffer's comes first. */
  function InitTrace(start: Handle, data: seq<bv8>, usage: bv32, staging: Result<nat>, device: Result<nat>, idle: nat): seq<Call>
  {
    if staging.Err? then [CreateBuffer(start, |data|, BUFFER_USAGE_TRANSFER_SRC)]
    else StagingCalls(start, start + 1, data, staging.value) + DeviceTrace(start, |data|, usage, device, idle)
  }

  /** init copies exactly once, `|data|` bytes, from the staging buffer into
      the device buffer, after both buffers exist and before the staging
      buffer is released. */
  lemma InitCopiesOnce(start: Handle, data: seq<bv8>, usage: bv32, stagingType: nat, memoryType: nat, idle: nat)
    ensures OnlyCopyAt(InitTrace(start, data, usage, Ok(stagingType), Ok(memoryType), idle), 9,
                       CopyBuffer(start + 4, start, start + 2, |data|))
  {
    var copy := CopyBuffer(start + 4, start, start + 2, |data|);
    var device := CreateBufferCalls(start + 2, start + 3, |data|, usage, memoryType);
    var disposable := DisposableCalls(start + 4, CopyRegion(start, start + 2, |data|), idle);
    DisposableCopy(start + 4, start, start + 2, |data|, idle);
    OnlyCopyPrefix(device, disposable, 2, copy);
    OnlyCopySuffix(device + disposable, 5, copy, BufferDestroys(start, start + 1));
    OnlyCopyPrefix(StagingCalls(start, start + 1, data, stagingType), device + disposable + BufferDestroys(start, start + 1), 5, copy);
  }

  class BufferResource {
    /** pDevice is set. */
    var hasDevice: bool
    var buffer: Handle
    var memory: Handle
    var size: nat

    constructor ()
      ensures !hasDevice && buffer == NULL_HANDLE && memory == NULL_HANDLE && size == 0
    {
      hasDevice, buffer, memory, size := false, NULL_HANDLE, NULL_HANDLE, 0;
    }

    method Destroy(dev: Device)
      modifies this`hasDevice, dev`calls
      ensures !hasDevice
      ensures !old(hasDevice) ==> dev.calls == old(dev.calls)
      ensures old(hasDevice) ==> dev.calls == old(dev.calls) + BufferDestroys(buffer, memory)
    {
      if !hasDevice {
        return;
      }
      dev.calls := dev.calls + BufferDestroys(buffer, memory);
      hasDevice := false;
    }

    /** init: records the device and size = |data|, builds the staging buffer,
        creates the device buffer and copies the data into it.  A memory-type
        failure raises, and the handles stored before it are kept. */
    method Init(dev: Device, data: seq<bv8>, usage: bv32, properties: bv32,
                stagingQuery: MemoryQuery, bufferQuery: MemoryQuery, idleAnswers: seq<VkResult>)
      returns (r: Outcome)
      requires QueryWellFormed(stagingQuery) && QueryWellFormed(bufferQuery) && Settles(idleAnswers)
      modifies this, dev
      ensures hasDevice && size == |data|
      ensures var staging, device := MemoryTypeFor(stagingQuery, HOST_VISIBLE_COHERENT), MemoryTypeFor(bufferQuery, properties);
        r == InitOutcome(staging, device)
        && dev.calls == old(dev.calls) + InitTrace(old(dev.nextHandle), data, usage, staging, device, FirstSettled(idleAnswers) + 1)
        && (r.Done? ==> buffer == old(dev.nextHandle) + 2 && memory == old(dev.nextHandle) + 3)
        && (r.Fail? ==> buffer == old(buffer) && memory == old(memory))
    {
      ghost var before := dev.calls;
      hasDevice := true;
      size := |data|;
      var staging := CreateStaging(dev, data, stagingQuery);
      if staging.Err? {
        return Fail(staging.error);
      }
      ghost var afterStaging := dev.calls;
      r := CreateAndCopy(dev, staging.value, usage, properties, bufferQuery, idleAnswers);
      AppendAssoc(before, afterStaging[|before|..], dev.calls[|afterStaging|..]);
    }

    /** init from the device buffer on. */
    method CreateAndCopy(dev: Device, staging: (Handle, Handle), usage: bv32, properties: bv32,
                         q: MemoryQuery, idleAnswers: seq<VkResult>)
      returns (r: Outcome)
      requires QueryWellFormed(q) && Settles(idleAnswers)
      requires staging == (dev.nextHandle - 2, dev.nextHandle - 1)
      modifies this`buffer, this`memory, dev
      ensures var found := MemoryTypeFor(q, properties);
        dev.calls == old(dev.calls) + DeviceTrace(staging.0, size, usage, found, FirstSettled(idleAnswers) + 1)
        && if found.Err? then r == Fail(found.error) && buffer == old(buffer) && memory == old(memory)
           else r == Done && buffer == staging.0 + 2 && memory == staging.0 + 3
    {
      ghost var before := dev.calls;
      var created := CreateBufferObject(dev, size, usage, properties, q);
      if created.Err? {
        dev.calls := dev.calls + BufferDestroys(staging.0, staging.1);
        return Fail(created.error);
      }
      ghost var createCalls := CreateBufferCalls(staging.0 + 2, staging.0 + 3, size, usage, MemoryTypeFor(q, properties).value);
      buffer, memory := created.value.0, created.value.1;
      CopyAndRelease(dev, staging, buffer, size, idleAnswers);
      r := Done;
      AppendAssoc(before, createCalls, dev.calls[|before| + |createCalls|..]);
    }
  }

  /** The copy through a disposable command buffer, then the release of the
      staging buffer as init's scope ends. */
  method CopyAndRelease(dev: Device, staging: (Handle, Handle), buffer: Handle, size: nat, idleAnswers: seq<VkResult>)
    requires Settles(idleAnswers)
    modifies dev
    ensures dev.nextHandle == old(dev.nextHandle) + 1
    ensures dev.calls == old(dev.calls) + (DisposableCalls(old(dev.nextHandle), CopyRegion(staging.0, buffer, size), FirstSettled(idleAnswers) + 1)
                                           + BufferDestroys(staging.0, staging.1))
  {
    ghost var before := dev.calls;
    var cmd := DisposableCommands(dev, CopyRegion(staging.0, buffer, size), idleAnswers);
    ghost var copyCalls := dev.calls[|before|..];
    dev.calls := dev.calls + BufferDestroys(staging.0, staging.1);
    AppendAssoc(before, copyCalls, BufferDestroys(staging.0, staging.1));
  }

  /** What init raises, if anything: the staging buffer's memory-type
      search runs first. */
  function InitOutcome(staging: Result<nat>, device: Result<nat>): Outcome
  {
    if staging.Err? then Fail(staging.error)
    else if device.Err? then Fail(device.error)
    else Done
  }

  /** When the device buffer's memory type is missing, the staging buffer
      and its memory are released and the device buffer is left behind. */
  lemma FailedInitReleasesStaging(start: Handle, data: seq<bv8>, usage: bv32, stagingType: nat, device: Result<nat>, idle: nat)
    requires device.Err?
    ensures var t := InitTrace(start, data, usage, Ok(stagingType), device, idle);
      |t| == 7 && t[0] == CreateBuffer(start, |data|, BUFFER_USAGE_TRANSFER_SRC)
      && t[4] == CreateBuffer(start + 2, |data|, usage)
      && t[5..] == BufferDestroys(start, start + 1)
  {
  }

  class BufferResourceUniform {
    var hasDevice: bool
    var buffer: Handle
    var memory: Handle
    /** Inherited from BufferResource and never set by the uniform buffer. */
    var size: nat
    var bufferSize: nat
    /** The persistently mapped memory, as the host writes it. */
    var mapped: seq<bv8>

    constructor ()
      ensures !hasDevice && buffer == NULL_HANDLE && memory == NULL_HANDLE
      ensures size == 0 && bufferSize == 0 && mapped == []
    {
      hasDevice, buffer, memory := false, NULL_HANDLE, NULL_HANDLE;
      size, bufferSize, mapped := 0, 0, [];
    }

    method Destroy(dev: Device)
      modifies this`hasDevice, dev`calls
      ensures !hasDevice
      ensures !old(hasDevice) ==> dev.calls == old(dev.calls)
      ensures old(hasDevice) ==> dev.calls == old(dev.calls) + BufferDestroys(buffer, memory)
    {
      if !hasDevice {
        return;
      }
      dev.calls := dev.calls + BufferDestroys(buffer, memory);
      hasDevice := false;
    }

    /** init: records the device and bufferSize, creates a host-visible,
        host-coherent uniform buffer and maps all of it once.  The contents
        of the fresh mapping are unspecified. */
    method Init(dev: Device, bytes: nat, q: MemoryQuery) returns (r: Outcome)
      requires QueryWellFormed(q)
      modifies this, dev
      ensures hasDevice && bufferSize == bytes && size == old(size)
      ensures MemoryTypeFor(q, HOST_VISIBLE_COHERENT).Err? ==>
        r == Fail(MemoryTypeFor(q, HOST_VISIBLE_COHERENT).error)
        && buffer == old(buffer) && memory == old(memory) && mapped == old(mapped)
        && dev.calls == old(dev.calls) + [CreateBuffer(old(dev.nextHandle), bytes, BUFFER_USAGE_UNIFORM)]
      ensures MemoryTypeFor(q, HOST_VISIBLE_COHERENT).Ok? ==>
        r == Done && buffer == old(dev.nextHandle) && memory == old(dev.nextHandle) + 1
        && dev.nextHandle == old(dev.nextHandle) + 2 && |mapped| == bytes
        && dev.calls == old(dev.calls)
           + CreateBufferCalls(buffer, memory, bytes, BUFFER_USAGE_UNIFORM, MemoryTypeFor(q, HOST_VISIBLE_COHERENT).value)
           + [MapMemory(memory, bytes)]
    {
      hasDevice := true;
      bufferSize := bytes;
      var created := CreateBufferObject(dev, bufferSize, BUFFER_USAGE_UNIFORM, HOST_VISIBLE_COHERENT, q);
      if created.Err? {
        return Fail(created.error);
      }
      buffer, memory := created.value.0, created.value.1;
      dev.calls := dev.calls + [MapMemory(memory, bufferSize)];
      mapped := seq(bufferSize, _ => 0);
      r := Done;
    }

    /** update: data of any other size than bufferSize raises before the
        copy, leaving the mapping as it was; data of that size overwrites the
        whole mapping, without mapping or unmapping. */
    method Update(data: seq<bv8>) returns (r: Outcome)
      modifies this`mapped
      ensures |data| != bufferSize ==>
        r == Fail(Fatal("uniform buffer size not compatible")) && mapped == old(mapped)
      ensures |data| == bufferSize ==> r == Done && mapped == data
    {
      if |data| != bufferSize {
        return Fail(Fatal("uniform buffer size not compatible"));
      }
      mapped := data;
      r := Done;
    }
  }
}
