// Scene: the models to draw, one uniform buffer per frame in flight, the
// shader, and the scene's own frame slot.  Models are added first and read
// together; each tick the CPU side writes the current slot's uniform buffer
// and advances the slot, and the GPU side binds model 0 and the current
// slot's descriptor set and draws.  The models' buffers and the uniform
// buffers are newer-revision resources, destroyed under their static flags.
module Scenes {
  import opened Wrappers
  import opened Vk
  import opened Gpu
  import opened BufferCommon
  import opened CoreBuffers
  import opened Statics
  import opened CoreModels
  import opened CoreDescriptors
  import opened ResourceShaders
  import opened FrameRules
  import Commands
  import TextureRules
  import CoreTextures
  import MipChains

  const INVALID_MODEL_PATH: Error := Fatal("invalid file path for model")
  const INVALID_TEXTURE_PATH: Error := Fatal("invalid file path for texture")

  /** The GPU's answers for one texture upload: the staging buffer's
      memory query, the texture format's properties, which the linear-blit
      check reads, and the queue-idle answers of the three one-shot command
      buffers. */
  datatype TextureAnswers = TextureAnswers(staging: MemoryQuery, props: FormatProperties,
                                           transitionIdle: seq<VkResult>, copyIdle: seq<VkResult>, mipIdle: seq<VkResult>)

  /** What reading one model meets: the outcome of reading its model file,
      the decoded texture or the decoder's error, the bytes of its vertices
      and of its 32-bit indices, its index count, and the GPU's answers for
      the texture upload and for the two buffer uploads. */
  datatype ModelLoad = ModelLoad(modelFile: Outcome, texture: Result<TextureRules.TextureContent>,
                                 vertexBytes: seq<bv8>, indexBytes: seq<bv8>, indexCount: nat,
                                 textureAnswers: TextureAnswers, vertexAnswers: UploadAnswers, indexAnswers: UploadAnswers)

  predicate LoadWellFormed(l: ModelLoad)
  {
    AnswersWellFormed(l.vertexAnswers) && AnswersWellFormed(l.indexAnswers)
    && |l.indexBytes| == 4 * l.indexCount
    && (l.texture.Ok? ==> TextureRules.Loaded(l.texture.value))
    && QueryWellFormed(l.textureAnswers.staging)
    && Commands.Settles(l.textureAnswers.transitionIdle) && Commands.Settles(l.textureAnswers.copyIdle)
    && Commands.Settles(l.textureAnswers.mipIdle)
  }

  /** Both files are read: the model file loaded and the texture decoded. */
  predicate FilesRead(l: ModelLoad)
  {
    l.modelFile.Done? && l.texture.Ok?
  }

  /** The error of the file reads: the model file's first, then the
      decoder's. */
  function FilesError(l: ModelLoad): Error
    requires !FilesRead(l)
  {
    if l.modelFile.Fail? then l.modelFile.error else l.texture.error
  }

  /** The texture upload of a decoded texture, as TextureInterface::read
      issues it for these answers. */
  function TextureUploadCalls(start: Handle, l: ModelLoad): seq<Call>
    requires LoadWellFormed(l) && FilesRead(l)
  {
    TextureRules.UploadTrace(start, l.texture.value, R8G8B8A8Srgb,
                             MemoryTypeFor(l.textureAnswers.staging, HOST_VISIBLE_COHERENT),
                             TextureRules.SupportsLinearBlit(l.textureAnswers.props),
                             Commands.FirstSettled(l.textureAnswers.transitionIdle) + 1,
                             Commands.FirstSettled(l.textureAnswers.copyIdle) + 1,
                             Commands.FirstSettled(l.textureAnswers.mipIdle) + 1)
  }

  function TextureUploadOutcome(l: ModelLoad): Outcome
    requires LoadWellFormed(l)
  {
    TextureRules.UploadOutcome(MemoryTypeFor(l.textureAnswers.staging, HOST_VISIBLE_COHERENT),
                               TextureRules.SupportsLinearBlit(l.textureAnswers.props))
  }

  function TextureUploadHandles(l: ModelLoad): nat
    requires LoadWellFormed(l)
  {
    TextureRules.UploadHandles(MemoryTypeFor(l.textureAnswers.staging, HOST_VISIBLE_COHERENT),
                               TextureRules.SupportsLinearBlit(l.textureAnswers.props))
  }

  /** What follows the texture upload when it returns: the vertex and the
      index upload. */
  function BufferUploadCalls(start: Handle, l: ModelLoad): seq<Call>
    requires LoadWellFormed(l)
  {
    if TextureUploadOutcome(l).Fail? then [] else ReadCalls(start, l.vertexBytes, l.indexBytes, l.vertexAnswers, l.indexAnswers)
  }

  /** A texture upload that raises ends the model's read there. */
  lemma TextureRaises(start: Handle, l: ModelLoad, before: seq<Call>, after: seq<Call>, r: Outcome, next: Handle)
    requires LoadWellFormed(l) && FilesRead(l) && TextureUploadOutcome(l).Fail?
    requires after == before + TextureUploadCalls(start, l) && r == TextureUploadOutcome(l)
    requires next == start + TextureUploadHandles(l)
    ensures after == before + ModelReadCalls(start, l) && r == ModelReadOutcome(l) && next == start + ModelReadHandles(l)
  {
    assert ModelReadCalls(start, l) == TextureUploadCalls(start, l) + [];
  }

  /** A texture upload that returns is followed by the vertex and the
      index upload, from the handle where the texture's handles end. */
  lemma TextureThenBuffers(start: Handle, l: ModelLoad, before: seq<Call>, mid: seq<Call>, after: seq<Call>,
                           r: Outcome, next: Handle)
    requires LoadWellFormed(l) && FilesRead(l) && TextureUploadOutcome(l).Done?
    requires mid == before + TextureUploadCalls(start, l)
    requires after == mid + ReadCalls(start + TextureUploadHandles(l), l.vertexBytes, l.indexBytes, l.vertexAnswers, l.indexAnswers)
    requires r == ReadOutcome(l.vertexAnswers, l.indexAnswers)
    requires next == start + TextureUploadHandles(l) + ReadHandles(l.vertexAnswers, l.indexAnswers)
    ensures after == before + ModelReadCalls(start, l) && r == ModelReadOutcome(l) && next == start + ModelReadHandles(l)
  {
    BuffersAfterTexture(start, l);
    AppendAssoc(before, TextureUploadCalls(start, l),
                ReadCalls(start + TextureUploadHandles(l), l.vertexBytes, l.indexBytes, l.vertexAnswers, l.indexAnswers));
  }

  /** A model whose texture upload returns reads as that upload followed
      by the buffer uploads. */
  lemma BuffersAfterTexture(start: Handle, l: ModelLoad)
    requires LoadWellFormed(l) && FilesRead(l) && TextureUploadOutcome(l).Done?
    ensures ModelReadCalls(start, l) == TextureUploadCalls(start, l)
      + ReadCalls(start + TextureUploadHandles(l), l.vertexBytes, l.indexBytes, l.vertexAnswers, l.indexAnswers)
    ensures ModelReadOutcome(l) == ReadOutcome(l.vertexAnswers, l.indexAnswers)
    ensures ModelReadHandles(l) == TextureUploadHandles(l) + ReadHandles(l.vertexAnswers, l.indexAnswers)
  {
  }

  predicate LoadsWellFormed(loads: seq<ModelLoad>)
  {
    forall i :: 0 <= i < |loads| ==> LoadWellFormed(loads[i])
  }

  /** One model's read: the files, the texture upload into the shared
      texture interface, then the vertex and the index upload. */
  function ModelReadCalls(start: Handle, l: ModelLoad): seq<Call>
    requires LoadWellFormed(l)
  {
    if !FilesRead(l) then []
    else TextureUploadCalls(start, l) + BufferUploadCalls(start + TextureUploadHandles(l), l)
  }

  function ModelReadOutcome(l: ModelLoad): Outcome
    requires LoadWellFormed(l)
  {
    if !FilesRead(l) then Fail(FilesError(l))
    else if TextureUploadOutcome(l).Fail? then TextureUploadOutcome(l)
    else ReadOutcome(l.vertexAnswers, l.indexAnswers)
  }

  function ModelReadHandles(l: ModelLoad): nat
    requires LoadWellFormed(l)
  {
    if !FilesRead(l) then 0
    else if TextureUploadOutcome(l).Fail? then TextureUploadHandles(l)
    else TextureUploadHandles(l) + ReadHandles(l.vertexAnswers, l.indexAnswers)
  }

  /** The handle at which the i-th model's read starts when every model
      before it was read: each read takes its own handles in turn. */
  function HandleAt(base: Handle, loads: seq<ModelLoad>, i: nat): (h: Handle)
    requires LoadsWellFormed(loads) && i <= |loads|
    ensures h >= base
  {
    if i == 0 then base else HandleAt(base, loads, i - 1) + ModelReadHandles(loads[i - 1])
  }

  /** Reading the models from the i-th on, in order: a model whose read
      raises ends the walk. */
  function ModelsOutcomeFrom(loads: seq<ModelLoad>, i: nat): Outcome
    requires LoadsWellFormed(loads) && i <= |loads|
    decreases |loads| - i
  {
    if i == |loads| then Done
    else if ModelReadOutcome(loads[i]).Fail? then ModelReadOutcome(loads[i])
    else ModelsOutcomeFrom(loads, i + 1)
  }

  /** The calls of the walk from the i-th model on, the first read taking
      handles from `base`. */
  function ModelsCallsFrom(base: Handle, loads: seq<ModelLoad>, i: nat): seq<Call>
    requires LoadsWellFormed(loads) && i <= |loads|
    decreases |loads| - i
  {
    if i == |loads| then []
    else if ModelReadOutcome(loads[i]).Fail? then ModelReadCalls(HandleAt(base, loads, i), loads[i])
    else ModelReadCalls(HandleAt(base, loads, i), loads[i]) + ModelsCallsFrom(base, loads, i + 1)
  }

  /** Reading every model, in order. */
  function ModelsOutcome(loads: seq<ModelLoad>): Outcome
    requires LoadsWellFormed(loads)
  {
    ModelsOutcomeFrom(loads, 0)
  }

  function ModelsCalls(start: Handle, loads: seq<ModelLoad>): seq<Call>
    requires LoadsWellFormed(loads)
  {
    ModelsCallsFrom(start, loads, 0)
  }

  /** A model whose read succeeds hands the walk on to the next model,
      which starts where its handles end. */
  lemma ModelsStep(base: Handle, loads: seq<ModelLoad>, i: nat)
    requires LoadsWellFormed(loads) && i < |loads| && ModelReadOutcome(loads[i]).Done?
    ensures ModelsCallsFrom(base, loads, i)
      == ModelReadCalls(HandleAt(base, loads, i), loads[i]) + ModelsCallsFrom(base, loads, i + 1)
    ensures ModelsOutcomeFrom(loads, i) == ModelsOutcomeFrom(loads, i + 1)
    ensures HandleAt(base, loads, i + 1) == HandleAt(base, loads, i) + ModelReadHandles(loads[i])
  {
  }

  /** A model whose read raises ends the walk with its own error. */
  lemma ModelsStop(base: Handle, loads: seq<ModelLoad>, i: nat)
    requires LoadsWellFormed(loads) && i < |loads| && ModelReadOutcome(loads[i]).Fail?
    ensures ModelsCallsFrom(base, loads, i) == ModelReadCalls(HandleAt(base, loads, i), loads[i])
    ensures ModelsOutcomeFrom(loads, i) == ModelReadOutcome(loads[i])
  {
  }

  /** Having read the models before the i-th, the device is at `calls` and
      `next`: what is left from the i-th model on completes the whole walk
      from `base`, whose trace is `total` and whose outcome is `outcome`. */
  ghost predicate WalkAt(total: seq<Call>, outcome: Outcome, base: Handle, calls: seq<Call>, next: Handle,
                         loads: seq<ModelLoad>, i: nat)
    requires LoadsWellFormed(loads) && i <= |loads|
  {
    calls + ModelsCallsFrom(base, loads, i) == total
    && next == HandleAt(base, loads, i)
    && ModelsOutcomeFrom(loads, i) == outcome
  }

  /** Before any model is read, the walk lies ahead in full. */
  lemma WalkStart(calls: seq<Call>, start: Handle, loads: seq<ModelLoad>)
    requires LoadsWellFormed(loads)
    ensures WalkAt(calls + ModelsCalls(start, loads), ModelsOutcome(loads),
                   start, calls, start, loads, 0)
  {
  }

  /** Reading the i-th model, which answers `r`, either moves the walk on
      to the next model or ends it there with that model's error. */
  lemma ModelsWalkStep(total: seq<Call>, outcome: Outcome, base: Handle, before: seq<Call>,
                       r: Outcome, loads: seq<ModelLoad>, i: nat)
    requires LoadsWellFormed(loads) && i < |loads|
    requires WalkAt(total, outcome, base, before, HandleAt(base, loads, i), loads, i)
    requires r == ModelReadOutcome(loads[i])
    ensures r.Done? ==>
      WalkAt(total, outcome, base, before + ModelReadCalls(HandleAt(base, loads, i), loads[i]),
             HandleAt(base, loads, i + 1), loads, i + 1)
    ensures r.Fail? ==> r == outcome && before + ModelReadCalls(HandleAt(base, loads, i), loads[i]) == total
  {
    if r.Done? {
      ModelsStep(base, loads, i);
      AppendAssoc(before, ModelReadCalls(HandleAt(base, loads, i), loads[i]), ModelsCallsFrom(base, loads, i + 1));
    } else {
      ModelsStop(base, loads, i);
    }
  }

  /** The i-th model's read, one step of the walk. */
  method ReadOne(dev: Device, texture: CoreTextures.TextureInterface, m: SceneModel, loads: seq<ModelLoad>, i: nat,
                 ghost base: Handle, ghost total: seq<Call>, ghost outcome: Outcome)
    returns (r: Outcome, next: nat)
    requires LoadsWellFormed(loads) && i < |loads|
    requires WalkAt(total, outcome, base, dev.calls, dev.nextHandle, loads, i)
    modifies m`indexCount, m.vertBuf, m.idxBuf, dev, texture
    ensures next == i + 1
    ensures r.Done? ==> WalkAt(total, outcome, base, dev.calls, dev.nextHandle, loads, next)
    ensures r.Fail? ==> r == outcome && dev.calls == total
  {
    next := i + 1;
    ghost var before := dev.calls;
    r := m.Read(dev, texture, loads[i], HandleAt(base, loads, i));
    ModelsWalkStep(total, outcome, base, before, r, loads, i);
  }

  /** The walk succeeds exactly when every model's read succeeds. */
  lemma {:induction false} ModelsDoneIffAllDone(loads: seq<ModelLoad>, i: nat)
    requires LoadsWellFormed(loads) && i <= |loads|
    ensures ModelsOutcomeFrom(loads, i).Done? <==> forall k :: i <= k < |loads| ==> ModelReadOutcome(loads[k]).Done?
  {
    if ModelsOutcomeFrom(loads, i).Done? {
      forall k | i <= k < |loads|
        ensures ModelReadOutcome(loads[k]).Done?
      {
        DoneReachesEvery(loads, i, k);
      }
    } else {
      var k := ModelsFailIsFirstFailure(loads, i);
    }
  }

  /** A walk that succeeds passed every model from the i-th on. */
  lemma {:induction false} DoneReachesEvery(loads: seq<ModelLoad>, i: nat, k: nat)
    requires LoadsWellFormed(loads) && i <= k < |loads| && ModelsOutcomeFrom(loads, i).Done?
    ensures ModelReadOutcome(loads[k]).Done?
    decreases k - i
  {
    if i < k {
      DoneReachesEvery(loads, i + 1, k);
    }
  }

  /** When the walk raises, it raises with the error of the first model
      whose read fails. */
  lemma {:induction false} ModelsFailIsFirstFailure(loads: seq<ModelLoad>, i: nat) returns (k: nat)
    requires LoadsWellFormed(loads) && i <= |loads| && ModelsOutcomeFrom(loads, i).Fail?
    ensures i <= k < |loads| && ModelsOutcomeFrom(loads, i) == ModelReadOutcome(loads[k])
    ensures forall m :: i <= m < k ==> ModelReadOutcome(loads[m]).Done?
    decreases |loads| - i
  {
    if ModelReadOutcome(loads[i]).Fail? {
      k := i;
    } else {
      k := ModelsFailIsFirstFailure(loads, i + 1);
      FirstFailureFrom(loads, i, k);
    }
  }

  /** A model whose read succeeds passes the walk's first failure on from
      the model after it. */
  lemma FirstFailureFrom(loads: seq<ModelLoad>, i: nat, k: nat)
    requires LoadsWellFormed(loads) && i < k < |loads| && ModelReadOutcome(loads[i]).Done?
    requires ModelsOutcomeFrom(loads, i + 1) == ModelReadOutcome(loads[k])
    requires forall m :: i + 1 <= m < k ==> ModelReadOutcome(loads[m]).Done?
    ensures ModelsOutcomeFrom(loads, i) == ModelReadOutcome(loads[k])
    ensures forall m :: i <= m < k ==> ModelReadOutcome(loads[m]).Done?
  {
    assert ModelsOutcomeFrom(loads, i) == ModelsOutcomeFrom(loads, i + 1);
    forall m | i <= m < k
      ensures ModelReadOutcome(loads[m]).Done?
    {
      if m == i {
        assert loads[m] == loads[i];
      }
    }
  }

  /** The uniform buffers' inits in order, from handle `start`: each takes
      two handles and raises when no host-visible, host-coherent memory type
      fits, which ends the walk. */
  function UniformInitCalls(start: Handle, q: MemoryQuery): seq<Call>
    requires QueryWellFormed(q)
  {
    if MemoryTypeFor(q, HOST_VISIBLE_COHERENT).Err? then [CreateBuffer(start, UNIFORM_BUFFER_OBJECT_SIZE, BUFFER_USAGE_UNIFORM)]
    else (CreateBufferCalls(start, start + 1, UNIFORM_BUFFER_OBJECT_SIZE, BUFFER_USAGE_UNIFORM, MemoryTypeFor(q, HOST_VISIBLE_COHERENT).value)
          + [MapMemory(start + 1, UNIFORM_BUFFER_OBJECT_SIZE)])
  }

  predicate QueriesWellFormed(qs: seq<MemoryQuery>)
  {
    forall i :: 0 <= i < |qs| ==> QueryWellFormed(qs[i])
  }

  /** The number of inits that succeed before the first that raises. */
  function UniformsDone(qs: seq<MemoryQuery>): (n: nat)
    requires QueriesWellFormed(qs)
    ensures n <= |qs|
    ensures forall i :: 0 <= i < n ==> MemoryTypeFor(qs[i], HOST_VISIBLE_COHERENT).Ok?
    ensures n < |qs| ==> MemoryTypeFor(qs[n], HOST_VISIBLE_COHERENT).Err?
  {
    if qs == [] || MemoryTypeFor(qs[0], HOST_VISIBLE_COHERENT).Err? then 0 else 1 + UniformsDone(qs[1..])
  }

  /** The inits from the i-th buffer on, up to the first that raises. */
  function UniformsCallsFrom(start: Handle, qs: seq<MemoryQuery>, i: nat): seq<Call>
    requires QueriesWellFormed(qs) && i <= |qs|
    decreases |qs| - i
  {
    if i == |qs| then []
    else if MemoryTypeFor(qs[i], HOST_VISIBLE_COHERENT).Err? then UniformInitCalls(start, qs[i])
    else UniformInitCalls(start, qs[i]) + UniformsCallsFrom(start + 2, qs, i + 1)
  }

  function UniformsCalls(start: Handle, qs: seq<MemoryQuery>): seq<Call>
    requires QueriesWellFormed(qs)
  {
    UniformsCallsFrom(start, qs, 0)
  }

  function UniformsOutcome(qs: seq<MemoryQuery>): Outcome
    requires QueriesWellFormed(qs)
  {
    if UniformsDone(qs) == |qs| then Done else Fail(MemoryTypeFor(qs[UniformsDone(qs)], HOST_VISIBLE_COHERENT).error)
  }

  /** Having run the inits before the i-th, from handle `start` on a trace
      `base`, the device is at `calls` and `next`: the inits left complete
      the whole walk. */
  ghost predicate UniformWalkAt(base: seq<Call>, start: Handle, calls: seq<Call>, next: Handle, qs: seq<MemoryQuery>, i: nat)
    requires QueriesWellFormed(qs) && i <= |qs|
  {
    i <= UniformsDone(qs) && next == start + 2 * i
    && calls + UniformsCallsFrom(next, qs, i) == base + UniformsCallsFrom(start, qs, 0)
  }

  /** An init either moves the walk on to the next buffer or ends it with
      its error. */
  lemma UniformsWalkStep(base: seq<Call>, start: Handle, before: seq<Call>, h: Handle, qs: seq<MemoryQuery>, i: nat,
                         after: seq<Call>, next: Handle)
    requires QueriesWellFormed(qs) && i < |qs| && h == start + 2 * i
    requires UniformWalkAt(base, start, before, h, qs, i)
    requires after == before + UniformInitCalls(h, qs[i])
    requires MemoryTypeFor(qs[i], HOST_VISIBLE_COHERENT).Ok? ==> next == h + 2
    ensures MemoryTypeFor(qs[i], HOST_VISIBLE_COHERENT).Ok? ==> UniformWalkAt(base, start, after, next, qs, i + 1)
    ensures MemoryTypeFor(qs[i], HOST_VISIBLE_COHERENT).Err? ==>
      UniformsDone(qs) == i && UniformsOutcome(qs) == Fail(MemoryTypeFor(qs[i], HOST_VISIBLE_COHERENT).error)
      && after == base + UniformsCallsFrom(start, qs, 0)
  {
    if MemoryTypeFor(qs[i], HOST_VISIBLE_COHERENT).Ok? {
      assert UniformsCallsFrom(h, qs, i) == UniformInitCalls(h, qs[i]) + UniformsCallsFrom(h + 2, qs, i + 1);
      AppendAssoc(before, UniformInitCalls(h, qs[i]), UniformsCallsFrom(h + 2, qs, i + 1));
    }
  }

  /** One uniform buffer's init, with the size of the uniform buffer
      object. */
  method InitUniform(dev: Device, u: BufferResourceUniform, q: MemoryQuery, ghost before: seq<Call>, ghost h: Handle)
    returns (r: Outcome)
    requires QueryWellFormed(q) && dev.calls == before && dev.nextHandle == h
    modifies u, dev
    ensures u.bufferSize == UNIFORM_BUFFER_OBJECT_SIZE
    ensures MemoryTypeFor(q, HOST_VISIBLE_COHERENT).Err? ==> r == Fail(MemoryTypeFor(q, HOST_VISIBLE_COHERENT).error)
    ensures MemoryTypeFor(q, HOST_VISIBLE_COHERENT).Ok? ==> r == Done && dev.nextHandle == h + 2
    ensures dev.calls == before + UniformInitCalls(h, q)
  {
    r := u.Init(dev, UNIFORM_BUFFER_OBJECT_SIZE, q);
    if r.Done? {
      AppendAssoc(before, CreateBufferCalls(u.buffer, u.memory, UNIFORM_BUFFER_OBJECT_SIZE, BUFFER_USAGE_UNIFORM,
                                            MemoryTypeFor(q, HOST_VISIBLE_COHERENT).value),
                  [MapMemory(u.memory, UNIFORM_BUFFER_OBJECT_SIZE)]);
    }
  }

  /** The i-th uniform buffer's init, one step of the walk. */
  method InitStep(dev: Device, u: BufferResourceUniform, qs: seq<MemoryQuery>, i: nat, ghost base: seq<Call>, ghost start: Handle)
    returns (r: Outcome)
    requires QueriesWellFormed(qs) && i < |qs|
    requires UniformWalkAt(base, start, dev.calls, dev.nextHandle, qs, i)
    modifies u, dev
    ensures u.bufferSize == UNIFORM_BUFFER_OBJECT_SIZE
    ensures r.Done? ==> UniformWalkAt(base, start, dev.calls, dev.nextHandle, qs, i + 1)
    ensures r.Fail? ==> UniformsDone(qs) == i && r == UniformsOutcome(qs) && dev.calls == base + UniformsCallsFrom(start, qs, 0)
  {
    ghost var before := dev.calls;
    ghost var h := dev.nextHandle;
    r := InitUniform(dev, u, qs[i], before, h);
    UniformsWalkStep(base, start, before, h, qs, i, dev.calls, dev.nextHandle);
  }

  /** The calls of destroying each model in turn: only the first
      BufferResource destroy in the process, that of model 0's vertex
      buffer, releases anything. */
  function ModelsRelease(destroyed: bool, models: seq<SceneModel>): seq<Call>
    reads set m <- models :: m.vertBuf
  {
    if destroyed || models == [] then [] else BufferDestroys(models[0].vertBuf.buffer, models[0].vertBuf.memory)
  }

  /** The calls of running each model's destructor in turn, as a
      reallocation of the model list does: ~Model destroys its members in
      reverse order of declaration, the index buffer before the vertex
      buffer, so only model 0's index buffer can be released, and only if
      no BufferResource was destroyed before. */
  function ModelsDestructorRelease(destroyed: bool, models: seq<SceneModel>): seq<Call>
    reads set m <- models :: m.idxBuf
  {
    if destroyed || models == [] then [] else BufferDestroys(models[0].idxBuf.buffer, models[0].idxBuf.memory)
  }

  /** Likewise for the uniform buffers, under their own flag. */
  function UniformsRelease(destroyed: bool, us: seq<BufferResourceUniform>): seq<Call>
    reads us
  {
    if destroyed || us == [] then [] else BufferDestroys(us[0].buffer, us[0].memory)
  }

  /** Texture::read once the file is decoded: the content is handed to the
      texture interface, which uploads it and frees the pixels. */
  method ReadTexture(dev: Device, texture: CoreTextures.TextureInterface, l: ModelLoad, ghost start: Handle) returns (r: Outcome)
    requires LoadWellFormed(l) && FilesRead(l) && dev.nextHandle == start
    modifies dev, texture
    ensures r == TextureUploadOutcome(l)
    ensures dev.calls == old(dev.calls) + TextureUploadCalls(start, l)
    ensures dev.nextHandle == start + TextureUploadHandles(l)
    ensures texture.mipLevels == MipChains.MipLevels(TextureRules.TexExtent(l.texture.value))
    ensures MemoryTypeFor(l.textureAnswers.staging, HOST_VISIBLE_COHERENT).Ok? ==> texture.image == start + 2
    ensures r.Done? ==> texture.sampler == start + 6
  {
    var content := new CoreTextures.TextureFileContent(l.texture.value);
    r := texture.Read(dev, content, l.textureAnswers.staging, l.textureAnswers.props,
                      l.textureAnswers.transitionIdle, l.textureAnswers.copyIdle, l.textureAnswers.mipIdle, start);
  }

  /** A model of the scene: its two device-local buffers, the paths it was
      prepared with, and the index count of its loaded model file. */
  class SceneModel {
    const vertBuf: BufferResource
    const idxBuf: BufferResource
    var modelPath: string
    var texturePath: string
    var slowRead: bool
    var indexCount: nat

    constructor ()
      ensures fresh(vertBuf) && fresh(idxBuf) && vertBuf != idxBuf
      ensures vertBuf.buffer == NULL_HANDLE && vertBuf.memory == NULL_HANDLE
      ensures idxBuf.buffer == NULL_HANDLE && idxBuf.memory == NULL_HANDLE
      ensures modelPath == [] && texturePath == [] && !slowRead && indexCount == 0
    {
      vertBuf := new BufferResource();
      idxBuf := new BufferResource();
      modelPath, texturePath, slowRead, indexCount := [], [], false, 0;
    }

    /** init with slowRead set: the model path is taken and checked, then
        the texture path; an invalid path raises.  Nothing is read yet. */
    method Init(modelPath: string, texturePath: string, modelOnDisk: bool, textureOnDisk: bool) returns (r: Outcome)
      modifies this`modelPath, this`texturePath, this`slowRead
      ensures this.modelPath == modelPath
      ensures !modelOnDisk ==> r == Fail(INVALID_MODEL_PATH) && this.texturePath == old(this.texturePath) && slowRead == old(slowRead)
      ensures modelOnDisk ==> this.texturePath == texturePath && slowRead
      ensures modelOnDisk && !textureOnDisk ==> r == Fail(INVALID_TEXTURE_PATH)
      ensures modelOnDisk && textureOnDisk ==> r == Done
    {
      this.modelPath := modelPath;
      if !modelOnDisk {
        return Fail(INVALID_MODEL_PATH);
      }
      this.texturePath := texturePath;
      slowRead := true;
      if !textureOnDisk {
        return Fail(INVALID_TEXTURE_PATH);
      }
      r := Done;
    }

    /** read: the model file, then the texture: its file is decoded and
        handed to the process-wide texture interface, which uploads it and
        replaces its image and sampler; then the vertex bytes and the index
        bytes go into device-local buffers. */
    method Read(dev: Device, texture: CoreTextures.TextureInterface, l: ModelLoad, ghost start: Handle) returns (r: Outcome)
      requires LoadWellFormed(l) && dev.nextHandle == start
      modifies this`indexCount, vertBuf, idxBuf, dev, texture
      ensures r == ModelReadOutcome(l)
      ensures dev.calls == old(dev.calls) + ModelReadCalls(start, l)
      ensures dev.nextHandle == start + ModelReadHandles(l)
      ensures indexCount == if l.modelFile.Done? then l.indexCount else old(indexCount)
      ensures !FilesRead(l) ==> unchanged(texture)
      ensures FilesRead(l) ==> texture.mipLevels == MipChains.MipLevels(TextureRules.TexExtent(l.texture.value))
      ensures FilesRead(l) && MemoryTypeFor(l.textureAnswers.staging, HOST_VISIBLE_COHERENT).Ok? ==>
        texture.image == start + 2
      ensures FilesRead(l) && TextureUploadOutcome(l).Done? ==> texture.sampler == start + 6
    {
      if l.modelFile.Fail? {
        return l.modelFile;
      }
      indexCount := l.indexCount;
      if l.texture.Err? {
        return Fail(l.texture.error);
      }
      r := Upload(dev, texture, l, start);
    }

    /** The uploads of a model whose files were read: the texture first,
        whose error ends the read, then the vertex and the index buffers. */
    method Upload(dev: Device, texture: CoreTextures.TextureInterface, l: ModelLoad, ghost start: Handle)
      returns (r: Outcome)
      requires LoadWellFormed(l) && FilesRead(l) && dev.nextHandle == start
      modifies vertBuf, idxBuf, dev, texture
      ensures r == ModelReadOutcome(l)
      ensures dev.calls == old(dev.calls) + ModelReadCalls(start, l)
      ensures dev.nextHandle == start + ModelReadHandles(l)
      ensures texture.mipLevels == MipChains.MipLevels(TextureRules.TexExtent(l.texture.value))
      ensures MemoryTypeFor(l.textureAnswers.staging, HOST_VISIBLE_COHERENT).Ok? ==> texture.image == start + 2
      ensures TextureUploadOutcome(l).Done? ==> texture.sampler == start + 6
    {
      r := ReadTexture(dev, texture, l, start);
      if r.Fail? {
        TextureRaises(start, l, old(dev.calls), dev.calls, r, dev.nextHandle);
        return;
      }
      ghost var mid := dev.calls;
      r := UploadPair(dev, vertBuf, idxBuf, l.vertexBytes, l.indexBytes, l.vertexAnswers, l.indexAnswers,
                      start + TextureUploadHandles(l));
      TextureThenBuffers(start, l, old(dev.calls), mid, dev.calls, r, dev.nextHandle);
    }

    /** ~Model: the members are destroyed in reverse order of declaration;
        the two buffers' destructors run destroy, the index buffer's first.
        The texture's destroy does nothing and the files hold no device
        object. */
    method Destruct(dev: Device, statics: ProcessStatics)
      modifies statics`bufferDestroyed, dev`calls
      ensures statics.bufferDestroyed
      ensures dev.calls == old(dev.calls)
        + if old(statics.bufferDestroyed) then [] else BufferDestroys(idxBuf.buffer, idxBuf.memory)
    {
      idxBuf.Destroy(dev, statics);
      vertBuf.Destroy(dev, statics);
    }

    /** destroy: the model file's data is freed, then both buffers are
        destroyed; only the first BufferResource destroy in the process
        releases anything. */
    method Destroy(dev: Device, statics: ProcessStatics)
      modifies this`indexCount, statics`bufferDestroyed, dev`calls
      ensures indexCount == 0 && statics.bufferDestroyed
      ensures dev.calls == old(dev.calls)
        + if old(statics.bufferDestroyed) then [] else BufferDestroys(vertBuf.buffer, vertBuf.memory)
    {
      indexCount := 0;
      vertBuf.Destroy(dev, statics);
      idxBuf.Destroy(dev, statics);
    }
  }

  class Scene {
    var models: seq<SceneModel>
    var uniformBufferRs: seq<BufferResourceUniform>
    var currentFrame: nat
    const shader: Shader

    constructor ()
      ensures models == [] && uniformBufferRs == [] && currentFrame == 0
      ensures fresh(shader) && fresh(shader.descriptors) && shader.descriptors.sets == []
    {
      models, uniformBufferRs, currentFrame := [], [], 0;
      shader := new Shader();
    }

    /** addModel: one model is appended, then initialised for a deferred
        read; a path that does not check out raises after the append.
        `grows` says whether the emplace_back outgrows the list's capacity,
        a choice of the standard library; then the old models are carried
        over and their destructors run in list order. */
    method AddModel(dev: Device, statics: ProcessStatics, grows: bool,
                    modelPath: string, texturePath: string, modelOnDisk: bool, textureOnDisk: bool) returns (r: Outcome)
      modifies this`models, dev`calls, statics`bufferDestroyed
      ensures statics.bufferDestroyed == (old(statics.bufferDestroyed) || (grows && old(models) != []))
      ensures dev.calls == old(dev.calls)
        + if grows then ModelsDestructorRelease(old(statics.bufferDestroyed), old(models)) else []
      ensures |models| == |old(models)| + 1 && models[..|old(models)|] == old(models)
      ensures fresh(models[|models| - 1]) && models[|models| - 1].modelPath == modelPath
      ensures models[|models| - 1].idxBuf.buffer == NULL_HANDLE && models[|models| - 1].idxBuf.memory == NULL_HANDLE
      ensures models[|models| - 1].vertBuf.buffer == NULL_HANDLE && models[|models| - 1].vertBuf.memory == NULL_HANDLE
      ensures r == if !modelOnDisk then Fail(INVALID_MODEL_PATH) else if !textureOnDisk then Fail(INVALID_TEXTURE_PATH) else Done
      ensures modelOnDisk ==> models[|models| - 1].texturePath == texturePath && models[|models| - 1].slowRead
    {
      var m := new SceneModel();
      if grows {
        RunModelDestructors(dev, statics);
      }
      models := models + [m];
      r := m.Init(modelPath, texturePath, modelOnDisk, textureOnDisk);
    }

    /** The destructors of the models in the list, in order. */
    method RunModelDestructors(dev: Device, statics: ProcessStatics)
      modifies dev`calls, statics`bufferDestroyed
      ensures statics.bufferDestroyed == (old(statics.bufferDestroyed) || models != [])
      ensures dev.calls == old(dev.calls) + ModelsDestructorRelease(old(statics.bufferDestroyed), models)
    {
      var i := 0;
      while i < |models|
        invariant 0 <= i <= |models|
        invariant statics.bufferDestroyed == (old(statics.bufferDestroyed) || i > 0)
        invariant dev.calls == old(dev.calls) + ModelsDestructorRelease(old(statics.bufferDestroyed), models[..i])
      {
        models[i].Destruct(dev, statics);
        assert models[..i + 1][0] == models[0];
        i := i + 1;
      }
      assert models[..i] == models;
    }

    /** read: warns when no model was added; reads every model in order;
        then brings the uniform list to one buffer per frame in flight and
        initialises each with the size of the uniform buffer object. */
    method Read(dev: Device, texture: CoreTextures.TextureInterface, loads: seq<ModelLoad>, queries: seq<MemoryQuery>)
      returns (r: Outcome, warned: bool)
      requires |loads| == |models| && LoadsWellFormed(loads)
      requires |queries| == MAX_FRAMES_IN_FLIGHT && QueriesWellFormed(queries)
      requires |uniformBufferRs| <= MAX_FRAMES_IN_FLIGHT
      modifies this`uniformBufferRs, dev, texture, set m <- models :: m, set m <- models :: m.vertBuf,
               set m <- models :: m.idxBuf, set u <- uniformBufferRs :: u
      ensures warned <==> models == []
      ensures ModelsOutcome(loads).Fail? ==>
        r == ModelsOutcome(loads) && uniformBufferRs == old(uniformBufferRs)
        && dev.calls == old(dev.calls) + ModelsCalls(old(dev.nextHandle), loads)
      ensures ModelsOutcome(loads).Done? ==> r == UniformsOutcome(queries)
      ensures ModelsOutcome(loads).Done? ==>
        |uniformBufferRs| == MAX_FRAMES_IN_FLIGHT && uniformBufferRs[..|old(uniformBufferRs)|] == old(uniformBufferRs)
      ensures ModelsOutcome(loads).Done? ==>
        forall i :: |old(uniformBufferRs)| <= i < |uniformBufferRs| ==> fresh(uniformBufferRs[i])
      ensures ModelsOutcome(loads).Done? ==>
        forall i :: 0 <= i < UniformsDone(queries) ==> uniformBufferRs[i].bufferSize == UNIFORM_BUFFER_OBJECT_SIZE
      ensures ModelsOutcome(loads).Done? ==>
        dev.calls == old(dev.calls) + ModelsCalls(old(dev.nextHandle), loads)
          + UniformsCalls(HandleAt(old(dev.nextHandle), loads, |loads|), queries)
    {
      warned := models == [];
      r := ReadModels(dev, texture, loads);
      if r.Fail? {
        return;
      }
      r := InitUniforms(dev, queries, HandleAt(old(dev.nextHandle), loads, |loads|),
                        old(dev.calls) + ModelsCalls(old(dev.nextHandle), loads));
    }

    /** The models' reads, in order, up to the first that raises. */
    method ReadModels(dev: Device, texture: CoreTextures.TextureInterface, loads: seq<ModelLoad>) returns (r: Outcome)
      requires |loads| == |models| && LoadsWellFormed(loads)
      modifies dev, texture, set m <- models :: m, set m <- models :: m.vertBuf, set m <- models :: m.idxBuf
      ensures r == ModelsOutcome(loads)
      ensures dev.calls == old(dev.calls) + ModelsCalls(old(dev.nextHandle), loads)
      ensures r.Done? ==> dev.nextHandle == HandleAt(old(dev.nextHandle), loads, |loads|)
    {
      ghost var total := old(dev.calls) + ModelsCalls(old(dev.nextHandle), loads);
      ghost var outcome := ModelsOutcome(loads);
      WalkStart(old(dev.calls), old(dev.nextHandle), loads);
      var i := 0;
      while i < |models|
        invariant 0 <= i <= |models|
        invariant WalkAt(total, outcome, old(dev.nextHandle), dev.calls, dev.nextHandle, loads, i)
      {
        assert models[i] in models;
        r, i := ReadOne(dev, texture, models[i], loads, i, old(dev.nextHandle), total, outcome);
        if r.Fail? {
          return;
        }
      }
      r := Done;
    }

    /** resize to one buffer per frame in flight, then init each in turn. */
    method InitUniforms(dev: Device, queries: seq<MemoryQuery>, ghost start: Handle, ghost prior: seq<Call>)
      returns (r: Outcome)
      requires |queries| == MAX_FRAMES_IN_FLIGHT && QueriesWellFormed(queries)
      requires dev.nextHandle == start && dev.calls == prior
      requires |uniformBufferRs| <= MAX_FRAMES_IN_FLIGHT
      modifies this`uniformBufferRs, dev, set u <- uniformBufferRs :: u
      ensures r == UniformsOutcome(queries)
      ensures |uniformBufferRs| == MAX_FRAMES_IN_FLIGHT
      ensures uniformBufferRs[..|old(uniformBufferRs)|] == old(uniformBufferRs)
      ensures forall i :: |old(uniformBufferRs)| <= i < MAX_FRAMES_IN_FLIGHT ==> fresh(uniformBufferRs[i])
      ensures forall i :: 0 <= i < UniformsDone(queries) ==> uniformBufferRs[i].bufferSize == UNIFORM_BUFFER_OBJECT_SIZE
      ensures dev.calls == prior + UniformsCalls(start, queries)
    {
      while |uniformBufferRs| < MAX_FRAMES_IN_FLIGHT
        invariant |old(uniformBufferRs)| <= |uniformBufferRs| <= MAX_FRAMES_IN_FLIGHT
        invariant uniformBufferRs[..|old(uniformBufferRs)|] == old(uniformBufferRs)
        invariant forall i :: |old(uniformBufferRs)| <= i < |uniformBufferRs| ==> fresh(uniformBufferRs[i])
        invariant dev.calls == old(dev.calls) && dev.nextHandle == old(dev.nextHandle)
      {
        var b := new BufferResourceUniform();
        uniformBufferRs := uniformBufferRs + [b];
      }
      var i := 0;
      while i < MAX_FRAMES_IN_FLIGHT
        invariant 0 <= i <= MAX_FRAMES_IN_FLIGHT
        invariant |uniformBufferRs| == MAX_FRAMES_IN_FLIGHT
        invariant uniformBufferRs[..|old(uniformBufferRs)|] == old(uniformBufferRs)
        invariant forall k :: |old(uniformBufferRs)| <= k < MAX_FRAMES_IN_FLIGHT ==> fresh(uniformBufferRs[k])
        invariant forall k :: 0 <= k < i ==> uniformBufferRs[k].bufferSize == UNIFORM_BUFFER_OBJECT_SIZE
        invariant UniformWalkAt(prior, start, dev.calls, dev.nextHandle, queries, i)
      {
        var u := uniformBufferRs[i];
        assert u in old(uniformBufferRs) || fresh(u) by {
          if i < |old(uniformBufferRs)| {
            assert u == old(uniformBufferRs)[i];
          }
        }
        r := InitStep(dev, u, queries, i, prior, start);
        if r.Fail? {
          return;
        }
        i := i + 1;
      }
      r := Done;
    }

    /** tickCPU: the current slot's uniform buffer receives the uniform
        buffer object, then the slot advances; a buffer of another size
        raises and the slot stays. */
    method TickCPU(ubo: seq<bv8>) returns (r: Outcome)
      requires |ubo| == UNIFORM_BUFFER_OBJECT_SIZE && currentFrame < |uniformBufferRs|
      modifies uniformBufferRs[currentFrame], this`currentFrame
      ensures uniformBufferRs[old(currentFrame)].bufferSize != UNIFORM_BUFFER_OBJECT_SIZE ==>
        r.Fail? && currentFrame == old(currentFrame)
        && uniformBufferRs[old(currentFrame)].mapped == old(uniformBufferRs[currentFrame].mapped)
      ensures uniformBufferRs[old(currentFrame)].bufferSize == UNIFORM_BUFFER_OBJECT_SIZE ==>
        r == Done && uniformBufferRs[old(currentFrame)].mapped == ubo
        && currentFrame == NextFrame(old(currentFrame)) && currentFrame < MAX_FRAMES_IN_FLIGHT
    {
      r := uniformBufferRs[currentFrame].Update(ubo);
      if r.Fail? {
        return;
      }
      currentFrame := (currentFrame + 1) % MAX_FRAMES_IN_FLIGHT;
    }

    /** tickGPU: model 0's vertex and index buffers, the current slot's
        descriptor set, and a draw of model 0's index count. */
    method TickGPU(dev: Device, cmd: Handle)
      requires |models| > 0 && currentFrame < |shader.descriptors.sets|
      modifies dev`calls
      ensures dev.calls == old(dev.calls)
        + [BindVertexBuffer(cmd, models[0].vertBuf.buffer), BindIndexBuffer(cmd, models[0].idxBuf.buffer),
           BindDescriptorSet(cmd, shader.descriptors.sets[currentFrame]), DrawIndexed(cmd, models[0].indexCount)]
    {
      dev.calls := dev.calls
        + [BindVertexBuffer(cmd, models[0].vertBuf.buffer), BindIndexBuffer(cmd, models[0].idxBuf.buffer),
           BindDescriptorSet(cmd, shader.descriptors.sets[currentFrame]), DrawIndexed(cmd, models[0].indexCount)];
    }

    /** destroy: every model, then every uniform buffer, then the shader. */
    method Destroy(dev: Device, statics: ProcessStatics)
      modifies set m <- models :: m, statics`bufferDestroyed, statics`uniformBufferDestroyed,
               shader`modules, shader`modulesInited, shader`stageInfos, shader`stageInfosInited,
               shader`bindings, shader`bindingsInited, shader`descInited,
               shader.descriptors`poolInited, shader.descriptors`layoutInited, shader.descriptors`setsInited, dev`calls
      ensures forall m :: m in models ==> m.indexCount == 0
      ensures statics.bufferDestroyed == (old(statics.bufferDestroyed) || models != [])
      ensures statics.uniformBufferDestroyed == (old(statics.uniformBufferDestroyed) || uniformBufferRs != [])
      ensures !shader.modulesInited && !shader.descInited
      ensures dev.calls == old(dev.calls)
        + ModelsRelease(old(statics.bufferDestroyed), models)
        + UniformsRelease(old(statics.uniformBufferDestroyed), uniformBufferRs)
        + ShaderDestroys(old(shader.modulesInited), old(shader.modules), old(shader.descInited),
            old(shader.descriptors.poolInited), old(shader.descriptors.layoutInited), shader.descriptors.pool, shader.descriptors.layout)
    {
      var i := 0;
      while i < |models|
        invariant 0 <= i <= |models|
        invariant forall k :: 0 <= k < i ==> models[k].indexCount == 0
        invariant statics.bufferDestroyed == (old(statics.bufferDestroyed) || i > 0)
        invariant statics.uniformBufferDestroyed == old(statics.uniformBufferDestroyed)
        invariant unchanged(shader, shader.descriptors)
        invariant dev.calls == old(dev.calls) + ModelsRelease(old(statics.bufferDestroyed), models[..i])
      {
        assert models[i] in models;
        models[i].Destroy(dev, statics);
        assert models[..i + 1][0] == models[0];
        i := i + 1;
      }
      assert models[..i] == models;
      ghost var afterModels := dev.calls;
      var j := 0;
      while j < |uniformBufferRs|
        invariant 0 <= j <= |uniformBufferRs|
        invariant statics.uniformBufferDestroyed == (old(statics.uniformBufferDestroyed) || j > 0)
        invariant statics.bufferDestroyed == (old(statics.bufferDestroyed) || models != [])
        invariant unchanged(shader, shader.descriptors)
        invariant forall k :: 0 <= k < |models| ==> models[k].indexCount == 0
        invariant dev.calls == afterModels + UniformsRelease(old(statics.uniformBufferDestroyed), uniformBufferRs[..j])
      {
        uniformBufferRs[j].Destroy(dev, statics);
        assert uniformBufferRs[..j + 1][0] == uniformBufferRs[0];
        j := j + 1;
      }
      assert uniformBufferRs[..j] == uniformBufferRs;
      shader.Destroy(dev);
    }
  }

  /** Two models added before anything was destroyed, the list growing on
      the second: the first model's destructor destroys its still empty
      index buffer and spends the BufferResource flag, so the scene's later
      destroy releases no model buffer. */
  method SecondAddModelSpendsFlag(dev: Device, statics: ProcessStatics) returns (scene: Scene)
    requires !statics.bufferDestroyed
    modifies dev`calls, statics`bufferDestroyed
    ensures fresh(scene) && |scene.models| == 2 && statics.bufferDestroyed
    ensures dev.calls == old(dev.calls) + BufferDestroys(NULL_HANDLE, NULL_HANDLE)
    ensures ModelsRelease(statics.bufferDestroyed, scene.models) == []
  {
    scene := new Scene();
    var first := scene.AddModel(dev, statics, false, "a.obj", "a.png", true, true);
    var second := scene.AddModel(dev, statics, true, "b.obj", "b.png", true, true);
  }
}
