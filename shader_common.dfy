// What the two shader holders share: the ShaderType switch that picks a
// pipeline stage, the descriptor-set layout binding each shader type
// declares, and the three lists (modules, stage infos, bindings) that a
// successful addShader extends together.
module ShaderRules {
  import opened Wrappers
  import opened Vk
  import opened Gpu
  import opened DescriptorSets

  /** ShaderType of enums.hpp: eUnknown = 0, eVertex, eFrag. */
  datatype ShaderType = UnknownShader | VertexShader | FragShader

  /** A PipelineShaderStageCreateInfo as addShader fills it in. */
  datatype StageInfo = StageInfo(stage: ShaderStage, shaderModule: Handle, entry: string)

  const ILLEGAL_SHADER_TYPE: Error := Fatal("illegal ShaderType")

  /** addShader's switch: the stage of a shader type, raising on any other. */
  function StageFor(t: ShaderType): (r: Result<ShaderStage>)
    ensures r.Err? <==> t == UnknownShader
  {
    match t
    case VertexShader => Ok(VertexStage)
    case FragShader => Ok(FragmentStage)
    case UnknownShader => Err(ILLEGAL_SHADER_TYPE)
  }

  /** createBinding: the vertex shader reads the uniform buffer at binding
      0, the fragment shader the combined image sampler at binding 1, one
      descriptor each; any other type raises. */
  function CreateBinding(t: ShaderType): (r: Result<LayoutBinding>)
    ensures r.Err? <==> t == UnknownShader
    ensures r.Err? ==> r.error == ILLEGAL_SHADER_TYPE
    ensures r.Ok? ==> r.value.count == 1 && (r.value.kind == UniformBuffer <==> r.value.stage == VertexStage)
  {
    match t
    case VertexShader => Ok(LayoutBinding(0, UniformBuffer, 1, VertexStage))
    case FragShader => Ok(LayoutBinding(1, CombinedImageSampler, 1, FragmentStage))
    case UnknownShader => Err(ILLEGAL_SHADER_TYPE)
  }

  /** createBinding and the stage switch accept the same types and agree on
      the stage; they also fail with the same error. */
  lemma BindingAgreesWithStage(t: ShaderType)
    ensures CreateBinding(t).Ok? <==> StageFor(t).Ok?
    ensures CreateBinding(t).Ok? ==> CreateBinding(t).value.stage == StageFor(t).value && CreateBinding(t).value.count == 1
    ensures CreateBinding(t).Err? ==> CreateBinding(t).error == StageFor(t).error
  {
  }

  /** The two shaders' bindings are distinct slots of the one layout. */
  lemma BindingsDistinct()
    ensures CreateBinding(VertexShader).value.binding != CreateBinding(FragShader).value.binding
    ensures CreateBinding(VertexShader).value.kind != CreateBinding(FragShader).value.kind
  {
  }

  /** Descriptor::initSets writes exactly the slots the shaders declare:
      write 0 is the vertex shader's binding with its descriptor type and
      count, write 1 the fragment shader's. */
  lemma SetWritesMatchBindings(dstSet: Handle, buffer: Handle, range: nat, sampler: Handle, view: Handle)
    ensures var w := SetWrites(dstSet, buffer, range, sampler, view);
      var v, f := CreateBinding(VertexShader).value, CreateBinding(FragShader).value;
      |w| == 2
      && w[0].binding == v.binding && w[0].kind == v.kind && w[0].count == v.count
      && w[1].binding == f.binding && w[1].kind == f.kind && w[1].count == f.count
  {
  }

  /** The lists a shader holder keeps after successful addShader calls:
      one stage info and one binding per module, stage info i naming module
      i with entry point "main", and binding i declared for stage i. */
  predicate Lockstep(modules: seq<Handle>, stageInfos: seq<StageInfo>, bindings: seq<LayoutBinding>)
  {
    |modules| == |stageInfos| == |bindings|
    && (forall i :: 0 <= i < |stageInfos| ==> stageInfos[i].shaderModule == modules[i] && stageInfos[i].entry == "main")
    && (forall i :: 0 <= i < |bindings| ==> bindings[i].stage == stageInfos[i].stage)
  }

  /** A successful addShader extends the three lists in lockstep. */
  lemma AddKeepsLockstep(modules: seq<Handle>, stageInfos: seq<StageInfo>, bindings: seq<LayoutBinding>,
                         shaderModule: Handle, t: ShaderType)
    requires Lockstep(modules, stageInfos, bindings) && t != UnknownShader
    ensures Lockstep(modules + [shaderModule], stageInfos + [StageInfo(StageFor(t).value, shaderModule, "main")],
                     bindings + [CreateBinding(t).value])
  {
    BindingAgreesWithStage(t);
  }

  /** One destroy per shader module, in list order. */
  function ModuleDestroys(modules: seq<Handle>): seq<Call>
  {
    if modules == [] then
      []
    else
      ModuleDestroys(modules[..|modules| - 1]) + [DestroyObject(ShaderModuleObject, modules[|modules| - 1])]
  }

  /** Every module is destroyed once, and nothing else is. */
  lemma {:induction false} ModuleDestroysAt(modules: seq<Handle>, i: nat)
    requires i < |modules|
    ensures |ModuleDestroys(modules)| == |modules|
    ensures ModuleDestroys(modules)[i] == DestroyObject(ShaderModuleObject, modules[i])
  {
    var n := |modules| - 1;
    ModuleDestroysLength(modules[..n]);
    if i < n {
      ModuleDestroysAt(modules[..n], i);
    }
  }

  lemma {:induction false} ModuleDestroysLength(modules: seq<Handle>)
    ensures |ModuleDestroys(modules)| == |modules|
  {
    if modules != [] {
      ModuleDestroysLength(modules[..|modules| - 1]);
    }
  }

  /** The loop over `modules` destroying each one. */
  method DestroyModules(dev: Device, modules: seq<Handle>)
    modifies dev`calls
    ensures dev.calls == old(dev.calls) + ModuleDestroys(modules)
  {
    for i := 0 to |modules|
      invariant dev.calls == old(dev.calls) + ModuleDestroys(modules[..i])
    {
      dev.calls := dev.calls + [DestroyObject(ShaderModuleObject, modules[i])];
      assert modules[..i + 1][..i] == modules[..i];
    }
    assert modules[..|modules|] == modules;
  }

  /** createShaderModule: one module over the whole code. */
  method NewShaderModule(dev: Device, code: seq<bv8>) returns (shaderModule: Handle)
    modifies dev
    ensures shaderModule == old(dev.nextHandle) && dev.nextHandle == old(dev.nextHandle) + 1
    ensures dev.calls == old(dev.calls) + [Gpu.CreateShaderModule(shaderModule, |code|)]
  {
    shaderModule := dev.NewHandle();
    dev.calls := dev.calls + [Gpu.CreateShaderModule(shaderModule, |code|)];
  }
}
