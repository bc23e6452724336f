// ShaderInterface of the newer revision: shader modules built from code the
// caller has already read, a stage info and a layout binding per module,
// and the descriptor-set layout built from those bindings.  destroy and
// destroyCache are each guarded by a function-local static flag, so each
// runs its body once per process, whichever instance it is called on.
module CoreShaders {
  import opened Wrappers
  import opened Vk
  import opened Gpu
  import opened Statics
  import opened DescriptorSets
  import opened CoreDescriptors
  import opened ShaderRules

  class ShaderInterface {
    var modules: seq<Handle>
    var stageInfos: seq<StageInfo>
    var bindings: seq<LayoutBinding>
    const descriptors: Descriptor

    constructor ()
      ensures modules == [] && stageInfos == [] && bindings == []
      ensures fresh(descriptors) && !descriptors.poolInited && !descriptors.layoutInited && !descriptors.setsInited
    {
      modules, stageInfos, bindings := [], [], [];
      descriptors := new Descriptor();
    }

    /** addShader: the module is appended first; an unknown type then
        raises, leaving the module without a stage info or binding; a known
        one appends its stage info and its binding. */
    method AddShader(dev: Device, code: seq<bv8>, t: ShaderType) returns (r: Outcome)
      modifies this`modules, this`stageInfos, this`bindings, dev
      ensures modules == old(modules) + [old(dev.nextHandle)] && dev.nextHandle == old(dev.nextHandle) + 1
      ensures dev.calls == old(dev.calls) + [Gpu.CreateShaderModule(old(dev.nextHandle), |code|)]
      ensures t == UnknownShader ==>
        r == Fail(ILLEGAL_SHADER_TYPE) && stageInfos == old(stageInfos) && bindings == old(bindings)
      ensures t != UnknownShader ==>
        r == Done
        && stageInfos == old(stageInfos) + [StageInfo(StageFor(t).value, old(dev.nextHandle), "main")]
        && bindings == old(bindings) + [CreateBinding(t).value]
    {
      var shaderModule := NewShaderModule(dev, code);
      modules := modules + [shaderModule];
      var stage := StageFor(t);
      if stage.Err? {
        return Fail(stage.error);
      }
      stageInfos := stageInfos + [StageInfo(stage.value, modules[|modules| - 1], "main")];
      var binding := CreateBinding(t);
      bindings := bindings + [binding.value];
      r := Done;
    }

    /** initDescriptorSetLayout: warns when either list is empty, builds
        the layout from the bindings only when there are some, and returns
        the stage infos in every case. */
    method InitDescriptorSetLayout(dev: Device) returns (infos: seq<StageInfo>, warned: bool)
      modifies descriptors`layout, descriptors`layoutInited, dev
      ensures infos == stageInfos && warned == (stageInfos == [] || bindings == [])
      ensures bindings == [] ==>
        descriptors.layoutInited == old(descriptors.layoutInited)
        && dev.calls == old(dev.calls) && dev.nextHandle == old(dev.nextHandle)
      ensures bindings != [] ==>
        descriptors.layoutInited && descriptors.layout == old(dev.nextHandle)
        && dev.nextHandle == old(dev.nextHandle) + 1
        && dev.calls == old(dev.calls) + [CreateDescriptorSetLayout(descriptors.layout, bindings)]
    {
      warned := stageInfos == [] || bindings == [];
      if bindings != [] {
        descriptors.InitLayout(dev, bindings);
      }
      infos := stageInfos;
    }

    /** destroyCache: on its first call in the process, destroys every
        module and empties the three lists; later calls do nothing. */
    method DestroyCache(dev: Device, statics: ProcessStatics)
      modifies this`modules, this`stageInfos, this`bindings, statics`shaderCacheDestroyed, dev`calls
      ensures statics.shaderCacheDestroyed
      ensures old(statics.shaderCacheDestroyed) ==>
        dev.calls == old(dev.calls)
        && modules == old(modules) && stageInfos == old(stageInfos) && bindings == old(bindings)
      ensures !old(statics.shaderCacheDestroyed) ==>
        dev.calls == old(dev.calls) + ModuleDestroys(old(modules))
        && modules == [] && stageInfos == [] && bindings == []
    {
      if !statics.shaderCacheDestroyed {
        if modules != [] {
          DestroyModules(dev, modules);
          modules := [];
        }
        stageInfos := [];
        bindings := [];
        statics.shaderCacheDestroyed := true;
      }
    }

    /** destroy: on its first call in the process, destroyCache (itself
        skipped if it already ran) and then the descriptors; later calls do
        nothing. */
    method Destroy(dev: Device, statics: ProcessStatics)
      modifies this`modules, this`stageInfos, this`bindings, statics`shaderCacheDestroyed, statics`shaderDestroyed,
               descriptors`poolInited, descriptors`layoutInited, descriptors`setsInited, dev`calls
      ensures statics.shaderDestroyed
      ensures old(statics.shaderDestroyed) ==>
        dev.calls == old(dev.calls) && modules == old(modules)
        && descriptors.poolInited == old(descriptors.poolInited) && descriptors.layoutInited == old(descriptors.layoutInited)
      ensures !old(statics.shaderDestroyed) ==>
        statics.shaderCacheDestroyed && !descriptors.poolInited && !descriptors.layoutInited
        && dev.calls == old(dev.calls)
           + (if old(statics.shaderCacheDestroyed) then [] else ModuleDestroys(old(modules)))
           + DescriptorDestroys(old(descriptors.poolInited), old(descriptors.layoutInited), descriptors.pool, descriptors.layout)
    {
      if !statics.shaderDestroyed {
        DestroyCache(dev, statics);
        descriptors.Destroy(dev);
        statics.shaderDestroyed := true;
      }
    }
  }

  /** Two shader interfaces whose caches are destroyed one after the other:
      only the first one's modules are destroyed, and the second keeps its
      lists. */
  method DestroyTwoCaches(dev: Device, statics: ProcessStatics, a: ShaderInterface, b: ShaderInterface)
    requires a != b && !statics.shaderCacheDestroyed
    modifies a`modules, a`stageInfos, a`bindings, b`modules, b`stageInfos, b`bindings, statics`shaderCacheDestroyed, dev`calls
    ensures dev.calls == old(dev.calls) + ModuleDestroys(old(a.modules))
    ensures b.modules == old(b.modules) && b.stageInfos == old(b.stageInfos) && b.bindings == old(b.bindings)
  {
    a.DestroyCache(dev, statics);
    b.DestroyCache(dev, statics);
  }
}
