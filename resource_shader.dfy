// Shader of the resource tree: it reads SPIR-V files into shader modules,
// keeps a stage info and a layout binding per module, and owns the
// descriptor-set layout built from those bindings (a newer-revision
// Descriptor).  Each list has an initialised flag that destroyCache clears.
// Reading the file is I/O: its contents, or the failure to open it, are
// given by the caller.
module ResourceShaders {
  import opened Wrappers
  import opened Vk
  import opened Gpu
  import opened DescriptorSets
  import opened CoreDescriptors
  import opened ShaderRules

  const OPEN_FAILED: Error := Thrown("failed to open file!")

  /** destroyCache's calls: the modules, when they were created. */
  function CacheDestroys(modulesInited: bool, modules: seq<Handle>): seq<Call>
  {
    if modulesInited then ModuleDestroys(modules) else []
  }

  /** destroy's calls: the cache, then the descriptors when the layout was
      built here. */
  function ShaderDestroys(modulesInited: bool, modules: seq<Handle>, descInited: bool,
                          poolInited: bool, layoutInited: bool, pool: Handle, layout: Handle): seq<Call>
  {
    CacheDestroys(modulesInited, modules)
      + if descInited then DescriptorDestroys(poolInited, layoutInited, pool, layout) else []
  }

  class Shader {
    var modules: seq<Handle>
    var stageInfos: seq<StageInfo>
    var bindings: seq<LayoutBinding>
    const descriptors: Descriptor
    var modulesInited: bool
    var stageInfosInited: bool
    var bindingsInited: bool
    var descInited: bool

    constructor ()
      ensures modules == [] && stageInfos == [] && bindings == []
      ensures !modulesInited && !stageInfosInited && !bindingsInited && !descInited
      ensures fresh(descriptors) && !descriptors.poolInited && !descriptors.layoutInited && !descriptors.setsInited
      ensures descriptors.sets == []
    {
      modules, stageInfos, bindings := [], [], [];
      modulesInited, stageInfosInited, bindingsInited, descInited := false, false, false, false;
      descriptors := new Descriptor();
    }

    /** addShader: a file that does not open raises before anything is
        created.  Otherwise its module is appended first; an unknown type
        then raises, leaving the module without a stage info or binding;
        a known one appends its stage info and its binding. */
    method AddShader(dev: Device, file: Option<seq<bv8>>, t: ShaderType) returns (r: Outcome)
      modifies this`modules, this`modulesInited, this`stageInfos, this`stageInfosInited,
               this`bindings, this`bindingsInited, dev
      ensures file.None? ==>
        r == Fail(OPEN_FAILED) && modules == old(modules) && modulesInited == old(modulesInited)
        && stageInfos == old(stageInfos) && bindings == old(bindings)
        && dev.calls == old(dev.calls) && dev.nextHandle == old(dev.nextHandle)
      ensures file.Some? ==>
        modulesInited && modules == old(modules) + [old(dev.nextHandle)]
        && dev.nextHandle == old(dev.nextHandle) + 1
        && dev.calls == old(dev.calls) + [Gpu.CreateShaderModule(old(dev.nextHandle), |file.value|)]
      ensures file.Some? && t == UnknownShader ==>
        r == Fail(ILLEGAL_SHADER_TYPE) && stageInfos == old(stageInfos) && bindings == old(bindings)
        && stageInfosInited == old(stageInfosInited) && bindingsInited == old(bindingsInited)
      ensures file.Some? && t != UnknownShader ==>
        r == Done && stageInfosInited && bindingsInited
        && stageInfos == old(stageInfos) + [StageInfo(StageFor(t).value, old(dev.nextHandle), "main")]
        && bindings == old(bindings) + [CreateBinding(t).value]
    {
      if file.None? {
        return Fail(OPEN_FAILED);
      }
      var shaderModule := NewShaderModule(dev, file.value);
      modules := modules + [shaderModule];
      modulesInited := true;
      var stage := StageFor(t);
      if stage.Err? {
        return Fail(stage.error);
      }
      stageInfos := stageInfos + [StageInfo(stage.value, modules[|modules| - 1], "main")];
      stageInfosInited := true;
      var binding := CreateBinding(t);
      bindings := bindings + [binding.value];
      bindingsInited := true;
      r := Done;
    }

    /** initDescriptorSetLayout: warns when either list is empty, builds
        the layout from the bindings only when there are some, and returns
        the stage infos in every case. */
    method InitDescriptorSetLayout(dev: Device) returns (infos: seq<StageInfo>, warned: bool)
      modifies descriptors`layout, descriptors`layoutInited, this`descInited, dev
      ensures infos == stageInfos && warned == (stageInfos == [] || bindings == [])
      ensures bindings == [] ==>
        descInited == old(descInited) && descriptors.layoutInited == old(descriptors.layoutInited)
        && dev.calls == old(dev.calls) && dev.nextHandle == old(dev.nextHandle)
      ensures bindings != [] ==>
        descInited && descriptors.layoutInited && descriptors.layout == old(dev.nextHandle)
        && dev.nextHandle == old(dev.nextHandle) + 1
        && dev.calls == old(dev.calls) + [CreateDescriptorSetLayout(descriptors.layout, bindings)]
    {
      warned := stageInfos == [] || bindings == [];
      if bindings != [] {
        descriptors.InitLayout(dev, bindings);
        descInited := true;
      }
      infos := stageInfos;
    }

    /** destroyCache: destroys every module and empties the lists whose
        flags are set, then clears those flags. */
    method DestroyCache(dev: Device)
      modifies this`modules, this`modulesInited, this`stageInfos, this`stageInfosInited,
               this`bindings, this`bindingsInited, dev`calls
      ensures !modulesInited && !stageInfosInited && !bindingsInited
      ensures dev.calls == old(dev.calls) + CacheDestroys(old(modulesInited), old(modules))
      ensures modules == if old(modulesInited) then [] else old(modules)
      ensures stageInfos == if old(stageInfosInited) then [] else old(stageInfos)
      ensures bindings == if old(bindingsInited) then [] else old(bindings)
    {
      if modulesInited {
        if modules != [] {
          DestroyModules(dev, modules);
          modules := [];
        }
        modulesInited := false;
      }
      if stageInfosInited {
        stageInfos := [];
        stageInfosInited := false;
      }
      if bindingsInited {
        bindings := [];
        bindingsInited := false;
      }
    }

    /** destroy: destroyCache, then the descriptors when the layout was
        built here. */
    method Destroy(dev: Device)
      modifies this`modules, this`modulesInited, this`stageInfos, this`stageInfosInited,
               this`bindings, this`bindingsInited, this`descInited,
               descriptors`poolInited, descriptors`layoutInited, descriptors`setsInited, dev`calls
      ensures !modulesInited && !stageInfosInited && !bindingsInited && !descInited
      ensures modules == if old(modulesInited) then [] else old(modules)
      ensures old(descInited) ==> !descriptors.poolInited && !descriptors.layoutInited
      ensures dev.calls == old(dev.calls) + ShaderDestroys(old(modulesInited), old(modules), old(descInited),
        old(descriptors.poolInited), old(descriptors.layoutInited), descriptors.pool, descriptors.layout)
    {
      DestroyCache(dev);
      if descInited {
        descriptors.Destroy(dev);
        descInited := false;
      }
    }
  }
}
