// RenderPass of the newer revision: init creates the pass from the shared
// table on the engine's device and sets `inited`; destroy acts only while
// `inited` is set and clears it.
module CoreRenderPasses {
  import opened Vk
  import opened Gpu
  import opened RenderPassRules

  class RenderPass {
    var inited: bool
    var renderPass: Handle

    constructor ()
      ensures !inited && renderPass == NULL_HANDLE
    {
      inited, renderPass := false, NULL_HANDLE;
    }

    /** init: one render pass with the colour, depth and resolve attachments
        of RenderPassTable; `inited` is set once it exists. */
    method Init(dev: Device, swapchainFormat: Format, depthFormat: Format, msaaSamples: nat)
      modifies this, dev
      ensures inited && renderPass == old(dev.nextHandle) && dev.nextHandle == old(dev.nextHandle) + 1
      ensures dev.calls == old(dev.calls) + [CreateRenderPass(renderPass, RenderPassTable(swapchainFormat, depthFormat, msaaSamples))]
    {
      renderPass := dev.NewHandle();
      dev.calls := dev.calls + [CreateRenderPass(renderPass, RenderPassTable(swapchainFormat, depthFormat, msaaSamples))];
      inited := true;
    }

    /** destroy: the pass, once, while `inited`. */
    method Destroy(dev: Device)
      modifies this`inited, dev`calls
      ensures !inited
      ensures !old(inited) ==> dev.calls == old(dev.calls)
      ensures old(inited) ==> dev.calls == old(dev.calls) + [DestroyObject(RenderPassObject, renderPass)]
    {
      if inited {
        dev.calls := dev.calls + [DestroyObject(RenderPassObject, renderPass)];
        inited := false;
      }
    }
  }
}
