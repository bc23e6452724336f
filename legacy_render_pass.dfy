// RenderPass of the older revision: initAll records the device pointer and
// creates the pass from the shared table; destroy does nothing while the
// pointer is null and nulls it after destroying the pass.
module LegacyRenderPasses {
  import opened Vk
  import opened Gpu
  import opened RenderPassRules

  class RenderPass {
    /** pDevice is set. */
    var hasDevice: bool
    var renderPass: Handle

    constructor ()
      ensures !hasDevice && renderPass == NULL_HANDLE
    {
      hasDevice, renderPass := false, NULL_HANDLE;
    }

    /** initAll: one render pass with the colour, depth and resolve
        attachments of RenderPassTable. */
    method InitAll(dev: Device, swapchainFormat: Format, depthFormat: Format, msaaSamples: nat)
      modifies this, dev
      ensures hasDevice && renderPass == old(dev.nextHandle) && dev.nextHandle == old(dev.nextHandle) + 1
      ensures dev.calls == old(dev.calls) + [CreateRenderPass(renderPass, RenderPassTable(swapchainFormat, depthFormat, msaaSamples))]
    {
      hasDevice := true;
      renderPass := dev.NewHandle();
      dev.calls := dev.calls + [CreateRenderPass(renderPass, RenderPassTable(swapchainFormat, depthFormat, msaaSamples))];
    }

    /** destroy: nothing without a device; otherwise the pass is destroyed
        and the device pointer nulled, so a second destroy does nothing. */
    method Destroy(dev: Device)
      modifies this`hasDevice, dev`calls
      ensures !hasDevice
      ensures !old(hasDevice) ==> dev.calls == old(dev.calls)
      ensures old(hasDevice) ==> dev.calls == old(dev.calls) + [DestroyObject(RenderPassObject, renderPass)]
    {
      if !hasDevice {
        return;
      }
      dev.calls := dev.calls + [DestroyObject(RenderPassObject, renderPass)];
      hasDevice := false;
    }
  }
}
