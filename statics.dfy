// Function-local `static bool destroyed` flags of the newer resource classes.
// Each belongs to one function, not to an object, so it is shared by every
// instance in the process: once set, that destroy function does nothing for
// the rest of the run, whichever object it is called on.
module Statics {

  class ProcessStatics {
    var swapchainDestroyed: bool
    var bufferDestroyed: bool
    var uniformBufferDestroyed: bool
    var textureDestroyed: bool
    var shaderDestroyed: bool
    var shaderCacheDestroyed: bool

    /** Program start: no flag is set yet. */
    constructor ()
      ensures !swapchainDestroyed && !bufferDestroyed && !uniformBufferDestroyed
      ensures !textureDestroyed && !shaderDestroyed && !shaderCacheDestroyed
    {
      swapchainDestroyed, bufferDestroyed, uniformBufferDestroyed := false, false, false;
      textureDestroyed, shaderDestroyed, shaderCacheDestroyed := false, false, false;
    }
  }
}
