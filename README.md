# Toy-Bricks-Engine renderer core, modelled in Dafny

Toy-Bricks-Engine is a small Vulkan renderer written in C++. The decisions it
wraps around Vulkan calls are modelled here, and properties of them are proved.
Both revisions of the engine are covered:

- the older `graphics/…` tree, whose modules are prefixed `Legacy`;
- the newer `core/…` tree, whose modules are prefixed `Core`.

Rules both revisions share are modelled once, in modules named after what they
decide: `GraphicsDetail`, `SwapchainRules`, `TextureRules`, `MipChains`,
`DescriptorSets`, `RenderPassRules`, `ShaderRules`, `BufferCommon`, `Commands`
and `FrameRules`.

How the GPU and the platform are represented:

- **The GPU** is a `Gpu.Device`. It hands out opaque integer handles and keeps a
  ghost trace of every call the engine makes on it: creations, destroys,
  recorded commands, submits and waits. Each operation states its effect as the
  exact calls it appends to that trace, together with the fields it changes.
- **What the hardware reports** is an input. This covers queue families,
  surface capabilities, format and memory properties, and the answers to calls
  the engine retries (fence waits, queue-idle waits, window-size queries). The
  answers to retried calls are given as sequences.
- **Fatal errors.** The engine's `logErrorMsg` logs and then throws. Every
  fatal branch is therefore an `Err`/`Fail` outcome after which nothing more is
  written.
- **Process-wide destroy flags.** The newer revision's resource classes guard
  `destroy()` with a function-local `static bool`. These flags are fields of
  one `Statics.ProcessStatics` object, because they are shared by every
  instance in the process.

Both OBJ loaders run the same vertex de-duplication loop. It is modelled in
`ObjIndexing` and proved against a reference definition: the distinct
vertices in first-occurrence order, plus an index list that points at an equal
vertex for every mesh index. Texture upload and mip generation are checked
against a replay of Vulkan's image-layout rules (`ImageLayouts`). That replay
shows every mip level ending in `ShaderReadOnlyOptimal`, each reaching it
exactly once. The delegate classes, the editor's delegate registry and the
root-path computation are modelled as well.

## Model

| member | source | states |
|---|---|---|
| Recordings.Record | SourceCode/TBEngine/graphics/graphics.cpp:714 | running a recorder on a command buffer appends exactly the commands that recorder records for it |
| Commands.FirstSettled | SourceCode/TBEngine/core/graphics/graphics.cpp:79-82 | the index of the first answer that is not a timeout: every earlier answer is a timeout |
| Commands.RetryWhileTimeout | SourceCode/TBEngine/core/graphics/graphics.cpp:79-82 | the wait is issued once per answer up to and including the first non-timeout answer, and nothing else is issued; a timeout never ends the loop with an error |
| Commands.FirstNonZero | SourceCode/TBEngine/graphics/graphics.cpp:570-574 | the index of the first window-size report with both dimensions non-zero; every earlier report has a zero dimension |
| Commands.WaitForNonZeroFramebuffer | SourceCode/TBEngine/graphics/graphics.cpp:570-574 | reports are consumed up to the first non-zero one, and that report is the size used |
| Commands.DisposableShape | SourceCode/TBEngine/graphics/graphics.cpp:699-727 | a one-shot command buffer is allocated and begun before the recorded commands, ended and submitted right after them, and freed last |
| Commands.DisposableCommands | SourceCode/TBEngine/core/graphics/graphics.cpp:594-622 | disposableCommands takes one fresh handle and issues allocate, begin (one-time submit), the recording, end, a fence-less submit, the queue-idle retries and the free |
| Commands.DisposableFreesAfterIdle | SourceCode/TBEngine/graphics/graphics.cpp:721-726 | the command buffer is freed only after the last queue-idle wait |
| BufferCommon.CreateBufferObject | SourceCode/TBEngine/graphics/vulkanAbstract/bufferResource/bufferResource.cpp:39-63 | the buffer is created first; with no suitable memory type the search raises and only the buffer exists; otherwise memory of the first suitable type is allocated and bound, with two fresh handles |
| BufferCommon.CreateStaging | SourceCode/TBEngine/graphics/vulkanAbstract/bufferResource/stagingBuffer.cpp:44-65 | the staging buffer is a host-visible, host-coherent transfer source of exactly the data's size, and is filled with the data |
| BufferCommon.DisposableCopy | SourceCode/TBEngine/graphics/vulkanAbstract/bufferResource/bufferResource.cpp:32-36 | the one-shot copy holds exactly one copy command, third in its trace |
| LegacyBuffers.InitCopiesOnce | SourceCode/TBEngine/graphics/vulkanAbstract/bufferResource/bufferResource.cpp:25-36 | a successful init issues exactly one copy, of `size` bytes from the staging buffer into the device buffer, after both exist |
| LegacyBuffers.FailedInitReleasesStaging | SourceCode/TBEngine/graphics/vulkanAbstract/bufferResource/bufferResource.cpp:28-30 | when the device buffer finds no memory type, init raises after creating that buffer, and the staging buffer and its memory are released as the exception leaves init |
| LegacyBuffers.BufferResource.Destroy | SourceCode/TBEngine/graphics/vulkanAbstract/bufferResource/bufferResource.cpp:11-16 | without a device nothing is released; otherwise the buffer, then its memory, and the device pointer is cleared, so a second destroy does nothing |
| LegacyBuffers.BufferResource.Init | SourceCode/TBEngine/graphics/vulkanAbstract/bufferResource/bufferResource.cpp:18-37 | init records the device and size = the data's length, builds the staging buffer, then the device buffer, then copies; its outcome and trace follow the two memory-type answers |
| LegacyBuffers.BufferResource.CreateAndCopy | SourceCode/TBEngine/graphics/vulkanAbstract/bufferResource/bufferResource.cpp:30-36 | from the device buffer on: a missing memory type raises and keeps the old handles, otherwise the new buffer and memory are stored and the copy runs |
| LegacyBuffers.CopyAndRelease | SourceCode/TBEngine/graphics/vulkanAbstract/bufferResource/bufferResource.cpp:32-37 | the copy through a one-shot command buffer, then the staging buffer's release at the end of init's scope |
| LegacyBuffers.BufferResourceUniform.Destroy | SourceCode/TBEngine/graphics/vulkanAbstract/bufferResource/bufferResource.cpp:67-73 | no-op without a device; otherwise buffer then memory are released and the device pointer cleared |
| LegacyBuffers.BufferResourceUniform.Init | SourceCode/TBEngine/graphics/vulkanAbstract/bufferResource/bufferResource.cpp:75-87 | records bufferSize, leaves the inherited size untouched, creates a host-visible, host-coherent uniform buffer and maps all of it once |
| LegacyBuffers.BufferResourceUniform.Update | SourceCode/TBEngine/graphics/vulkanAbstract/bufferResource/bufferResource.cpp:89-92 | data of another size than bufferSize raises and leaves the mapping unchanged; data of that size overwrites exactly the whole mapping |
| CoreBuffers.InitOrder | SourceCode/TBEngine/core/graphics/vulkanAbstract/bufferResource/bufferResource.cpp:26-30 | the device buffer is created before the staging buffer |
| CoreBuffers.InitCopiesOnce | SourceCode/TBEngine/core/graphics/vulkanAbstract/bufferResource/bufferResource.cpp:26-37 | a successful init issues exactly one copy, of `size` bytes from the staging buffer into the device buffer |
| CoreBuffers.BufferResource.Destroy | SourceCode/TBEngine/core/graphics/vulkanAbstract/bufferResource/bufferResource.cpp:14-21 | only the first destroy in the process, on any buffer, releases that buffer and its memory; the static flag ends set |
| CoreBuffers.BufferResource.Init | SourceCode/TBEngine/core/graphics/vulkanAbstract/bufferResource/bufferResource.cpp:23-38 | size = the data's length; device buffer, then staging buffer, then one copy; outcome, handles and trace follow the two memory-type answers, and a failure keeps the handles stored before it |
| CoreBuffers.StageAndCopy | SourceCode/TBEngine/core/graphics/vulkanAbstract/bufferResource/bufferResource.cpp:30-37 | the staging buffer is built (or its search raises, leaving its buffer behind), the data is copied in one shot and the staging buffer is released at the end of init's scope |
| CoreBuffers.BufferResourceUniform.Destroy | SourceCode/TBEngine/core/graphics/vulkanAbstract/bufferResource/bufferResource.cpp:70-77 | its own static flag: only the first uniform-buffer destroy in the process releases anything |
| CoreBuffers.BufferResourceUniform.Init | SourceCode/TBEngine/core/graphics/vulkanAbstract/bufferResource/bufferResource.cpp:79-90 | records bufferSize, leaves size untouched, creates a host-visible, host-coherent uniform buffer and maps it once |
| CoreBuffers.BufferResourceUniform.Update | SourceCode/TBEngine/core/graphics/vulkanAbstract/bufferResource/bufferResource.cpp:92-97 | a size mismatch raises and writes nothing; a matching update overwrites exactly bufferSize bytes |
| CoreBuffers.DestroyTwo | SourceCode/TBEngine/core/graphics/vulkanAbstract/bufferResource/bufferResource.cpp:14-21 | destroying two buffers in a row releases only the first one's buffer and memory |
| DescriptorSets.SetUpdatesAt | SourceCode/TBEngine/core/graphics/vulkanAbstract/descriptor/descriptor.cpp:52-74 | there is one update per set, and update i writes exactly set i: its buffer at binding 0 from offset 0, and the shared sampler and view in ShaderReadOnlyOptimal at binding 1 |
| DescriptorSets.LayoutCopies | SourceCode/TBEngine/core/graphics/vulkanAbstract/descriptor/descriptor.cpp:46-48 | n copies of the single layout, one per set to allocate |
| DescriptorSets.WriteSets | SourceCode/TBEngine/graphics/vulkanAbstract/descriptor/descriptor.cpp:37-64 | exactly one set per buffer is allocated, each from its own copy of the layout, and then each set is written in order |
| CoreDescriptors.BindingRanges | SourceCode/TBEngine/core/graphics/vulkanAbstract/descriptor/descriptor.cpp:54 | entry i is uniform buffer i's handle and its whole mapped size, bufferSize |
| CoreDescriptors.WrittenRanges | SourceCode/TBEngine/core/graphics/vulkanAbstract/descriptor/descriptor.cpp:54 | entry i is uniform buffer i's handle and its inherited `size` field, the range the code writes |
| CoreDescriptors.Descriptor.Destroy | SourceCode/TBEngine/core/graphics/vulkanAbstract/descriptor/descriptor.cpp:11-24 | the pool is destroyed only if inited, which also clears setsInited; the layout only if inited; a second call does nothing |
| CoreDescriptors.Descriptor.InitLayout | SourceCode/TBEngine/core/graphics/vulkanAbstract/descriptor/descriptor.cpp:26-32 | one layout with the given bindings; layoutInited is set |
| CoreDescriptors.Descriptor.InitPool | SourceCode/TBEngine/core/graphics/vulkanAbstract/descriptor/descriptor.cpp:34-39 | one pool for maxSets sets with the given sizes; poolInited is set |
| CoreDescriptors.Descriptor.InitSets | SourceCode/TBEngine/core/graphics/vulkanAbstract/descriptor/descriptor.cpp:41-77 | corrected initSets: one set per uniform buffer, set i bound to buffer i's whole range and to the shared sampler; setsInited is set after all writes |
| CoreDescriptors.Descriptor.InitSetsAsWritten | SourceCode/TBEngine/core/graphics/vulkanAbstract/descriptor/descriptor.cpp:41-77 | initSets as written: the same calls, with binding 0's range taken from the never-set `size` |
| CoreDescriptors.ZeroRangeWitness | SourceCode/TBEngine/core/graphics/vulkanAbstract/descriptor/descriptor.cpp:54 | a 64-byte uniform buffer bound by the as-written initSets gets a 0-byte uniform binding |
| LegacyDescriptors.BindingRanges | SourceCode/TBEngine/graphics/vulkanAbstract/descriptor/descriptor.cpp:44 | entry i is uniform buffer i's handle and bufferSize |
| LegacyDescriptors.WrittenRanges | SourceCode/TBEngine/graphics/vulkanAbstract/descriptor/descriptor.cpp:44 | entry i is uniform buffer i's handle and its inherited, never-set `size` |
| LegacyDescriptors.Descriptor.SetDevice | SourceCode/TBEngine/graphics/vulkanAbstract/base/base.hpp:12 | setPDevice gives the descriptor its device |
| LegacyDescriptors.Descriptor.Destroy | SourceCode/TBEngine/graphics/vulkanAbstract/descriptor/descriptor.cpp:7-18 | nothing without a device; otherwise the pool if inited (clearing setsInited), then the layout if inited, so a second call is a no-op |
| LegacyDescriptors.Descriptor.InitLayout | SourceCode/TBEngine/graphics/vulkanAbstract/descriptor/descriptor.cpp:20-25 | one layout with the given bindings; layoutInited is set |
| LegacyDescriptors.Descriptor.InitPool | SourceCode/TBEngine/graphics/vulkanAbstract/descriptor/descriptor.cpp:27-31 | one pool for maxSets sets; poolInited is set |
| LegacyDescriptors.Descriptor.InitSets | SourceCode/TBEngine/graphics/vulkanAbstract/descriptor/descriptor.cpp:33-67 | corrected initSets: exactly n = number of uniform buffers sets from n copies of the layout, set i bound to buffer i's whole range and the shared sampler; setsInited only after all writes |
| LegacyDescriptors.Descriptor.InitSetsAsWritten | SourceCode/TBEngine/graphics/vulkanAbstract/descriptor/descriptor.cpp:33-67 | initSets as written, binding 0's range being the never-set `size` |
| LegacyDescriptors.ZeroRangeWitness | SourceCode/TBEngine/graphics/vulkanAbstract/descriptor/descriptor.cpp:44 | a 64-byte uniform buffer bound by the as-written initSets gets a 0-byte uniform binding |
| SwapchainRules.ImageCount | SourceCode/TBEngine/core/graphics/vulkanAbstract/swapChainResource/swapChainResource.cpp:39-43 | at most one image more than the surface minimum, and never more than a positive maximum |
| SwapchainRules.ImageCountRule | SourceCode/TBEngine/graphics/vulkanAbstract/swapChainResource/swapChainResource.cpp:39-43 | the image count is minImageCount + 1, lowered to maxImageCount only when that is positive and exceeded; it never exceeds a positive maximum, and the uint32 addition wraps to 0 at the limit |
| SwapchainRules.ImageCountWithinSurfaceRange | SourceCode/TBEngine/core/graphics/vulkanAbstract/swapChainResource/swapChainResource.cpp:39-43 | for a consistent surface range the count lies between minImageCount and a positive maxImageCount |
| SwapchainRules.SharingFor | SourceCode/TBEngine/graphics/vulkanAbstract/swapChainResource/swapChainResource.cpp:54-65 | sharing is Concurrent exactly when the graphics and present families differ, with the (graphics, present) pair; otherwise Exclusive with no family list |
| SwapchainRules.ConcurrentSharingNamesBothFamilies | SourceCode/TBEngine/core/graphics/vulkanAbstract/swapChainResource/swapChainResource.cpp:54-59 | a concurrent list names two different families, exactly the set of queue families |
| SwapchainRules.ViewCreatesSnoc | SourceCode/TBEngine/graphics/vulkanAbstract/swapChainResource/swapChainResource.cpp:83-96 | the view creations for one more image are the previous ones followed by view i on image i with the chain format, one level and one layer |
| CoreSwapchain.SwapchainResource.CreateSwapChain | SourceCode/TBEngine/core/graphics/vulkanAbstract/swapChainResource/swapChainResource.cpp:33-74 | a queue-family scan that never completes raises before anything is created; otherwise one chain with the chosen format, colour space, extent, image count, sharing and present mode, and `format` becomes the chosen surface format |
| CoreSwapchain.SwapchainResource.CreateImages | SourceCode/TBEngine/core/graphics/vulkanAbstract/swapChainResource/swapChainResource.cpp:76-78 | images are the chain's images as the driver reports them |
| CoreSwapchain.SwapchainResource.CreateViews | SourceCode/TBEngine/core/graphics/vulkanAbstract/swapChainResource/swapChainResource.cpp:80-93 | as many views as images, view i created on image i with the chain format, one level and one layer |
| CoreSwapchain.SwapchainResource.Init | SourceCode/TBEngine/core/graphics/vulkanAbstract/swapChainResource/swapChainResource.cpp:26-31 | init runs chain, then images, then views; a failed scan leaves everything unchanged |
| CoreSwapchain.SwapchainResource.Destroy | SourceCode/TBEngine/core/graphics/vulkanAbstract/swapChainResource/swapChainResource.cpp:15-24 | only the first destroy in the process destroys every view and then the chain; every later call, even after recreation, does nothing |
| LegacySwapchain.SwapchainResource.CreateSwapChain | SourceCode/TBEngine/graphics/vulkanAbstract/swapChainResource/swapChainResource.cpp:32-77 | the same choices and create-info; the images are fetched in the same function and `format` becomes the chosen surface format |
| LegacySwapchain.SwapchainResource.CreateImages | SourceCode/TBEngine/graphics/vulkanAbstract/swapChainResource/swapChainResource.cpp:79-81 | images are re-fetched from the chain |
| LegacySwapchain.SwapchainResource.CreateViews | SourceCode/TBEngine/graphics/vulkanAbstract/swapChainResource/swapChainResource.cpp:83-96 | views.size() == images.size(), view i on image i with the chain format, one level and one layer |
| LegacySwapchain.SwapchainResource.InitAll | SourceCode/TBEngine/graphics/vulkanAbstract/swapChainResource/swapChainResource.cpp:21-30 | sets the device, then chain, images and views, in that order |
| LegacySwapchain.SwapchainResource.Destroy | SourceCode/TBEngine/graphics/vulkanAbstract/swapChainResource/swapChainResource.cpp:9-19 | no-op without a device; otherwise every view, then the chain, then the device pointer is cleared, so a second destroy does nothing |
| GraphicsDetail.ScanFrom | SourceCode/TBEngine/core/graphics/detail/graphicsDetail.hpp:40-54 | the scan from family i on raises "Cannot find suitable queue families!" when it fails |
| GraphicsDetail.ScanQueueFamilies | SourceCode/TBEngine/core/graphics/detail/graphicsDetail.hpp:40-54 | the constructor's result; its only error is the queue-family message |
| GraphicsDetail.FindQueueFamilies | SourceCode/TBEngine/core/graphics/detail/graphicsDetail.hpp:40-54 | the scan succeeds exactly when some family draws and some presents; it stops at the first index k where both are known, each field being the last qualifying index up to k; otherwise it raises |
| GraphicsDetail.CompleteWithinMonotone | SourceCode/TBEngine/core/graphics/detail/graphicsDetail.hpp:48-50 | once the first k+1 families hold a graphics and a present family, so do any longer prefixes |
| GraphicsDetail.ConversionRules | SourceCode/TBEngine/graphics/detail/graphicsDetail.hpp:56-69 | complete indices convert to the set {graphics, present}, which has one element exactly when the two are equal, and to the array [graphics, present]; incomplete ones to the empty set and to [0, 0] |
| GraphicsDetail.CheckValidationLayerSupport | SourceCode/TBEngine/graphics/detail/graphicsDetail.hpp:86-102 | true exactly when every requested layer name equals some available layer's name; it returns false at the first missing one |
| GraphicsDetail.WrappingDecrement | SourceCode/TBEngine/graphics/detail/graphicsDetail.hpp:135 | `reqSize--` on a size_t: the result stays below 2^64 and adding one gives back the input modulo 2^64 |
| GraphicsDetail.MatchCount | SourceCode/TBEngine/graphics/detail/graphicsDetail.hpp:134-136 | the number of available extensions whose name is required, at most the list's length |
| GraphicsDetail.CheckDeviceExtensionSupport | SourceCode/TBEngine/graphics/detail/graphicsDetail.hpp:126-139 | the counter starts at the number of distinct required names and drops, with size_t wrap-around, once per available extension with a required name; the check holds exactly when it ends at 0 |
| GraphicsDetail.ExtensionCheckMeansAllAvailable | SourceCode/TBEngine/core/graphics/detail/graphicsDetail.hpp:125-138 | with no extension advertised twice, the counter ends at 0 exactly when every required name is available |
| GraphicsDetail.DistinctMatchCount | SourceCode/TBEngine/core/graphics/detail/graphicsDetail.hpp:133-135 | on a duplicate-free list, the number of matching entries is the number of required names present |
| GraphicsDetail.DuplicateExtensionFailsCheck | SourceCode/TBEngine/graphics/detail/graphicsDetail.hpp:126-139 | one required name advertised twice drives the counter past zero, so the check fails although the name is present |
| GraphicsDetail.PreferredFormatIndexSpec | SourceCode/TBEngine/core/graphics/detail/graphicsDetail.hpp:140-149 | the index found is of a B8G8R8A8Srgb / SrgbNonlinear entry with none before it; there is none only when no entry is preferred |
| GraphicsDetail.ChooseSwapSurfaceFormat | SourceCode/TBEngine/core/graphics/detail/graphicsDetail.hpp:140-149 | the format chosen is one the surface offers, and it is B8G8R8A8Srgb with SrgbNonlinear unless it is the first entry |
| GraphicsDetail.SurfaceFormatChoice | SourceCode/TBEngine/core/graphics/detail/graphicsDetail.hpp:140-149 | the chosen format is an entry of the list; it is preferred exactly when some entry is, it is the first preferred entry, and element 0 when none is |
| GraphicsDetail.ChooseSwapPresentMode | SourceCode/TBEngine/core/graphics/detail/graphicsDetail.hpp:151-158 | the mode is Mailbox or Fifo, and Mailbox only when the surface offers it |
| GraphicsDetail.PresentModeChoice | SourceCode/TBEngine/core/graphics/detail/graphicsDetail.hpp:151-158 | Mailbox exactly when Mailbox is offered, and Fifo otherwise |
| GraphicsDetail.ChosenPresentModeIsOffered | SourceCode/TBEngine/graphics/detail/graphicsDetail.hpp:152-159 | when the surface offers Fifo, as every surface must, the chosen mode is one it offers |
| GraphicsDetail.ChooseSwapExtent | SourceCode/TBEngine/core/graphics/detail/graphicsDetail.hpp:160-177 | a current extent whose width is not UINT32_MAX is used unchanged, whatever the window size; otherwise each axis is the window size clamped into [minImageExtent, maxImageExtent] |
| GraphicsDetail.SuitableTypeFromSpec | SourceCode/TBEngine/core/graphics/detail/graphicsDetail.hpp:217-229 | the search from index i returns the least usable type at or after i, or raises "failed to find suitable memory type!" when none is usable |
| GraphicsDetail.SuitableTypeSpec | SourceCode/TBEngine/graphics/detail/graphicsDetail.hpp:218-230 | the least i below memoryTypeCount with bit i of the filter set and the requested properties all present; it raises exactly when no such i exists |
| GraphicsDetail.FindMemoryType | SourceCode/TBEngine/core/graphics/detail/graphicsDetail.hpp:217-229 | the loop returns the least usable memory type, the same answer as the search above, and raises when it runs out |
| GraphicsDetail.FirstSampleCountFrom | SourceCode/TBEngine/core/graphics/detail/graphicsDetail.hpp:236-241 | the first candidate from position k on, in the order 64 ... 2, that the mask holds; none when it holds none of them |
| GraphicsDetail.GetMaxUsableSampleCount | SourceCode/TBEngine/core/graphics/detail/graphicsDetail.hpp:231-243 | the highest of 64 ... 2 present in both colour and depth counts, else 1 |
| GraphicsDetail.FindSupportedFormat | SourceCode/TBEngine/core/graphics/detail/graphicsDetail.hpp:245-262 | its only error is "failed to find supported format!" |
| GraphicsDetail.FindSupportedFormatSpec | SourceCode/TBEngine/core/graphics/detail/graphicsDetail.hpp:245-262 | the result is the first candidate whose linear or optimal features include the requested ones; it raises exactly when no candidate qualifies |
| GraphicsDetail.FindDepthFormat | SourceCode/TBEngine/core/graphics/graphics.cpp:586-592 | findDepthFormat's only error is the unsupported-format message |
| GraphicsDetail.DepthFormatPreference | SourceCode/TBEngine/graphics/graphics.cpp:691-697 | the depth formats are tried as D32Sfloat, then D32SfloatS8Uint, then D24UnormS8Uint, for optimal tiling with the depth/stencil-attachment feature |
| GraphicsDetail.DepthFormatStencil | SourceCode/TBEngine/core/graphics/detail/graphicsDetail.hpp:213-215 | the depth format chosen has a stencil aspect exactly when the stencil-free 32-bit float format is not usable as an optimally tiled depth attachment |
| MipChains.MipLevels | SourceCode/TBEngine/graphics/texture/texture.cpp:33 | at least one level; for a non-empty image, 2^(levels - 1) <= max(width, height) < 2^levels, that is floor(log2(max(width, height))) + 1 levels |
| MipChains.BitLengthIsLog2 | SourceCode/TBEngine/graphics/texture/texture.cpp:33 | the level count's bit length is floor(log2(x)) + 1: n is it exactly when 2^(n-1) <= x < 2^n |
| MipChains.HalvingsClosedForm | SourceCode/TBEngine/graphics/texture/texture.cpp:196-197 | a positive edge tracked through i halvings is x / 2^i, never below 1 |
| MipChains.ChainEndsAtOneTexel | SourceCode/TBEngine/graphics/texture/texture.cpp:33 | the last level of the chain is 1x1 and every earlier level is larger than one texel in some dimension, so the chain is as long as Vulkan allows and no longer |
| MipChains.BlitsFollowLevels | SourceCode/TBEngine/graphics/texture/texture.cpp:164-167 | each blit's destination size is exactly the size the next level is tracked at, and stays positive |
| MipChains.RecordMipChain | SourceCode/TBEngine/graphics/texture/texture.cpp:137-211 | the recorder appends, for each level from 1, a barrier to TransferSrc, the blit from the level before at its size, and a barrier to ShaderReadOnly, then the last level's barrier |
| MipChains.StepSettlesLevel | SourceCode/TBEngine/graphics/texture/texture.cpp:149-198 | one iteration is valid on the layouts the earlier ones leave and makes one more level shader-readable |
| MipChains.LoopSettles | SourceCode/TBEngine/graphics/texture/texture.cpp:149-198 | after n iterations the first n levels are shader-readable and the rest still transfer destinations, with no command finding a level in another layout |
| MipChains.MipChainSettlesAll | SourceCode/TBEngine/core/graphics/interface/textureInterface/textureInterface.cpp:122-198 | from every level a transfer destination, every barrier and blit finds its level in the layout it names, and every level ends shader-readable |
| MipChains.StepReadOnlyOnce | SourceCode/TBEngine/graphics/texture/texture.cpp:185-195 | iteration i makes level i - 1, and no other, shader-readable |
| MipChains.LoopReadOnlyOnce | SourceCode/TBEngine/graphics/texture/texture.cpp:149-198 | after n iterations each level below n has had exactly one barrier to ShaderReadOnly and no other level has had one |
| MipChains.EachLevelReadOnlyOnce | SourceCode/TBEngine/graphics/texture/texture.cpp:149-210 | every level of the chain is made shader-readable by exactly one barrier, and no barrier names a level beyond the chain |
| MipChains.MipLoopLength | SourceCode/TBEngine/graphics/texture/texture.cpp:149-198 | each iteration records three commands |
| MipChains.LoopBlits | SourceCode/TBEngine/graphics/texture/texture.cpp:163-183 | the blit of iteration i reads level i - 1 at its tracked size and writes level i at its tracked size, with TransferSrc and TransferDst layouts |
| TextureRules.TransitionMasks | SourceCode/TBEngine/graphics/texture/texture.cpp:98-114 | an accepted transition changes the layout and makes some access wait; a refused one raises "unsupported layout transition!" |
| TextureRules.TransitionTable | SourceCode/TBEngine/graphics/texture/texture.cpp:98-114 | exactly the transitions Undefined to TransferDst and TransferDst to ShaderReadOnly are accepted, any other raises "unsupported layout transition!", and the second waits on the access the first makes available |
| TextureRules.TransitionImageLayout | SourceCode/TBEngine/graphics/texture/texture.cpp:75-127 | an unsupported pair raises with no command buffer made; a supported one records its barrier over every level in one one-shot command buffer |
| TextureRules.GenerateMipmaps | SourceCode/TBEngine/graphics/texture/texture.cpp:129-212 | a format without linear filtering in optimal tiling raises before any command buffer; otherwise the whole chain is recorded in one one-shot command buffer |
| TextureRules.PrepareImage | SourceCode/TBEngine/graphics/texture/texture.cpp:39-51 | the image is created, moved from Undefined to TransferDst over all levels, and the staging buffer is copied into it, each in its own one-shot command buffer |
| TextureRules.NewSampler | SourceCode/TBEngine/graphics/texture/texture.cpp:56-71 | one sampler is created, its maxLod the level count |
| TextureRules.Upload | SourceCode/TBEngine/graphics/texture/texture.cpp:29-72 | the upload's calls, result and handles for every staging and linear-filter answer; the image exists exactly when the staging buffer did, the sampler exactly when nothing raised |
| TextureRules.UploadStaged | SourceCode/TBEngine/graphics/texture/texture.cpp:39-72 | once the staging buffer exists, the rest of the upload yields the calls of the whole upload |
| TextureRules.UploadFrom | SourceCode/TBEngine/graphics/texture/texture.cpp:39-72 | the image preparation followed by the mip chain, sampler and release; the sampler exists exactly when linear blitting is supported |
| TextureRules.FinishUpload | SourceCode/TBEngine/graphics/texture/texture.cpp:53-72 | the mip chain, then the sampler, and the staging buffer released last whether generateMipmaps raised or not |
| TextureRules.UploadTraceStaged | SourceCode/TBEngine/graphics/texture/texture.cpp:29-72 | an upload with a staging buffer is its filling, the image's preparation and the rest, in that order |
| TextureRules.ReplayDisposable | SourceCode/TBEngine/graphics/graphics.cpp:699-727 | a one-shot command buffer changes an image's layouts exactly as its recording does |
| TextureRules.PrepareLeavesTransferDst | SourceCode/TBEngine/graphics/texture/texture.cpp:39-51 | after creation, the transition and the copy into level 0, every level is a transfer destination and the copy found its level in that layout |
| TextureRules.FinishLeavesReadOnly | SourceCode/TBEngine/graphics/texture/texture.cpp:53-72 | the mip chain leaves every level shader-readable, and the sampler and the release keep it so |
| TextureRules.UploadLeavesLevelsReadable | SourceCode/TBEngine/graphics/texture/texture.cpp:29-72 | over a whole successful upload every level goes Undefined, TransferDst, ShaderReadOnly, and no barrier, copy or blit finds a level in a layout other than the one it names |
| TextureRules.UploadOrder | SourceCode/TBEngine/graphics/texture/texture.cpp:32-72 | the staging buffer holds width x height x 4 bytes and comes first; the sampler with maxLod the level count comes after the whole chain; the staging buffer is released last |
| TextureRules.NoLinearBlitLeavesImage | SourceCode/TBEngine/graphics/texture/texture.cpp:131-135 | when linear blitting is unsupported the staging buffer is still released, but no sampler is made and the image is never destroyed |
| TextureRules.ForeignDisposable | SourceCode/TBEngine/graphics/graphics.cpp:699-727 | a one-shot command buffer holding a barrier or a copy creates no sampler and destroys nothing |
| LegacyTextures.Texture.Destroy | SourceCode/TBEngine/graphics/texture/texture.cpp:12-21 | the sampler is released only if it was made and the image only if its chain was built; both flags end cleared |
| LegacyTextures.Texture.Init | SourceCode/TBEngine/graphics/texture/texture.cpp:23-73 | the level count is set first; the upload's calls and result; imageRInited and samplerInited are set only when the upload succeeds, and left as they were when it raises |
| LegacyTextures.DestroyTwice | SourceCode/TBEngine/graphics/texture/texture.cpp:12-21 | a texture destroyed twice releases its sampler and image once |
| CoreTextures.TextureInterface.Destroy | SourceCode/TBEngine/core/graphics/interface/textureInterface/textureInterface.cpp:17-24 | the first destroy in the process releases the sampler then the image; every later one, on any texture, releases nothing |
| CoreTextures.TextureInterface.Read | SourceCode/TBEngine/core/graphics/interface/textureInterface/textureInterface.cpp:26-66 | the level count first; the caller's pixels are freed exactly when the staging buffer was made; the format is R8G8B8A8Srgb; the upload's calls and result; the sampler is stored only when nothing raised |
| CoreTextures.DestroyTwo | SourceCode/TBEngine/core/graphics/interface/textureInterface/textureInterface.cpp:17-24 | of two textures destroyed in turn, only the first is released |
| CoreModels.UploadInto | SourceCode/TBEngine/core/graphics/interface/modelInterface/modelInterface.cpp:17-19 | one device-local buffer upload: its calls, result and handles in terms of the GPU's answers |
| CoreModels.UploadPair | SourceCode/TBEngine/core/graphics/interface/modelInterface/modelInterface.cpp:17-23 | the vertex upload, then, only if it did not raise, the index upload, each into its own buffer |
| CoreModels.ModelInterface.Read | SourceCode/TBEngine/core/graphics/interface/modelInterface/modelInterface.cpp:11-24 | one entry is appended to each of the three lists before any upload, so a raise leaves them behind; earlier entries are unchanged; the new buffers are the uploaded ones; when the buffer lists reallocate, the old elements' destructors run first, releasing the first old buffer if no buffer was destroyed before in the process |
| CoreModels.ModelInterface.EmplaceBuffers | SourceCode/TBEngine/core/graphics/interface/modelInterface/modelInterface.cpp:15-16 | a fresh vertex buffer, then a fresh index buffer, are appended; on reallocation each list's old elements are destroyed, and of all of them only the first releases anything, and only while the process-wide flag is clear |
| CoreModels.RunDestructors | SourceCode/TBEngine/core/graphics/vulkanAbstract/bufferResource/bufferResource.cpp:10-21 | destroying a list of buffers in order releases the first one only, and only if no buffer was destroyed before; the flag ends set exactly when it was set or the list is non-empty |
| CoreModels.GrowingReadReleasesLiveBuffer | SourceCode/TBEngine/core/graphics/interface/modelInterface/modelInterface.cpp:11-24 | a second read whose lists reallocate releases model 0's live vertex buffer and memory before its own uploads, and keeps that destroyed buffer as entry 0 |
| CoreModels.ModelInterface.GetVertBuffer | SourceCode/TBEngine/core/graphics/interface/modelInterface/modelInterface.cpp:26-28 | the vertex buffer of the idx-th read |
| CoreModels.ModelInterface.GetIdxBuffer | SourceCode/TBEngine/core/graphics/interface/modelInterface/modelInterface.cpp:30-32 | the index buffer of the idx-th read |
| CoreModels.ModelInterface.GetIdxSize | SourceCode/TBEngine/core/graphics/interface/modelInterface/modelInterface.cpp:42-44 | the index count given to the idx-th read |
| CoreModels.ModelInterface.GetTextureSampler | SourceCode/TBEngine/core/graphics/interface/modelInterface/modelInterface.cpp:34-36 | the renderer's one texture sampler, whatever the index |
| CoreModels.ModelInterface.GetTextureImage | SourceCode/TBEngine/core/graphics/interface/modelInterface/modelInterface.cpp:38-40 | the renderer's one texture image, whatever the index |
| CoreModels.ModelInterface.Destroy | SourceCode/TBEngine/core/graphics/interface/modelInterface/modelInterface.cpp:6-9 | both buffer lists end empty and the index counts are kept; the buffers' destructors release the first buffer only, and only if no buffer was destroyed before in the process |
| CoreGraphics.BuildOutcome | SourceCode/TBEngine/core/graphics/graphics.cpp:521-525 | the rebuild succeeds exactly when the queue-family scan and the depth-format query both succeed; otherwise it raises the first of their two messages |
| CoreGraphics.TeardownIsRebuildCalls | SourceCode/TBEngine/core/graphics/graphics.cpp:497-506 | cleanupSwapChain only destroys the color and depth targets, framebuffers, views and the chain |
| CoreGraphics.ChainBuildIsRebuildCalls | SourceCode/TBEngine/core/graphics/graphics.cpp:306-308 | createSwapChain only creates the chain and its views |
| CoreGraphics.AttachmentsAreRebuildCalls | SourceCode/TBEngine/core/graphics/graphics.cpp:416-453 | the targets and framebuffers are the only objects the attachment steps create |
| CoreGraphics.ChainCallsAreRebuildCalls | SourceCode/TBEngine/core/graphics/graphics.cpp:306-308 | createSwapChain stays among the chain's objects whether the queue-family scan raises or not |
| CoreGraphics.AttachCallsAreRebuildCalls | SourceCode/TBEngine/core/graphics/graphics.cpp:443-453 | the attachment steps stay among the chain's objects whether a depth format is found or not |
| CoreGraphics.TargetCallsAreRebuildCalls | SourceCode/TBEngine/core/graphics/graphics.cpp:521-525 | the steps after createSwapChain stay among the chain's objects |
| CoreGraphics.RecreationTouchesOnlyChainObjects | SourceCode/TBEngine/core/graphics/graphics.cpp:508-526 | recreating the swapchain only waits for the device and destroys and creates the chain's own objects, however it ends: no render pass, pipeline, descriptor, fence, semaphore or command buffer is touched and nothing is submitted or presented |
| CoreGraphics.RecordCallsLayout | SourceCode/TBEngine/core/graphics/graphics.cpp:546-584 | the recording begins the buffer and a render pass on the image's framebuffer over the whole extent, sets the scissor, runs every registered function in order, then ends the pass and the buffer |
| CoreGraphics.TickFunctionsRunInBindOrder | SourceCode/TBEngine/core/graphics/graphics.cpp:172-174 | a function bound last runs last, after every earlier-bound one and before the end of the pass, and binding it leaves the earlier part of the recording unchanged |
| CoreGraphics.VulkanGraphics.BindTickCmdFunc | SourceCode/TBEngine/core/graphics/graphics.cpp:172-174 | registered functions are kept in registration order |
| CoreGraphics.VulkanGraphics.CreateCommandBuffers | SourceCode/TBEngine/core/graphics/graphics.cpp:470-479 | one command buffer per frame in flight |
| CoreGraphics.SyncCreates | SourceCode/TBEngine/core/graphics/graphics.cpp:490-494 | three objects per slot |
| CoreGraphics.VulkanGraphics.CreateSyncObjects | SourceCode/TBEngine/core/graphics/graphics.cpp:481-495 | each slot gets an image-available semaphore, a render-finished semaphore and a fence, in that order, and nothing else is created |
| CoreGraphics.VulkanGraphics.InitFrameObjects | SourceCode/TBEngine/core/graphics/graphics.cpp:69-70 | the command buffers, then the synchronisation objects; afterwards every frame slot has its command buffer, semaphores and fence, and the current slot is one of them |
| CoreGraphics.SyncFencesStartSignalled | SourceCode/TBEngine/core/graphics/graphics.cpp:488 | every fence createSyncObjects makes is created signalled, so the first wait on each slot returns at once |
| CoreGraphics.VulkanGraphics.CreateExtent | SourceCode/TBEngine/core/graphics/graphics.cpp:271-275 | the extent is the swap extent chosen for the surface and the current window size |
| CoreGraphics.VulkanGraphics.CreateColorResources | SourceCode/TBEngine/core/graphics/graphics.cpp:443-447 | one color target in the chain's format at the current extent |
| CoreGraphics.VulkanGraphics.CreateDepthResources | SourceCode/TBEngine/core/graphics/graphics.cpp:449-453 | the depth target in the first supported depth format; with none supported it raises and creates nothing |
| CoreGraphics.VulkanGraphics.CreateFramebuffers | SourceCode/TBEngine/core/graphics/graphics.cpp:416-431 | exactly one framebuffer per swapchain view, each on the color target, the depth target and that view, at the extent with one layer |
| CoreGraphics.VulkanGraphics.CleanupSwapChain | SourceCode/TBEngine/core/graphics/graphics.cpp:497-506 | color, depth, every framebuffer, then the chain's views and chain unless the process-wide flag says they were destroyed before |
| CoreGraphics.VulkanGraphics.RecordCommandBuffer | SourceCode/TBEngine/core/graphics/graphics.cpp:546-584 | the recording for swapchain image imageIndex, on its framebuffer, with every registered function |
| CoreGraphics.VulkanGraphics.RebuildChain | SourceCode/TBEngine/core/graphics/graphics.cpp:521-522 | createSwapChain then createExtent: the scan error raises before anything is created; otherwise the chain, its images, its views and the new extent are the ones created |
| CoreGraphics.VulkanGraphics.RebuildAttachments | SourceCode/TBEngine/core/graphics/graphics.cpp:523-525 | color target, depth target, framebuffers; a missing depth format raises after the color target exists |
| CoreGraphics.VulkanGraphics.TearDownChain | SourceCode/TBEngine/core/graphics/graphics.cpp:515-519 | the device wait is retried while it times out, then cleanupSwapChain |
| CoreGraphics.VulkanGraphics.BuildChain | SourceCode/TBEngine/core/graphics/graphics.cpp:521-525 | the five create steps in order; when they succeed the chain's objects are exactly the ones created, at the chosen extent |
| CoreGraphics.VulkanGraphics.RecreateSwapChain | SourceCode/TBEngine/core/graphics/graphics.cpp:508-526 | the window wait, the device waits, the teardown of the old objects and the rebuild, in that order; the first non-zero window size is the one the new extent is chosen from |
| CoreGraphics.VulkanGraphics.BeginFrame | SourceCode/TBEngine/core/graphics/graphics.cpp:79-85 | the slot's fence is waited on until an answer is not a timeout, then the next image is acquired on the slot's semaphore |
| CoreGraphics.VulkanGraphics.RenderFrame | SourceCode/TBEngine/core/graphics/graphics.cpp:93-122 | the slot's fence and command buffer are reset, the buffer is recorded, submitted waiting on image-available and signalling render-finished and the fence, and presented waiting on render-finished |
| CoreGraphics.VulkanGraphics.AfterPresent | SourceCode/TBEngine/core/graphics/graphics.cpp:124-133 | an out-of-date or suboptimal present, or a resize, clears the resize flag and recreates the chain; another failure raises; otherwise the frame advances to the next slot |
| CoreGraphics.VulkanGraphics.PresentFrame | SourceCode/TBEngine/core/graphics/graphics.cpp:93-133 | render and present, then the present's outcome as in AfterPresent |
| CoreGraphics.VulkanGraphics.AfterAcquire | SourceCode/TBEngine/core/graphics/graphics.cpp:84-133 | an out-of-date acquire recreates the chain and ends the tick with nothing reset, submitted or presented and the slot unchanged; any other failure raises; success or suboptimal goes on to render and present |
| CoreGraphics.VulkanGraphics.Tick | SourceCode/TBEngine/core/graphics/graphics.cpp:73-134 | one frame for every combination of fence, acquire and present answers: the calls issued, the outcome, the slot advanced only after a rendered frame, and per-slot objects still in place |
| LegacyGraphics.ScanFromComplete | SourceCode/TBEngine/graphics/detail/graphicsDetail.hpp:38-52 | a queue-family scan that does not raise has found both a graphics and a presenting family |
| LegacyGraphics.SuitabilityAsWrittenSpec | SourceCode/TBEngine/graphics/graphics.cpp:619-635 | isDeviceSuitable raises exactly on a device whose queue families are incomplete, with the queue-family message; otherwise it answers whether the device is suitable |
| LegacyGraphics.IsDeviceSuitable | SourceCode/TBEngine/graphics/graphics.cpp:619-635 | the queue-family scan, the extension check, the swapchain support (asked only when the extensions are there) and the anisotropy feature give the verdict of SuitabilityAsWritten |
| LegacyGraphics.WalkFrom | SourceCode/TBEngine/graphics/graphics.cpp:278-284 | the walk as written picks only a device isDeviceSuitable accepts, and its only raise is the queue-family message |
| LegacyGraphics.FirstSuitableFromSpec | SourceCode/TBEngine/graphics/graphics.cpp:278-284 | the intended walk finds the least suitable index, and finds nothing only when no device is suitable |
| LegacyGraphics.WalkAgreesWhenFamiliesComplete | SourceCode/TBEngine/graphics/graphics.cpp:273-287 | when every device has complete queue families the walk as written and the intended one pick the same device |
| LegacyGraphics.HeadlessFirstDeviceAbortsPick | SourceCode/TBEngine/graphics/graphics.cpp:273-287 | a first device with no presenting family makes the pick raise although the second device is suitable |
| LegacyGraphics.VulkanGraphics.PickPhysicalDevice | SourceCode/TBEngine/graphics/graphics.cpp:273-287 | no device raises "Failed to find GPUs with Vulkan support."; the first accepted device is stored with its largest usable sample count; a raising check ends the pick; with none accepted it raises unless a device was picked before |
| LegacyGraphics.VulkanGraphics.PickPhysicalDeviceChecked | SourceCode/TBEngine/graphics/graphics.cpp:273-287 | as intended: the first suitable device is taken, devices without complete queue families are passed over |
| LegacyGraphics.RecordDrawsOnce | SourceCode/TBEngine/graphics/graphics.cpp:637-689 | the recording binds the current slot's descriptor set and draws exactly once with the model's index count, inside the render pass and after the buffers and the set are bound |
| LegacyGraphics.FrameWorkOrder | SourceCode/TBEngine/graphics/graphics.cpp:131-177 | the slot's uniform buffer is written first, before the fence reset; the one submit carries the bound buffers in binding order then the slot's own buffer, and waits on image-available |
| LegacyGraphics.BeforeDeviceNoMessenger | SourceCode/TBEngine/graphics/graphics.cpp:202-212 | nothing cleanup destroys before the device is a debug messenger |
| LegacyGraphics.SyncDestroysEverySlot | SourceCode/TBEngine/graphics/graphics.cpp:206-210 | every slot's image-available semaphore, render-finished semaphore and fence are destroyed, in that order, slot after slot |
| LegacyGraphics.SyncDestroysLength | SourceCode/TBEngine/graphics/graphics.cpp:206-210 | three destroys per slot |
| LegacyGraphics.SyncDestroysKinds | SourceCode/TBEngine/graphics/graphics.cpp:206-210 | the slot loop destroys only semaphores and fences |
| LegacyGraphics.DeviceReleasesEnd | SourceCode/TBEngine/graphics/graphics.cpp:202-217 | the device is destroyed after everything made from it; the debug messenger only in a debug build and after the device; the surface, then the instance, last |
| LegacyGraphics.FinalTail | SourceCode/TBEngine/graphics/graphics.cpp:214-217 | whatever comes before, the device, the messenger in a debug build only, the surface and the instance close the sequence |
| LegacyGraphics.InitUniform | SourceCode/TBEngine/graphics/graphics.cpp:510-514 | one uniform buffer's init with the uniform buffer object's size: a missing memory type raises, otherwise a mapped buffer is made |
| LegacyGraphics.InitStep | SourceCode/TBEngine/graphics/graphics.cpp:510-514 | one step of the walk over the uniform buffers: it extends the walk, or raises with the calls of the whole walk |
| LegacyGraphics.Snapshot | SourceCode/TBEngine/graphics/graphics.cpp:193-195 | one entry per uniform buffer |
| LegacyGraphics.SnapshotAt | SourceCode/TBEngine/graphics/graphics.cpp:193-195 | the i-th entry is what the i-th buffer's destroy reads |
| LegacyGraphics.ReleasesSnoc | SourceCode/TBEngine/graphics/graphics.cpp:193-195 | destroying one more buffer appends its release |
| LegacyGraphics.DestroyEach | SourceCode/TBEngine/graphics/graphics.cpp:193-195 | each buffer is destroyed in list order, and afterwards none holds a device |
| LegacyGraphics.ReleasesCoverLive | SourceCode/TBEngine/graphics/graphics.cpp:193-195 | every buffer that holds a device has its buffer and its memory released |
| LegacyGraphics.ReleasesOnlyLive | SourceCode/TBEngine/graphics/graphics.cpp:193-195 | nothing but the buffer or memory of a buffer that holds a device is released |
| LegacyGraphics.VulkanGraphics.BindAddCmdBuffer | SourceCode/TBEngine/graphics/graphics.cpp:222-224 | bound buffers are kept in binding order |
| LegacyGraphics.VulkanGraphics.CreateCommandBuffers | SourceCode/TBEngine/graphics/graphics.cpp:531-540 | one command buffer per frame in flight |
| LegacyGraphics.VulkanGraphics.CreateSyncObjects | SourceCode/TBEngine/graphics/graphics.cpp:542-556 | each slot gets an image-available semaphore, a render-finished semaphore and a signalled fence, in that order |
| LegacyGraphics.VulkanGraphics.CreateUniformBuffers | SourceCode/TBEngine/graphics/graphics.cpp:506-515 | the list is brought to one buffer per frame in flight, keeping the existing entries; each is initialised with the uniform buffer object's size, in order, until one raises |
| LegacyGraphics.VulkanGraphics.CreateDescriptor | SourceCode/TBEngine/graphics/graphics.cpp:517-529 | a pool for one uniform buffer and one sampler per frame in flight, one set per uniform buffer on the shader's layout, each bound to the texture and to its buffer with the range as written (the never-set size, 0 bytes) |
| LegacyGraphics.VulkanGraphics.InitFrameResources | SourceCode/TBEngine/graphics/graphics.cpp:64-68 | the uniform buffers, whose raise stops the rest with no set, command buffer or fence made; otherwise the descriptor sets, command buffers and synchronisation objects follow, and every frame slot has its uniform buffer of the uniform buffer object's size, its set, command buffer, semaphores and fence |
| LegacyGraphics.VulkanGraphics.RecordCommandBuffer | SourceCode/TBEngine/graphics/graphics.cpp:637-689 | the recording for swapchain image imageIndex on the current slot's descriptor set, drawing the model's indices |
| LegacyGraphics.VulkanGraphics.CleanupSwapChain | SourceCode/TBEngine/graphics/graphics.cpp:558-567 | color, depth, every framebuffer, then the chain's views and chain unless it has already lost its device |
| LegacyGraphics.VulkanGraphics.ApplyRebuild | SourceCode/TBEngine/graphics/graphics.cpp:580-586 | the create steps leave the chain, views, extent, attachments and framebuffers they describe, and the chain holds a device again |
| LegacyGraphics.VulkanGraphics.RecreateSwapChain | SourceCode/TBEngine/graphics/graphics.cpp:569-587 | the window wait, the device waits, the teardown of the old objects and the rebuild for the first non-zero window size, in that order |
| LegacyGraphics.VulkanGraphics.BeginFrame | SourceCode/TBEngine/graphics/graphics.cpp:113-123 | the slot's fence is waited on until an answer is not a timeout, then the next image is acquired on the slot's semaphore |
| LegacyGraphics.VulkanGraphics.UpdateUniformBuffer | SourceCode/TBEngine/graphics/graphics.cpp:589-607 | the slot's mapped uniform buffer holds the new uniform buffer object |
| LegacyGraphics.VulkanGraphics.RenderFrame | SourceCode/TBEngine/graphics/graphics.cpp:131-177 | the uniform update, the resets, the recording, one submit of the bound buffers and the slot's own, and the present |
| LegacyGraphics.VulkanGraphics.AfterPresent | SourceCode/TBEngine/graphics/graphics.cpp:170-181 | an out-of-date or suboptimal present, or a resize, clears the flag and recreates the chain; another failure raises; otherwise the frame advances to the next slot |
| LegacyGraphics.VulkanGraphics.PresentFrame | SourceCode/TBEngine/graphics/graphics.cpp:131-181 | render and present, then the present's outcome as in AfterPresent |
| LegacyGraphics.VulkanGraphics.AfterAcquire | SourceCode/TBEngine/graphics/graphics.cpp:118-181 | an out-of-date acquire recreates the chain and ends the tick with the uniform buffer untouched; any other failure raises; success or suboptimal goes on to render and present |
| LegacyGraphics.VulkanGraphics.Tick | SourceCode/TBEngine/graphics/graphics.cpp:107-182 | one frame for every combination of fence, acquire and present answers: the calls issued, the outcome, the slot's uniform buffer written only when the frame renders, the bound buffers never changed |
| LegacyGraphics.VulkanGraphics.ReleaseUniforms | SourceCode/TBEngine/graphics/graphics.cpp:193-195 | every uniform buffer's destroy in list order |
| LegacyGraphics.VulkanGraphics.ReleaseTextureAndUniforms | SourceCode/TBEngine/graphics/graphics.cpp:191-195 | texture.destroy, then every uniform buffer's destroy |
| LegacyGraphics.VulkanGraphics.ReleaseModelBuffers | SourceCode/TBEngine/graphics/graphics.cpp:199-200 | the index buffer's destroy, then the vertex buffer's |
| LegacyGraphics.VulkanGraphics.ReleaseResources | SourceCode/TBEngine/graphics/graphics.cpp:191-200 | the texture, the uniform buffers, then the index and vertex buffers, and none of them holds anything afterwards |
| LegacyGraphics.VulkanGraphics.ReleaseSyncObjects | SourceCode/TBEngine/graphics/graphics.cpp:206-210 | each slot's two semaphores and fence, slot after slot |
| LegacyGraphics.VulkanGraphics.ReleaseOwnObjects | SourceCode/TBEngine/graphics/graphics.cpp:202-212 | the pipeline and its layout, the render pass while it holds a device, each slot's sync objects, the command pool |
| LegacyGraphics.VulkanGraphics.ReleaseDevice | SourceCode/TBEngine/graphics/graphics.cpp:202-217 | the device's own objects, then the device, the messenger in a debug build, the surface and the instance |
| LegacyGraphics.VulkanGraphics.ReleaseAll | SourceCode/TBEngine/graphics/graphics.cpp:191-217 | the resources, then the device and what it came from |
| LegacyGraphics.VulkanGraphics.Cleanup | SourceCode/TBEngine/graphics/graphics.cpp:184-218 | the device wait retried while it times out, cleanupSwapChain, the resources in their order, then the device and what it came from; afterwards no resource object holds anything |
| Scenes.ModelsStep | SourceCode/TBEngine/scene/scene.cpp:65 | a model whose read succeeds hands the walk on to the next model, whose handles start where this model's end |
| Scenes.ModelsStop | SourceCode/TBEngine/scene/scene.cpp:65 | a model whose read raises ends the walk with its own calls and its own error |
| Scenes.WalkStart | SourceCode/TBEngine/scene/scene.cpp:65 | before the first model is read, the whole walk from the device's next handle lies ahead |
| Scenes.ModelsWalkStep | SourceCode/TBEngine/scene/scene.cpp:65 | reading the i-th model either moves the walk on or ends it with that model's error and the calls of the whole walk |
| Scenes.ReadOne | SourceCode/TBEngine/scene/scene.cpp:65 | the i-th model's read, one step of the walk |
| Scenes.ModelsDoneIffAllDone | SourceCode/TBEngine/scene/scene.cpp:65 | reading the models succeeds exactly when every model's read succeeds |
| Scenes.DoneReachesEvery | SourceCode/TBEngine/scene/scene.cpp:65 | a walk of the models that succeeds has read every model from its start on without a raise |
| Scenes.ModelsFailIsFirstFailure | SourceCode/TBEngine/scene/scene.cpp:65 | when reading the models raises, it returns the index of the first model whose read fails: the walk raises that model's error, and every earlier read succeeded |
| Scenes.UniformsDone | SourceCode/TBEngine/scene/scene.cpp:69-74 | the number of uniform inits before the first one without a host-visible memory type; all before it have one |
| Scenes.UniformsWalkStep | SourceCode/TBEngine/scene/scene.cpp:69-74 | each uniform init either moves the walk on, two handles later, or ends it with its error |
| Scenes.InitUniform | SourceCode/TBEngine/scene/scene.cpp:71-73 | one uniform buffer's init with the uniform buffer object's size: a missing memory type raises, otherwise a mapped buffer is made |
| Scenes.InitStep | SourceCode/TBEngine/scene/scene.cpp:69-74 | the i-th uniform init, one step of the walk |
| Scenes.SceneModel.Init | SourceCode/TBEngine/scene/model/model.cpp:7-20 | the model path is taken and checked first; an invalid model path raises before the texture path is taken; an invalid texture path raises after; with slowRead nothing is read |
| Scenes.SceneModel.Read | SourceCode/TBEngine/scene/model/model.cpp:29-40 | a model file that raises ends the read; otherwise the index count is taken, a texture file that fails to decode raises, and a decoded one is uploaded through the texture interface before the vertex and index buffers; the interface's level count, image and sampler are the new texture's |
| Scenes.SceneModel.Upload | SourceCode/TBEngine/scene/model/model.cpp:31-39 | the texture upload first, whose raise ends the read; then the vertex bytes and the index bytes into device-local buffers, from the handle where the texture's handles end |
| Scenes.ReadTexture | SourceCode/TBEngine/resource/texture/texture.cpp:25-29 | the decoded pixels go to the texture interface: the calls, result and handles are the texture upload's, the level count follows the image size, and the image and sampler are the new ones |
| Scenes.TextureRaises | SourceCode/TBEngine/scene/model/model.cpp:31-33 | a texture upload that raises makes the model's read raise with that error, with no buffer upload |
| Scenes.TextureThenBuffers | SourceCode/TBEngine/scene/model/model.cpp:31-39 | after a texture upload that returns, the buffer uploads complete the model's read, starting where the texture's handles end |
| Scenes.SceneModel.Destroy | SourceCode/TBEngine/scene/model/model.cpp:22-27 | the model's data is freed, then both buffers' destroys, which release only the first buffer destroyed in the process |
| Scenes.Scene.AddModel | SourceCode/TBEngine/scene/scene.cpp:77-82 | one model is appended, keeping the earlier ones, and initialised for a deferred read; a bad path raises after the append; when the list reallocates, the old models' destructors run first, and the first one's index buffer spends the process-wide flag |
| Scenes.Scene.RunModelDestructors | SourceCode/TBEngine/scene/scene.cpp:79 | the old models destroyed in order by a reallocation: only model 0's index buffer releases, and only while the flag is clear; the flag ends set exactly when it was set or there was a model |
| Scenes.SceneModel.Destruct | SourceCode/TBEngine/scene/model/model.cpp:22-27 | ~Model destroys the index buffer, then the vertex buffer; only the first buffer destroyed in the process releases, and the flag ends set |
| Scenes.SecondAddModelSpendsFlag | SourceCode/TBEngine/scene/scene.cpp:77-82 | a second addModel that reallocates spends the flag on the first model's empty index buffer, so a later Scene::destroy releases no model buffer at all |
| Scenes.Scene.Read | SourceCode/TBEngine/scene/scene.cpp:62-75 | warns exactly when no model was added; reads every model in order up to the first that raises; only then brings the uniform list to one buffer per frame in flight and initialises each, starting from the handle where the last model's handles end |
| Scenes.Scene.ReadModels | SourceCode/TBEngine/scene/scene.cpp:65 | the models' reads in order, up to the first that raises |
| Scenes.Scene.InitUniforms | SourceCode/TBEngine/scene/scene.cpp:67-74 | the list is brought to one buffer per frame in flight, keeping the existing entries, and each is initialised with the uniform buffer object's size until one raises |
| Scenes.Scene.TickCPU | SourceCode/TBEngine/scene/scene.cpp:19-23 | the current slot's uniform buffer receives the uniform buffer object and the slot advances; an update of the wrong size raises and the slot stays |
| Scenes.Scene.TickGPU | SourceCode/TBEngine/scene/scene.cpp:25-38 | model 0's vertex and index buffers, the current slot's descriptor set, and a draw of model 0's index count |
| Scenes.Scene.Destroy | SourceCode/TBEngine/scene/scene.cpp:9-17 | every model, then every uniform buffer, then the shader; each kind of buffer releases only under its own process-wide flag |
| Delegates.InvokeAll | SourceCode/TBEngine/utils/delegate/delegate.hpp:41-45 | every bound function is invoked exactly once, in an order the map chooses, and nothing else is invoked |
| Delegates.Delegate.RemoveBindFunc | SourceCode/TBEngine/utils/delegate/delegate.hpp:29 | exactly the given key is unbound; every other binding stays |
| Delegates.Delegate.BindFunction | SourceCode/TBEngine/utils/delegate/delegate.hpp:31-34 | the function is stored under the current key, which is returned, and the uint32 counter advances modulo 2^32; until it wraps the key was never handed out before, so no earlier binding is displaced |
| Delegates.Delegate.BindAny | SourceCode/TBEngine/utils/delegate/delegate.hpp:36-39 | a std::any holding another function type throws bad_any_cast and changes nothing; otherwise it binds like bindFunction |
| Delegates.Delegate.Broadcast | SourceCode/TBEngine/utils/delegate/delegate.hpp:41-45 | each bound function is invoked once, and only bound functions are invoked |
| Delegates.Delegate.ReleaseDelegate | SourceCode/TBEngine/utils/delegate/delegate.hpp:47-50 | no function stays bound and keys start again from 0 |
| Delegates.BindThenRemove | SourceCode/TBEngine/utils/delegate/delegate.hpp:29-34 | binding a fresh key and removing it again restores the bindings exactly |
| Delegates.AddToEachSpec | SourceCode/TBEngine/utils/delegate/delegate.hpp:76-78 | after binding to a list of enumerators, each enumerator's listeners are its old listeners followed by the function once per time it was listed; unlisted enumerators keep theirs |
| Delegates.AddToEachSnoc | SourceCode/TBEngine/utils/delegate/delegate.hpp:76-78 | binding to one more enumerator appends the function to that enumerator's list only |
| Delegates.EnumDelegate.RemoveBindFunc | SourceCode/TBEngine/utils/delegate/delegate.hpp:70 | only the generic binding under the key is removed; per-enumerator listeners cannot be removed |
| Delegates.EnumDelegate.BindFunction | SourceCode/TBEngine/utils/delegate/delegate.hpp:72-81 | with no enumerators the function becomes generic under the current key; otherwise it is appended to each listed enumerator and not stored by key; the key is consumed either way |
| Delegates.EnumDelegate.BindAny | SourceCode/TBEngine/utils/delegate/delegate.hpp:83-86 | a wrongly typed std::any throws bad_any_cast and changes nothing; otherwise it binds like bindFunction |
| Delegates.EnumDelegate.Broadcast | SourceCode/TBEngine/utils/delegate/delegate.hpp:88-95 | every generic function once, then the enumerator's listeners in binding order; an enumerator nobody bound to gains an empty list |
| Delegates.EnumDelegate.ReleaseDelegate | SourceCode/TBEngine/utils/delegate/delegate.hpp:97-100 | the generic functions and the key counter are cleared; per-enumerator listeners survive |
| DelegateManagement.KeyBitTableLow | SourceCode/TBEngine/editor/delegateManager/delegateManager.hpp:23-27 | eNull is 0, eEscape is 1, and eW, eA, eS are the next three bits |
| DelegateManagement.KeyBitTableMiddle | SourceCode/TBEngine/editor/delegateManager/delegateManager.hpp:28-31 | eD, eLeftCtrl, eSpace and eLeftShift are bits 4 to 7 |
| DelegateManagement.KeyBitTable | SourceCode/TBEngine/editor/delegateManager/delegateManager.hpp:21-37 | the whole shift chain: eNull is 0 and eEscape ... eR are the bits 0x1 ... 0x1000 |
| DelegateManagement.KeyBitIsSingleBit | SourceCode/TBEngine/editor/delegateManager/delegateManager.hpp:24-36 | every key but eNull is exactly one bit, the bit one below its position in the enumeration |
| DelegateManagement.KeyBitsDisjoint | SourceCode/TBEngine/editor/delegateManager/delegateManager.hpp:10-37 | distinct keys share no bit, so a KeyStateMap can hold any combination of pressed keys |
| DelegateManagement.DecayAll | SourceCode/TBEngine/editor/delegateManager/delegateManager.hpp:42 | the intended decay keeps the list's length and strips reference and const from each type |
| DelegateManagement.DecayAllAsWritten | SourceCode/TBEngine/editor/delegateManager/delegateManager.hpp:42 | remove_cv before remove_reference, as written, keeps the list's length |
| DelegateManagement.PlainListsKeyThemselves | SourceCode/TBEngine/editor/delegateManager/delegateManager.hpp:42 | a list of unqualified types decays, as written, to itself, so addDelegate's parameter lists key their own index |
| DelegateManagement.ConstLvalueKeysAnotherIndex | SourceCode/TBEngine/editor/delegateManager/delegateManager.hpp:42 | as written, two const uint32_t lvalues decay to a list different from (uint32_t, uint32_t), so they look up another delegate index |
| DelegateManagement.DecayStripsQualifiers | SourceCode/TBEngine/editor/delegateManager/delegateManager.hpp:42 | with the intended decay, T, const T, T& and const T& of a plain type all key the same index |
| DelegateManagement.IndexGetter.Get | SourceCode/TBEngine/editor/delegateManager/delegateManager.hpp:40-53 | the first request for a type list, decayed as written (remove_cv before remove_reference), takes the counter's value and advances it modulo 2^32; every later request for the same decayed list returns that index and changes nothing; until the counter wraps, indices stay distinct |
| DelegateManagement.DistinctListsDistinctIndices | SourceCode/TBEngine/editor/delegateManager/delegateManager.hpp:46-53 | two type lists share an index exactly when they are the same list |
| DelegateManagement.ParamsFor | SourceCode/TBEngine/editor/delegateManager/delegateManager.hpp:12-18 | mouse move takes two uint32_t, mouse click a bool and the keyboard a KeyStateMap; only eUnknown has no delegate |
| DelegateManagement.DelegateManager.AddDelegateFor | SourceCode/TBEngine/editor/delegateManager/delegateManager.hpp:109-114 | the index of the list decayed as written holds a fresh delegate with nothing bound, whose parameter list is the template arguments themselves; every other entry is kept |
| DelegateManagement.DelegateManager.AddDelegate | SourceCode/TBEngine/editor/delegateManager/delegateManager.hpp:77-97 | eUnknown raises "bad InputType" and changes nothing; every other input type gets a fresh, empty delegate of its parameter list under that list's index; the getter gains only that list's index, the counter advances only for a new list, and every other delegate entry is kept |
| DelegateManagement.DelegateManager.BindFunc | SourceCode/TBEngine/editor/delegateManager/delegateManager.hpp:99-106 | the index is the caller's, taken as given; an index with no entry raises; an empty entry, or a delegate whose parameter list is not exactly the template arguments (the dynamic_cast fails), yields a null pointer that is called (undefined); otherwise the function is bound exactly when the std::any holds the delegate's function type, and bad_any_cast is thrown with nothing changed otherwise |
| DelegateManagement.DelegateManager.Boardcast | SourceCode/TBEngine/editor/delegateManager/delegateManager.hpp:62-73 | the index is that of the argument types decayed as written; the getter gains only that list's index and the counter advances only for a new list; looking it up inserts an empty entry when there is none and keeps every other entry; an empty entry raises and nothing is invoked; otherwise each bound function is invoked exactly once |
| DelegateManagement.ConstLvalueBoardcastRaises | SourceCode/TBEngine/editor/delegateManager/delegateManager.hpp:62-73 | after the mouse-move delegate is added, a boardcast with two const uint32_t lvalues finds an empty entry: it raises "calling for boardcast of a released delegate" and invokes nothing |
| DelegateManagement.DelegatesSurviveLaterCalls | SourceCode/TBEngine/editor/delegateManager/delegateManager.hpp:62-97 | the mouse-move and mouse-click delegates take indices 0 and 1 in turn, and a later boardcast on the mouse-click parameters leaves the mouse-move delegate in place |
| DelegateManagement.DelegateManager.ReleaseDelegate | SourceCode/TBEngine/editor/delegateManager/delegateManager.hpp:116 | exactly the given entry is erased |
| CoreModelFile.PathAcceptedRule | SourceCode/TBEngine/resource/file/model/modelFile.cpp:69-81 | the model file's check accepts exactly an existing, non-directory path whose extension is ".obj" |
| CoreModelFile.PathAcceptedExamples | SourceCode/TBEngine/resource/file/model/modelFile.cpp:69-81 | an existing "<stem>.obj" is accepted; the same path absent is refused, and so is a file named just ".obj" |
| CoreModelFile.OtherExtensionRefused | SourceCode/TBEngine/resource/file/model/modelFile.cpp:69-81 | an existing "<stem>.png" is refused by the model file's own check |
| CoreModelFile.ModelFile.constructor | SourceCode/TBEngine/resource/file/model/modelFile.cpp:19-24 | after construction `valid` holds the model file's check (existence and ".obj") and no data is loaded |
| CoreModelFile.ModelFile.CheckPathValid | SourceCode/TBEngine/resource/file/model/modelFile.cpp:69-81 | the base part stores the existence check in `valid`; the value returned also requires a supported extension, and is not stored |
| CoreModelFile.ModelFile.Read | SourceCode/TBEngine/resource/file/model/modelFile.cpp:26-62 | with vertices already loaded nothing changes; a failed load throws with the loader's warning followed by its error text; otherwise the vertices become the distinct vertices in first-occurrence order and one index per mesh index is appended, each naming a stored vertex equal to the mesh vertex; the index/vertex invariant is kept |
| CoreModelFile.ModelFile.Free | SourceCode/TBEngine/resource/file/model/modelFile.cpp:64-67 | both the vertex and the index lists are emptied |
| CoreModelFile.ModelFile.NewFile | SourceCode/TBEngine/resource/file/base/fileBase.hpp:20-25 | the old data is released and the path replaced; `valid` ends up holding only the existence check, not the extension check |
| CoreModelFile.ModelFile.NewFileChecked | SourceCode/TBEngine/resource/file/base/fileBase.hpp:20-25 | the corrected newFile: old data released, path replaced, and `valid` holds the model file's full check, as after construction |
| CoreModelFile.ReadFromEmpty | SourceCode/TBEngine/resource/file/model/modelFile.cpp:43-61 | a read from empty lists stores distinct vertices, exactly the vertices of the meshes, with one index per mesh index |
| LegacyModelFile.ModelFile.constructor | SourceCode/TBEngine/file/model/model.cpp:19-22 | `valid` holds the path check (existence and ".obj") and no data is loaded |
| LegacyModelFile.ModelFile.Read | SourceCode/TBEngine/file/model/model.cpp:24-57 | a silent no-op once vertices exist; a failed load throws with warning plus error text; otherwise the distinct vertices in first-occurrence order and one index per mesh index naming an equal stored vertex; the invariant is kept |
| LegacyModelFile.ModelFile.Free | SourceCode/TBEngine/file/model/model.cpp:59-62 | both lists are emptied |
| LegacyModelFile.PathValidRule | SourceCode/TBEngine/file/model/model.cpp:64-76 | the check accepts exactly an existing, non-directory path whose extension is ".obj" |
| ObjIndexing.FlattenSnoc | SourceCode/TBEngine/resource/file/model/modelFile.cpp:45-46 | the shape loop visits one more shape's mesh indices after all earlier shapes' |
| ObjIndexing.FlattenLength | SourceCode/TBEngine/resource/file/model/modelFile.cpp:45-61 | the loop meets one vertex per mesh index over all shapes |
| ObjIndexing.FlattenShapeOrder | SourceCode/TBEngine/resource/file/model/modelFile.cpp:45-46 | mesh index j of shape s is met after every mesh index of the earlier shapes, at position (earlier total) + j |
| ObjIndexing.DedupSnoc | SourceCode/TBEngine/resource/file/model/modelFile.cpp:54-57 | a vertex met again leaves the stored list unchanged; a new one is appended at its end |
| ObjIndexing.DedupMembers | SourceCode/TBEngine/resource/file/model/modelFile.cpp:54-57 | a vertex is stored exactly when some mesh index produces it |
| ObjIndexing.DedupDistinct | SourceCode/TBEngine/resource/file/model/modelFile.cpp:54-57 | no vertex is stored twice |
| ObjIndexing.FirstIndexSpec | SourceCode/TBEngine/resource/file/model/modelFile.cpp:54-57 | the first occurrence of a vertex is where it is, and it does not occur before |
| ObjIndexing.FirstIndexStable | SourceCode/TBEngine/resource/file/model/modelFile.cpp:54-57 | meeting another vertex later does not move an earlier first occurrence |
| ObjIndexing.DedupFirstOccurrenceOrder | SourceCode/TBEngine/resource/file/model/modelFile.cpp:54-57 | vertices are stored in the order of their first occurrences in the meshes |
| ObjIndexing.IndicesDetermined | SourceCode/TBEngine/resource/file/model/modelFile.cpp:59 | over distinct stored vertices, the index list is the only one that points at an equal vertex for each mesh index |
| ObjIndexing.DedupOfDistinct | SourceCode/TBEngine/resource/file/model/modelFile.cpp:54-57 | a list with no repeated vertex is stored unchanged |
| ObjIndexing.AddVertex | SourceCode/TBEngine/resource/file/model/modelFile.cpp:47-59 | one step of the inner loop keeps the loop invariant: stored vertices are the de-duplication of those met, the map gives each one's position, and every met vertex has an index to an equal stored vertex |
| ObjIndexing.IndexVertices | SourceCode/TBEngine/resource/file/model/modelFile.cpp:43-61 | the two nested loops store the de-duplicated vertices of all shapes in first-occurrence order and one index per mesh index naming an equal stored vertex |
| FilePaths.LastIndexOf | SourceCode/TBEngine/resource/file/model/modelFile.cpp:72 | the position of the last occurrence of the character, with no occurrence after it; none exactly when the character does not occur |
| FilePaths.FileName | SourceCode/TBEngine/resource/file/model/modelFile.cpp:72 | the file name holds no separator and is no longer than the path; it is the whole path exactly when the path has no separator |
| FilePaths.Extension | SourceCode/TBEngine/resource/file/model/modelFile.cpp:72 | a non-empty extension starts with a period, holds no separator and is shorter than the file name |
| FilePaths.FileNameRule | SourceCode/TBEngine/resource/file/model/modelFile.cpp:72 | the file name is a suffix of the path and holds no separator |
| FilePaths.ExtensionIsSuffix | SourceCode/TBEngine/resource/file/model/modelFile.cpp:72 | a non-empty extension is a suffix of the path with a non-empty stem in front of it, in the same file name |
| FilePaths.ExtensionForm | SourceCode/TBEngine/resource/file/model/modelFile.cpp:72 | a non-empty extension starts with its only period and holds no separator |
| FilePaths.FileExtension | SourceCode/TBEngine/resource/file/model/modelFile.cpp:72 | "<dir>/<stem>.<ext>" has the extension "." + ext, however many periods the stem holds |
| FilePaths.DotFileHasNoExtension | SourceCode/TBEngine/resource/file/model/modelFile.cpp:72 | a file named ".obj" has no extension |
| FilePaths.DirectoryPeriodIsNoExtension | SourceCode/TBEngine/resource/file/model/modelFile.cpp:72 | a period in a directory name gives the file no extension |
| RootPath.NormaliseRule | SourceCode/TBEngine/utils/basic/basic.cpp:9 | replacing back-slashes keeps the length, leaves no back-slash, changes no other character, and leaves a path without back-slashes as it is |
| RootPath.NormaliseAppend | SourceCode/TBEngine/utils/basic/basic.cpp:9 | the replacement works character by character, so it distributes over concatenation |
| RootPath.FindFrom | SourceCode/TBEngine/utils/basic/basic.cpp:12 | a found position lies at or after the start and leaves room for the whole pattern |
| RootPath.FindFromSpec | SourceCode/TBEngine/utils/basic/basic.cpp:12 | find returns the first occurrence at or after the start, and npos exactly when there is none |
| RootPath.SetRootPath | SourceCode/TBEngine/utils/basic/basic.cpp:7-20 | a failure is the runtime_error "you need check work path!"; a success is a prefix of the normalised working directory that ends with "Toy-Bricks-Engine/" |
| RootPath.SetRootPathFails | SourceCode/TBEngine/utils/basic/basic.cpp:12-18 | setRootPath throws "you need check work path!" exactly when the normalised working directory never contains "Toy-Bricks-Engine/" |
| RootPath.CutAtFirstOccurrence | SourceCode/TBEngine/utils/basic/basic.cpp:15 | cutting right after the first occurrence keeps it as the first occurrence, now ending the string |
| RootPath.SetRootPathShape | SourceCode/TBEngine/utils/basic/basic.cpp:8-15 | the new working directory is a prefix of the normalised old one, ends with "Toy-Bricks-Engine/", holds no back-slash, and holds the marker nowhere before its end |
| RootPath.SetRootPathIdempotent | SourceCode/TBEngine/utils/basic/basic.cpp:7-20 | the path computation applied to its own result, trailing separator included, returns it unchanged; the file system does not hand the path back in that form (see SecondCallThrows) |
| RootPath.SecondCallThrows | SourceCode/TBEngine/utils/basic/basic.cpp:7-20 | setRootPath cannot be re-run from the directory it set: current_path() gives it back without the trailing separator, where the marker no longer occurs, so the second call throws |
| RootPath.MissingTrailingSeparatorFails | SourceCode/TBEngine/utils/basic/basic.cpp:10-17 | a working directory that is the engine folder itself without a final separator does not match, so setRootPath throws |
| FrameRules.OnAcquire | SourceCode/TBEngine/core/graphics/graphics.cpp:86-91 | an out-of-date chain is rebuilt and the frame abandoned; success and suboptimal go on to render; anything else raises |
| FrameRules.OnPresent | SourceCode/TBEngine/core/graphics/graphics.cpp:124-131 | an out-of-date or suboptimal present, or a pending resize, rebuilds the chain; otherwise any result but success raises |
| FrameRules.SuboptimalRendersThenRecreates | SourceCode/TBEngine/core/graphics/graphics.cpp:86-131 | a suboptimal chain is still rendered to, and the present that follows rebuilds it |
| FrameRules.ResizeForcesRecreate | SourceCode/TBEngine/core/graphics/graphics.cpp:124-127 | a pending resize rebuilds the chain whatever the present returned |
| FrameRules.NextFrame | SourceCode/TBEngine/core/graphics/graphics.cpp:133 | the next slot is a valid slot, and differs from the current one |
| FrameRules.NextFrameTwiceIsIdentity | SourceCode/TBEngine/core/graphics/graphics.cpp:133 | with two frames in flight, advancing twice returns to the same slot |
| FrameRules.FrameAfter | SourceCode/TBEngine/core/graphics/graphics.cpp:133 | after any number of ticks the slot is a valid slot |
| FrameRules.FramesCycle | SourceCode/TBEngine/core/graphics/graphics.cpp:133 | from slot 0 the slots alternate 0, 1, 0, 1, ... |
| CoreRenderPasses.RenderPass.constructor | SourceCode/TBEngine/core/graphics/vulkanAbstract/renderPass/renderPass.cpp:7 | a render pass starts not initialised |
| CoreRenderPasses.RenderPass.Init | SourceCode/TBEngine/core/graphics/vulkanAbstract/renderPass/renderPass.cpp:9-85 | exactly one render pass is created, with the shared colour/depth/resolve table for the given formats and sample count, and the pass is marked initialised |
| CoreRenderPasses.RenderPass.Destroy | SourceCode/TBEngine/core/graphics/vulkanAbstract/renderPass/renderPass.cpp:87-92 | the pass is destroyed once while initialised and the flag is cleared; otherwise nothing happens, so a second destroy is a no-op |
| LegacyRenderPasses.RenderPass.constructor | SourceCode/TBEngine/graphics/vulkanAbstract/renderPass/renderPass.cpp:7 | a render pass starts without a device |
| LegacyRenderPasses.RenderPass.InitAll | SourceCode/TBEngine/graphics/vulkanAbstract/renderPass/renderPass.cpp:9-90 | the device is recorded and exactly one render pass is created from the shared table |
| LegacyRenderPasses.RenderPass.Destroy | SourceCode/TBEngine/graphics/vulkanAbstract/renderPass/renderPass.cpp:92-96 | without a device nothing happens; otherwise the pass is destroyed and the device pointer cleared, so a second destroy is a no-op |
| RenderPassRules.RenderPassTable | SourceCode/TBEngine/core/graphics/vulkanAbstract/renderPass/renderPass.cpp:12-81 | three attachments, one subpass and one dependency; colour and depth at the chosen sample count, the resolve attachment single-sampled |
| RenderPassRules.TableReferences | SourceCode/TBEngine/core/graphics/vulkanAbstract/renderPass/renderPass.cpp:56-81 | every attachment reference of the subpass names one of the three attachments, and the resolve attachment is valid under the Vulkan resolve rules exactly when more than one sample is used |
| RenderPassRules.SubpassTargets | SourceCode/TBEngine/core/graphics/vulkanAbstract/renderPass/renderPass.cpp:12-62 | the single subpass draws colour into a swapchain-format attachment and depth into a depth-format attachment, both at the chosen sample count, and resolves into a swapchain-format attachment |
| RenderPassRules.AttachmentLifetimes | SourceCode/TBEngine/core/graphics/vulkanAbstract/renderPass/renderPass.cpp:12-54 | only the resolve attachment ends ready to present; colour and resolve are stored and depth is discarded; every attachment starts undefined, none is loaded, stencil is ignored |
| RenderPassRules.DependencyCoversWrites | SourceCode/TBEngine/core/graphics/vulkanAbstract/renderPass/renderPass.cpp:64-73 | one dependency from outside the pass into subpass 0 orders colour and depth writes after the same stages of earlier work |
| ShaderRules.StageFor | SourceCode/TBEngine/core/graphics/interface/shaderInterface/shaderInterface.cpp:45-56 | the vertex type runs at the vertex stage and the fragment type at the fragment stage; only the unknown type raises "illegal ShaderType" |
| ShaderRules.CreateBinding | SourceCode/TBEngine/core/graphics/interface/shaderInterface/shaderInterface.cpp:82-104 | exactly eUnknown raises "illegal ShaderType"; a binding holds one descriptor, a uniform buffer exactly when it is for the vertex stage |
| ShaderRules.BindingAgreesWithStage | SourceCode/TBEngine/core/graphics/interface/shaderInterface/shaderInterface.cpp:82-104 | createBinding and the stage switch accept the same types, agree on the stage, declare one descriptor, and fail with the same error |
| ShaderRules.BindingsDistinct | SourceCode/TBEngine/core/graphics/interface/shaderInterface/shaderInterface.cpp:85-97 | the vertex and fragment bindings are different slots with different descriptor types |
| ShaderRules.SetWritesMatchBindings | SourceCode/TBEngine/resource/shader/shader.cpp:105-127 | the two descriptor writes of a set are exactly the slots, types and counts the two shaders declare |
| ShaderRules.AddKeepsLockstep | SourceCode/TBEngine/core/graphics/interface/shaderInterface/shaderInterface.cpp:41-60 | a successful addShader extends modules, stage infos and bindings together: stage info i names module i with entry "main", and binding i is declared for stage i |
| ShaderRules.ModuleDestroysAt | SourceCode/TBEngine/core/graphics/interface/shaderInterface/shaderInterface.cpp:29-34 | every module is destroyed exactly once, in list order, and nothing else is destroyed |
| ShaderRules.ModuleDestroysLength | SourceCode/TBEngine/core/graphics/interface/shaderInterface/shaderInterface.cpp:29-34 | one destroy per module |
| ShaderRules.DestroyModules | SourceCode/TBEngine/core/graphics/interface/shaderInterface/shaderInterface.cpp:30-32 | the loop issues exactly the destroys of all modules, in order |
| ShaderRules.NewShaderModule | SourceCode/TBEngine/core/graphics/interface/shaderInterface/shaderInterface.cpp:62-70 | one fresh module over the whole code |
| ResourceShaders.Shader.constructor | SourceCode/TBEngine/resource/shader/shader.cpp:9-14 | a shader starts with empty lists, no flag set, and fresh, uninitialised descriptors |
| ResourceShaders.Shader.AddShader | SourceCode/TBEngine/resource/shader/shader.cpp:57-78 | a file that does not open raises before anything is created; otherwise the module is appended first; an unknown type then raises, leaving the module without stage info or binding; a known type appends its stage info and binding, keeping the three lists in step |
| ResourceShaders.Shader.InitDescriptorSetLayout | SourceCode/TBEngine/resource/shader/shader.cpp:91-103 | warns exactly when either list is empty; builds one layout from the bindings only when there are bindings; returns the stage infos in every case |
| ResourceShaders.Shader.DestroyCache | SourceCode/TBEngine/resource/shader/shader.cpp:31-55 | the modules are destroyed only when their flag is set, each list is emptied only under its own flag, and every flag ends cleared |
| ResourceShaders.Shader.Destroy | SourceCode/TBEngine/resource/shader/shader.cpp:21-29 | destroyCache, then the descriptors' destroys only when this shader built the layout; every flag ends cleared |
| CoreShaders.ShaderInterface.constructor | SourceCode/TBEngine/core/graphics/interface/shaderInterface/shaderInterface.cpp:7-11 | empty lists and fresh, uninitialised descriptors |
| CoreShaders.ShaderInterface.AddShader | SourceCode/TBEngine/core/graphics/interface/shaderInterface/shaderInterface.cpp:41-60 | the module is always appended first; an unknown type then raises, leaving the module without stage info or binding; a known type appends its stage info and binding |
| CoreShaders.ShaderInterface.InitDescriptorSetLayout | SourceCode/TBEngine/core/graphics/interface/shaderInterface/shaderInterface.cpp:72-80 | warns exactly when either list is empty; builds the layout from the bindings only when there are some; returns the stage infos |
| CoreShaders.ShaderInterface.DestroyCache | SourceCode/TBEngine/core/graphics/interface/shaderInterface/shaderInterface.cpp:26-39 | the first call in the process destroys every module and empties the three lists; every later call, on any instance, does nothing |
| CoreShaders.ShaderInterface.Destroy | SourceCode/TBEngine/core/graphics/interface/shaderInterface/shaderInterface.cpp:17-24 | the first call in the process runs destroyCache (unless it already ran) and then the descriptors' destroys; later calls do nothing |
| CoreShaders.DestroyTwoCaches | SourceCode/TBEngine/core/graphics/interface/shaderInterface/shaderInterface.cpp:26-39 | of two shader interfaces, only the first one's modules are destroyed and the second keeps its lists |

## Left out

- Vulkan, GLFW and ImGui plumbing are not modelled. This covers instance, surface, device and queue creation, the debug messenger, pipeline creation, and ImGui setup and rendering. Their handles are opaque inputs, and what they report is a parameter.
- ImGui's descriptor pool and render calls are not modelled. Neither revision destroys that pool.
- The uniform buffer object's matrices are not modelled: they are floating-point values computed from the clock. The model keeps only which slot is written, and that the write is exactly one uniform buffer object's worth of bytes.
- The texture-coordinate flip and every other floating-point computation are not modelled. A vertex is any value with equality.
- The mip count uses integer floor(log2(max(w, h))) + 1 in place of `std::log2`, with w, h ≥ 1.
- File I/O is not modelled: tinyobj loading, stb_image decoding, shader file reads and the file-system existence test are inputs. A load is given as its result, or as its warning and error text; a file read is given as its bytes or a failure to open.
- Every Vulkan creation call is taken to succeed. A failing create through `depackReturnValue` is not modelled.
- The result of `vkQueueSubmit` is taken to succeed.
- GPU-side concurrency is not modelled: semaphores and fences appear only as handles and as calls in the trace.
- The window waits of `recreateSwapChain` use the first non-zero framebuffer size for every step of the rebuild. The source asks the window again inside `createSwapChain`/`createExtent`, so a resize between those calls is not modelled.
- Commands.Settles, Commands.EventuallyNonZero: the retry loops `while (... == eTimeout)` and `while (width == 0 || height == 0) glfwWaitEvents()` are modelled over a finite list of answers that contains a settling one. A device that times out forever, or a window that stays minimised, makes the source spin forever; that case is not modelled.
- `StagingBuffer` and `ImageResource` are folded into creation and destroy calls. A colour or depth attachment is one create call and one destroy call.
- LegacyGraphics.VulkanGraphics.ApplyRebuild: the older revision's five create steps of `recreateSwapChain` are given as one description of their results. Their internals are the same creation rules the newer revision's steps state.
- LegacyGraphics.VulkanGraphics.Cleanup: the `shader.destroy()` that runs between the uniform buffers and the model buffers is not in the modelled trace. The older revision's shader class, SourceCode/TBEngine/graphics/shader/shader.cpp, is not part of this model.
- The older VulkanGraphics constructor's call to `initVulkan` is not modelled; initialisation is the sequence of create methods modelled here.
- The newer revision's `VulkanGraphics::cleanup` (core/graphics/graphics.cpp:136-166) is not modelled. Its order is the older revision's, with the interface objects' destroys in place of the resources, and the older revision's Cleanup states that order.
- Element destructors run by `std::vector::resize` (scene/scene.cpp:68, core/graphics/interface/sceneInterface/sceneInterface.cpp:33, core/graphics/graphics.cpp:417) are not modelled. Those run by `emplace_back` in `ModelInterface::read` and `Scene::addModel` are. Whether a list reallocates depends on its capacity, which the standard library chooses, so the caller gives it as the `grows` parameter.
- The declaration of the `Model` class that scene/model/model.cpp implements is not part of this model; SourceCode/TBEngine/scene/model/model.hpp declares a `ModelManager` from another revision. The members are taken in the order model.cpp uses them, vertex buffer before index buffer, so `~Model` destroys the index buffer first.
- The older revision's graphics files and its resource files are not from the same revision. graphics/graphics.cpp and graphics.hpp construct every resource as `{device, phyDevice}` and call `swapchainR.init(phyDevice, …)`. The graphics/vulkanAbstract files hold a nullable device pointer, set by `setPDevice` (base.hpp:12) or `initAll(pDevice_, …)` (swapChainResource.cpp:21-25). LegacyGraphics follows graphics.cpp. LegacyBuffers, LegacyDescriptors, LegacyRenderPass and LegacySwapchain follow the vulkanAbstract files. Where the two meet, the model gives each resource its device, as when ApplyRebuild sets `swapchainR.hasDevice`. Neither revision's commit is named in the sources.
- `DelegateManager::boardcast` calls a member `p->boardcast` that `Delegate` does not have. It is modelled as the delegate's `broadcast`, which is evidently meant.
- The `SubpassDependency` that both `tick`s build and never use is not modelled.
- `toStringView`, the camera, the engine wiring, logging and `getTime` are outside the modelled core.

## Findings

| source | as written | input that shows it | evidently intended | confidence | as-written member | corrected member |
|---|---|---|---|---|---|---|
| SourceCode/TBEngine/core/graphics/vulkanAbstract/descriptor/descriptor.cpp:54 | binding 0's buffer range is `uniBuffers[i].size`. The uniform buffer's init never sets that field, so the range stays 0 | a 64-byte uniform buffer: its set's uniform binding gets a 0-byte range | the range is the uniform buffer's `bufferSize`, i.e. the whole buffer | not executed; high | CoreDescriptors.Descriptor.InitSetsAsWritten, CoreDescriptors.ZeroRangeWitness | CoreDescriptors.Descriptor.InitSets |
| SourceCode/TBEngine/graphics/vulkanAbstract/descriptor/descriptor.cpp:44 | the same range, `uniBuffers[i].size`, which is never set for a uniform buffer | a 64-byte uniform buffer gets a 0-byte uniform binding | the range is `bufferSize` | not executed; high | LegacyDescriptors.Descriptor.InitSetsAsWritten, LegacyDescriptors.ZeroRangeWitness, LegacyGraphics.VulkanGraphics.CreateDescriptor | LegacyDescriptors.Descriptor.InitSets |
| SourceCode/TBEngine/editor/delegateManager/delegateManager.hpp:42 | `remove_reference_t<remove_cv_t<Args>>` strips cv before the reference, so `const uint32_t&` decays to `const uint32_t` | `boardcast` with two `const uint32_t` lvalues looks up the index of (const uint32_t, const uint32_t), not the mouse-move delegate's (uint32_t, uint32_t) | strip the reference first (`std::decay_t`), so every qualified form keys the plain type's index | not executed; medium | DelegateManagement.DecayAllAsWritten, DelegateManagement.ConstLvalueKeysAnotherIndex, DelegateManagement.ConstLvalueBoardcastRaises | DelegateManagement.DecayAll, DelegateManagement.DecayStripsQualifiers |
| SourceCode/TBEngine/resource/file/base/fileBase.hpp:20-25 | `newFile` calls the model file's `checkPathValid` but discards its answer, so `valid` keeps only the existence check | `newFile` to an existing "model.png": `isValid()` is true, although the model file's check refuses the path | store the answer, as the constructor does (modelFile.cpp:23) | not executed; medium | CoreModelFile.ModelFile.NewFile, CoreModelFile.OtherExtensionRefused | CoreModelFile.ModelFile.NewFileChecked |
| SourceCode/TBEngine/graphics/graphics.cpp:619-621 | `isDeviceSuitable` builds `QueueFamilyIndices`, whose constructor raises when the families are incomplete, so one unsuitable device aborts the whole pick | devices [no presenting family, fully suitable]: the pick raises "Cannot find suitable queue families!" instead of taking the second | a device with incomplete queue families is passed over like any unsuitable device | not executed; medium | LegacyGraphics.HeadlessFirstDeviceAbortsPick, LegacyGraphics.VulkanGraphics.PickPhysicalDevice | LegacyGraphics.VulkanGraphics.PickPhysicalDeviceChecked |
