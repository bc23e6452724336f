// The recorders handed to disposableCommands.  Each is a lambda in the
// engine; here each is a value naming the lambda and what it captured, and
// `Recorded` gives the commands it records into the command buffer it is
// called with.
module Recordings {
  import opened Vk
  import opened Gpu
  import opened MipChains

  datatype Recording =
    /** BufferResource::init's copy: one region of `size` bytes. */
    | CopyRegion(src: Handle, dst: Handle, size: nat)
    /** transitionImageLayout's recorder: one image barrier. */
    | Barrier(srcStage: Stage, dstStage: Stage, barrier: ImageBarrier)
    /** StagingBuffer::copyTo: the whole buffer into level 0 of the image,
        which is a transfer destination. */
    | CopyToImage(buffer: Handle, image: Handle, extent: Extent2D)
    /** generateMipmaps' recorder. */
    | MipChain(image: Handle, extent: Extent2D, levels: nat)

  function Recorded(cmd: Handle, rec: Recording): seq<Call>
  {
    match rec
    case CopyRegion(src, dst, size) => [CopyBuffer(cmd, src, dst, size)]
    case Barrier(srcStage, dstStage, barrier) => [PipelineBarrier(cmd, srcStage, dstStage, barrier)]
    case CopyToImage(buffer, image, extent) => [CopyBufferToImage(cmd, buffer, image, TransferDstOptimal, extent)]
    case MipChain(image, extent, levels) => MipCalls(cmd, image, extent, levels)
  }

  /** Running the recorder on `cmd`. */
  method Record(dev: Device, cmd: Handle, rec: Recording)
    modifies dev`calls
    ensures dev.calls == old(dev.calls) + Recorded(cmd, rec)
  {
    match rec
    case MipChain(image, extent, levels) =>
      RecordMipChain(dev, cmd, image, extent, levels);
    case _ =>
      dev.calls := dev.calls + Recorded(cmd, rec);
  }
}
