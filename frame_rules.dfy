// The decisions a frame makes on the results the presentation engine returns,
// shared by both revisions of VulkanGraphics::tick, and the frame-in-flight
// counter.
module FrameRules {
  import opened Vk

  /** What tick does after vkAcquireNextImageKHR. */
  datatype AcquireDecision = RecreateAndReturn | AbortAcquire | Render

  function OnAcquire(res: VkResult): (d: AcquireDecision)
    ensures d == RecreateAndReturn <==> res == ErrorOutOfDate
    ensures d == Render <==> res == Success || res == Suboptimal
  {
    if res == ErrorOutOfDate then RecreateAndReturn
    else if res != Success && res != Suboptimal then AbortAcquire
    else Render
  }

  /** What tick does after vkQueuePresentKHR. */
  datatype PresentDecision = RecreateAfterPresent | AbortPresent | Presented

  function OnPresent(res: VkResult, framebufferResized: bool): (d: PresentDecision)
    ensures d == RecreateAfterPresent <==> res == ErrorOutOfDate || res == Suboptimal || framebufferResized
    ensures d == AbortPresent <==> !framebufferResized && res !in {ErrorOutOfDate, Suboptimal, Success}
  {
    if res == ErrorOutOfDate || res == Suboptimal || framebufferResized then RecreateAfterPresent
    else if res != Success then AbortPresent
    else Presented
  }

  /** A suboptimal chain is still drawn to: acquire renders, and the present
      that follows rebuilds the chain. */
  lemma SuboptimalRendersThenRecreates(resized: bool)
    ensures OnAcquire(Suboptimal) == Render
    ensures OnPresent(Suboptimal, resized) == RecreateAfterPresent
  {
  }

  /** A pending resize wins over a successful present. */
  lemma ResizeForcesRecreate(res: VkResult)
    ensures OnPresent(res, true) == RecreateAfterPresent
  {
  }

  function NextFrame(frame: nat): (next: nat)
    ensures next < MAX_FRAMES_IN_FLIGHT
    ensures frame < MAX_FRAMES_IN_FLIGHT ==> next != frame
  {
    (frame + 1) % MAX_FRAMES_IN_FLIGHT
  }

  /** With two frames in flight, advancing twice returns to the same slot. */
  lemma NextFrameTwiceIsIdentity(frame: nat)
    requires frame < MAX_FRAMES_IN_FLIGHT
    ensures NextFrame(NextFrame(frame)) == frame
  {
  }

  /** The slot after n completed ticks. */
  function FrameAfter(start: nat, n: nat): (frame: nat)
    requires start < MAX_FRAMES_IN_FLIGHT
    ensures frame < MAX_FRAMES_IN_FLIGHT
  {
    if n == 0 then start else NextFrame(FrameAfter(start, n - 1))
  }

  /** Starting from slot 0 the slots cycle 0, 1, 0, 1, ... */
  lemma {:induction false} FramesCycle(n: nat)
    ensures FrameAfter(0, n) == n % MAX_FRAMES_IN_FLIGHT
  {
    if n > 0 {
      FramesCycle(n - 1);
    }
  }
}
