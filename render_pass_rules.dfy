// The render pass both revisions build: a multisampled colour attachment, a
// multisampled depth attachment and a single-sampled resolve attachment that
// is presented, used by one graphics subpass, with one dependency from
// outside the pass.  The two revisions fill in the same table.
module RenderPassRules {
  import opened Vk

  const COLOR_ATTACHMENT: nat := 0
  const DEPTH_ATTACHMENT: nat := 1
  const RESOLVE_ATTACHMENT: nat := 2

  /** initAll / init: the attachments in the order colour, depth, resolve. */
  function Attachments(swapchainFormat: Format, depthFormat: Format, msaaSamples: nat): seq<AttachmentDescription>
  {
    [AttachmentDescription(swapchainFormat, msaaSamples, LoadOpClear, StoreOpStore, LoadOpDontCare, StoreOpDontCare,
                           Undefined, ColorAttachmentOptimal),
     AttachmentDescription(depthFormat, msaaSamples, LoadOpClear, StoreOpDontCare, LoadOpDontCare, StoreOpDontCare,
                           Undefined, DepthStencilAttachmentOptimal),
     AttachmentDescription(swapchainFormat, 1, LoadOpDontCare, StoreOpStore, LoadOpDontCare, StoreOpDontCare,
                           Undefined, PresentSrc)]
  }

  /** The one graphics subpass: colour 0, depth 1, resolve 2. */
  const SUBPASS: SubpassDescription :=
    SubpassDescription([AttachmentReference(COLOR_ATTACHMENT, ColorAttachmentOptimal)],
                       AttachmentReference(DEPTH_ATTACHMENT, DepthStencilAttachmentOptimal),
                       [AttachmentReference(RESOLVE_ATTACHMENT, ColorAttachmentOptimal)])

  /** The one dependency: from outside the pass into subpass 0, at the
      colour-output and early-fragment-test stages, for colour and depth
      writes. */
  const DEPENDENCY: SubpassDependency :=
    SubpassDependency(External, SubpassIndex(0),
                      {ColorAttachmentOutput, EarlyFragmentTests}, {},
                      {ColorAttachmentOutput, EarlyFragmentTests}, {ColorAttachmentWrite, DepthStencilAttachmentWrite})

  /** The create-info of the pass: three attachments, one subpass, one
      dependency; only the resolve attachment is single-sampled. */
  function RenderPassTable(swapchainFormat: Format, depthFormat: Format, msaaSamples: nat): (r: RenderPassCreateInfo)
    ensures |r.attachments| == 3 && |r.subpasses| == 1 && |r.dependencies| == 1
    ensures r.attachments[RESOLVE_ATTACHMENT].samples == 1
    ensures r.attachments[COLOR_ATTACHMENT].samples == r.attachments[DEPTH_ATTACHMENT].samples == msaaSamples
  {
    RenderPassCreateInfo(Attachments(swapchainFormat, depthFormat, msaaSamples), [SUBPASS], [DEPENDENCY])
  }

  /** Every reference of every subpass names an attachment of the pass, in
      the layout that attachment ends the pass in, except for resolve
      targets, which are written as colour attachments. */
  predicate ReferencesInRange(info: RenderPassCreateInfo)
  {
    forall s :: s in info.subpasses ==>
      (forall r :: r in s.colorAttachments ==> r.attachment < |info.attachments|)
      && s.depthStencilAttachment.attachment < |info.attachments|
      && (forall r :: r in s.resolveAttachments ==> r.attachment < |info.attachments|)
  }

  /** Vulkan's rule for resolve attachments (VkSubpassDescription valid
      usage): one resolve target per colour attachment, each the colour
      attachment's format, single-sampled, resolving a multisampled colour
      attachment. */
  predicate ResolveValid(info: RenderPassCreateInfo)
    requires ReferencesInRange(info)
  {
    forall s :: s in info.subpasses ==>
      |s.resolveAttachments| == |s.colorAttachments|
      && forall k :: 0 <= k < |s.colorAttachments| ==>
        var c, r := info.attachments[s.colorAttachments[k].attachment], info.attachments[s.resolveAttachments[k].attachment];
        r.samples == 1 && c.samples > 1 && r.format == c.format
  }

  /** The table is well formed, and resolves correctly exactly when the
      sample count chosen for colour and depth is above one. */
  lemma TableReferences(swapchainFormat: Format, depthFormat: Format, msaaSamples: nat)
    ensures ReferencesInRange(RenderPassTable(swapchainFormat, depthFormat, msaaSamples))
    ensures ResolveValid(RenderPassTable(swapchainFormat, depthFormat, msaaSamples)) <==> msaaSamples > 1
  {
    var info := RenderPassTable(swapchainFormat, depthFormat, msaaSamples);
    assert info.subpasses == [SUBPASS];
    if ResolveValid(info) {
      assert SUBPASS in info.subpasses;
      assert info.attachments[SUBPASS.colorAttachments[0].attachment].samples == msaaSamples;
    }
  }

  /** The subpass renders colour and depth into the multisampled
      attachments: colour reference 0 names an attachment with the swapchain
      format, the depth reference one with the depth format, both with the
      chosen sample count. */
  lemma SubpassTargets(swapchainFormat: Format, depthFormat: Format, msaaSamples: nat)
    ensures var info := RenderPassTable(swapchainFormat, depthFormat, msaaSamples);
      var s := info.subpasses[0];
      |info.subpasses| == 1 && |s.colorAttachments| == 1 && |s.resolveAttachments| == 1
      && info.attachments[s.colorAttachments[0].attachment].format == swapchainFormat
      && info.attachments[s.colorAttachments[0].attachment].samples == msaaSamples
      && info.attachments[s.depthStencilAttachment.attachment].format == depthFormat
      && info.attachments[s.depthStencilAttachment.attachment].samples == msaaSamples
      && info.attachments[s.resolveAttachments[0].attachment].format == swapchainFormat
  {
  }

  /** What survives the pass: only the presented resolve attachment ends in
      PresentSrc; colour and resolve are stored and the depth is discarded;
      nothing is loaded, since every attachment starts Undefined. */
  lemma AttachmentLifetimes(swapchainFormat: Format, depthFormat: Format, msaaSamples: nat)
    ensures var a := Attachments(swapchainFormat, depthFormat, msaaSamples);
      |a| == 3
      && (forall i :: 0 <= i < 3 ==> (a[i].finalLayout == PresentSrc <==> i == RESOLVE_ATTACHMENT))
      && (forall i :: 0 <= i < 3 ==> (a[i].storeOp == StoreOpStore <==> i != DEPTH_ATTACHMENT))
      && (forall i :: 0 <= i < 3 ==> a[i].initialLayout == Undefined && a[i].loadOp != LoadOpLoad)
      && (forall i :: 0 <= i < 3 ==> a[i].stencilLoadOp == LoadOpDontCare && a[i].stencilStoreOp == StoreOpDontCare)
  {
  }

  /** The dependency orders subpass 0's colour and depth writes after the
      same stages of earlier work outside the pass. */
  lemma DependencyCoversWrites(swapchainFormat: Format, depthFormat: Format, msaaSamples: nat)
    ensures var d := RenderPassTable(swapchainFormat, depthFormat, msaaSamples).dependencies;
      |d| == 1 && d[0].srcSubpass == External && d[0].dstSubpass == SubpassIndex(0)
      && d[0].srcStages == d[0].dstStages
      && ColorAttachmentOutput in d[0].dstStages && EarlyFragmentTests in d[0].dstStages
      && d[0].dstAccess == {ColorAttachmentWrite, DepthStencilAttachmentWrite} && d[0].srcAccess == {}
  {
  }
}
