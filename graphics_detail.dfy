// The device-negotiation rules of the renderer: queue-family scan, layer and
// extension checks, swapchain format / present mode / extent choice, memory
// type search, multisample count and depth-format search.  Both revisions of
// graphicsDetail.hpp implement the same rules; this module models them once.
module GraphicsDetail {
  import opened Wrappers
  import opened Vk

  // ---------------------------------------------------------------------------
  // Queue families

  /** What the scan learns about one queue family: the graphics bit of its
      queue flags, and the answer of the surface-support query for it. */
  datatype QueueFamily = QueueFamily(graphics: bool, presentSupport: bool)

  datatype QueueFamilyIndices = QueueFamilyIndices(graphicsFamily: Option<nat>, presentFamily: Option<nat>)
  {
    predicate IsComplete() { graphicsFamily.Some? && presentFamily.Some? }
  }

  /** Some family among the first k+1 can draw, and some can present. */
  ghost predicate CompleteWithin(fs: seq<QueueFamily>, k: int)
  {
    (exists g :: 0 <= g <= k && g < |fs| && fs[g].graphics) &&
    (exists p :: 0 <= p <= k && p < |fs| && fs[p].presentSupport)
  }

  /** One step of the scan over family i: a family that qualifies overwrites
      the field it qualifies for. */
  function ScanStep(ix: QueueFamilyIndices, f: QueueFamily, i: nat): QueueFamilyIndices
  {
    var withGraphics := if f.graphics then ix.(graphicsFamily := Some(i)) else ix;
    if f.presentSupport then withGraphics.(presentFamily := Some(i)) else withGraphics
  }

  /** The scan from family i on, starting from the indices found so far. */
  function ScanFrom(fs: seq<QueueFamily>, i: nat, ix: QueueFamilyIndices): (r: Result<QueueFamilyIndices>)
    ensures r.Err? ==> r.error == Fatal("Cannot find suitable queue families!")
    decreases |fs| - i
  {
    if i >= |fs| then Err(Fatal("Cannot find suitable queue families!"))
    else
      var next := ScanStep(ix, fs[i], i);
      if next.IsComplete() then Ok(next) else ScanFrom(fs, i + 1, next)
  }

  /** What the QueueFamilyIndices constructor computes. */
  function ScanQueueFamilies(fs: seq<QueueFamily>): (r: Result<QueueFamilyIndices>)
    ensures r.Err? ==> r.error == Fatal("Cannot find suitable queue families!")
  {
    ScanFrom(fs, 0, QueueFamilyIndices(None, None))
  }

  /** The constructor's scan: each field takes the latest qualifying index,
      and the scan stops at the first index where both are known.  It raises
      if the families run out first. */
  method FindQueueFamilies(fs: seq<QueueFamily>) returns (r: Result<QueueFamilyIndices>)
    ensures r == ScanQueueFamilies(fs)
    ensures r.Ok? <==> CompleteWithin(fs, |fs| - 1)
    ensures r.Err? ==> r.error == Fatal("Cannot find suitable queue families!")
    ensures r.Ok? ==> r.value.IsComplete()
    ensures r.Ok? ==>
      var g, p := r.value.graphicsFamily.value, r.value.presentFamily.value;
      var k := if g < p then p else g;
      k < |fs| && fs[g].graphics && fs[p].presentSupport &&
      // k is where the scan stopped: the first index at which both are known
      !CompleteWithin(fs, k - 1) &&
      // and each field is the last qualifying index up to k
      (forall j :: g < j <= k ==> !fs[j].graphics) &&
      (forall j :: p < j <= k ==> !fs[j].presentSupport)
  {
    var ix := QueueFamilyIndices(None, None);
    var i := 0;
    while i < |fs|
      invariant 0 <= i <= |fs|
      invariant !CompleteWithin(fs, i - 1)
      invariant ScanFrom(fs, i, ix) == ScanQueueFamilies(fs)
      invariant ix.graphicsFamily.Some? <==> (exists g :: 0 <= g < i && fs[g].graphics)
      invariant ix.presentFamily.Some? <==> (exists p :: 0 <= p < i && fs[p].presentSupport)
      invariant ix.graphicsFamily.Some? ==>
        var g := ix.graphicsFamily.value; g < i && fs[g].graphics && forall j :: g < j < i ==> !fs[j].graphics
      invariant ix.presentFamily.Some? ==>
        var p := ix.presentFamily.value; p < i && fs[p].presentSupport && forall j :: p < j < i ==> !fs[j].presentSupport
    {
      assert ScanFrom(fs, i, ix) == (var n := ScanStep(ix, fs[i], i); if n.IsComplete() then Ok(n) else ScanFrom(fs, i + 1, n));
      if fs[i].graphics { ix := ix.(graphicsFamily := Some(i)); }
      if fs[i].presentSupport { ix := ix.(presentFamily := Some(i)); }
      if ix.IsComplete() {
        assert CompleteWithin(fs, i);
        CompleteWithinMonotone(fs, i, |fs| - 1);
        return Ok(ix);
      }
      i := i + 1;
    }
    return Err(Fatal("Cannot find suitable queue families!"));
  }

  lemma CompleteWithinMonotone(fs: seq<QueueFamily>, k: int, m: int)
    requires k <= m
    requires CompleteWithin(fs, k)
    ensures CompleteWithin(fs, m)
  {
  }

  /** The std::set conversion (operator std::set in one revision, toSet in the
      other): both indices when complete, nothing otherwise. */
  function ToSet(ix: QueueFamilyIndices): set<nat>
  {
    if ix.IsComplete() then {ix.graphicsFamily.value, ix.presentFamily.value} else {}
  }

  /** The std::array<uint32_t, 2> conversion: {graphics, present} when
      complete, zero-initialised otherwise. */
  function ToArray(ix: QueueFamilyIndices): seq<nat>
  {
    if ix.IsComplete() then [ix.graphicsFamily.value, ix.presentFamily.value] else [0, 0]
  }

  /** Complete indices convert to the set of both families, which has one
      element exactly when one family does both jobs, and to the array
      graphics, present; incomplete ones to the empty set and to zeros. */
  lemma ConversionRules(ix: QueueFamilyIndices)
    ensures ix.IsComplete() ==> ToSet(ix) == {ix.graphicsFamily.value, ix.presentFamily.value}
    ensures ix.IsComplete() ==> (|ToSet(ix)| == 1 <==> ix.graphicsFamily == ix.presentFamily)
    ensures !ix.IsComplete() ==> ToSet(ix) == {}
    ensures |ToArray(ix)| == 2
    ensures ix.IsComplete() ==> ToArray(ix)[0] == ix.graphicsFamily.value && ToArray(ix)[1] == ix.presentFamily.value
    ensures !ix.IsComplete() ==> ToArray(ix) == [0, 0]
  {
    if ix.IsComplete() && ix.graphicsFamily != ix.presentFamily {
      assert |ToSet(ix)| == |{ix.graphicsFamily.value}| + 1;
    }
  }

  // ---------------------------------------------------------------------------
  // Instance layers and device extensions

  /** Every requested layer name must equal the name of some available layer;
      the outer loop gives up at the first one that is missing. */
  method CheckValidationLayerSupport(requested: seq<string>, available: seq<string>) returns (ok: bool)
    ensures ok <==> forall i :: 0 <= i < |requested| ==> requested[i] in available
  {
    var i := 0;
    while i < |requested|
      invariant 0 <= i <= |requested|
      invariant forall k :: 0 <= k < i ==> requested[k] in available
    {
      var found := false;
      var j := 0;
      while j < |available|
        invariant 0 <= j <= |available|
        invariant !found ==> requested[i] !in available[..j]
        invariant found ==> requested[i] in available
      {
        if requested[i] == available[j] {
          found := true;
          break;
        }
        j := j + 1;
      }
      if !found {
        assert available[..j] == available;
        return false;
      }
      i := i + 1;
    }
    return true;
  }

  /** size_t arithmetic: `reqSize--` wraps past zero. */
  const SIZE_MODULUS: nat := 0x1_0000_0000_0000_0000

  function WrappingDecrement(n: nat): (r: nat)
    requires n < SIZE_MODULUS
    ensures r < SIZE_MODULUS
    ensures (r + 1) % SIZE_MODULUS == n
  {
    if n == 0 then SIZE_MODULUS - 1 else n - 1
  }

  /** How many entries of `available` carry a required name. */
  function MatchCount(available: seq<string>, required: set<string>): (c: nat)
    ensures c <= |available|
  {
    if available == [] then 0
    else MatchCount(available[..|available| - 1], required) + (if available[|available| - 1] in required then 1 else 0)
  }

  /** The counter starts at the number of distinct required names and is
      decremented once per available extension whose name is required; the
      check passes when it lands on exactly 0. */
  method CheckDeviceExtensionSupport(available: seq<string>, required: seq<string>) returns (ok: bool)
    requires |set n | n in required| < SIZE_MODULUS
    ensures ok <==> (|set n | n in required| - MatchCount(available, set n | n in required)) % SIZE_MODULUS == 0
  {
    var reqExts := set n | n in required;
    var reqSize := |reqExts|;
    var i := 0;
    while i < |available|
      invariant 0 <= i <= |available|
      invariant reqSize < SIZE_MODULUS
      invariant reqSize == (|reqExts| - MatchCount(available[..i], reqExts)) % SIZE_MODULUS
    {
      assert available[..i + 1][..i] == available[..i];
      if available[i] in reqExts {
        reqSize := WrappingDecrement(reqSize);
      }
      i := i + 1;
    }
    assert available[..|available|] == available;
    return reqSize == 0;
  }

  /** With no extension advertised twice, the counter reaches 0 exactly when
      every required name is advertised. */
  lemma {:induction false} ExtensionCheckMeansAllAvailable(available: seq<string>, required: set<string>)
    requires forall i, j :: 0 <= i < j < |available| ==> available[i] != available[j]
    requires |required| < SIZE_MODULUS
    ensures (|required| - MatchCount(available, required)) % SIZE_MODULUS == 0
        <==> required <= set n | n in available
  {
    DistinctMatchCount(available, required);
    var seen := set n | n in available;
    var hit := required * seen;
    if required <= seen {
      assert hit == required;
    } else {
      var x :| x in required && x !in seen;
      assert hit <= required - {x};
      SubsetCard(hit, required - {x});
    }
  }

  lemma SubsetCard<T>(a: set<T>, b: set<T>)
    requires a <= b
    ensures |a| <= |b|
  {
    if a != {} {
      var x :| x in a;
      SubsetCard(a - {x}, b - {x});
    }
  }

  /** On a duplicate-free list the count is the number of required names present. */
  lemma {:induction false} DistinctMatchCount(available: seq<string>, required: set<string>)
    requires forall i, j :: 0 <= i < j < |available| ==> available[i] != available[j]
    ensures MatchCount(available, required) == |required * (set n | n in available)|
  {
    if available != [] {
      var init := available[..|available| - 1];
      var last := available[|available| - 1];
      DistinctMatchCount(init, required);
      var before := set n | n in init;
      NamesOfSnoc(available, init, last);
      assert last !in before;
      CommonGrows(required, before, last);
      assert MatchCount(available, required) == MatchCount(init, required) + (if last in required then 1 else 0);
    }
  }

  lemma NamesOfSnoc(available: seq<string>, init: seq<string>, last: string)
    requires available == init + [last]
    ensures (set n | n in available) == (set n | n in init) + {last}
  {
  }

  lemma CommonGrows(required: set<string>, before: set<string>, last: string)
    requires last !in before
    ensures |required * (before + {last})| == |required * before| + (if last in required then 1 else 0)
  {
    var common := required * before;
    if last in required {
      assert required * (before + {last}) == common + {last};
    } else {
      assert required * (before + {last}) == common;
    }
  }

  /** A concrete instance of the wrap: one required name advertised twice
      drives the counter past zero, and the check fails although the name is
      present. */
  lemma DuplicateExtensionFailsCheck()
    ensures (|{"VK_KHR_swapchain"}| - MatchCount(["VK_KHR_swapchain", "VK_KHR_swapchain"], {"VK_KHR_swapchain"})) % SIZE_MODULUS != 0
  {
    assert MatchCount(["VK_KHR_swapchain"], {"VK_KHR_swapchain"}) == 1 by {
      assert ["VK_KHR_swapchain"][..0] == [];
    }
    assert ["VK_KHR_swapchain", "VK_KHR_swapchain"][..1] == ["VK_KHR_swapchain"];
  }

  // ---------------------------------------------------------------------------
  // Swapchain surface format, present mode and extent

  predicate IsPreferredFormat(f: SurfaceFormat)
  {
    f.format == B8G8R8A8Srgb && f.colorSpace == SrgbNonlinear
  }

  /** Position of the first preferred format, if there is one. */
  function PreferredFormatIndex(fs: seq<SurfaceFormat>): Option<nat>
  {
    if fs == [] then None
    else if IsPreferredFormat(fs[0]) then Some(0)
    else match PreferredFormatIndex(fs[1..])
      case None => None
      case Some(k) => Some(k + 1)
  }

  /** The first B8G8R8A8Srgb / SrgbNonlinear entry, else the first entry. */
  function ChooseSwapSurfaceFormat(fs: seq<SurfaceFormat>): (r: SurfaceFormat)
    requires |fs| > 0
    ensures r in fs && (IsPreferredFormat(r) || r == fs[0])
  {
    PreferredFormatIndexSpec(fs);
    match PreferredFormatIndex(fs)
      case Some(k) => fs[k]
      case None => fs[0]
  }

  /** The index found is that of a preferred entry with none before it, and
      there is none only when no entry is preferred. */
  lemma {:induction false} PreferredFormatIndexSpec(fs: seq<SurfaceFormat>)
    ensures var r := PreferredFormatIndex(fs);
      r.Some? ==> (r.value < |fs| && IsPreferredFormat(fs[r.value])
                   && forall j :: 0 <= j < r.value ==> !IsPreferredFormat(fs[j]))
    ensures PreferredFormatIndex(fs).None? ==> forall j :: 0 <= j < |fs| ==> !IsPreferredFormat(fs[j])
  {
    if fs != [] && !IsPreferredFormat(fs[0]) {
      PreferredFormatIndexSpec(fs[1..]);
      assert forall j :: 1 <= j < |fs| ==> fs[j] == fs[1..][j - 1];
    }
  }

  /** The chosen format is preferred exactly when some entry is, it is the
      first entry when none is, and no preferred entry comes before it. */
  lemma SurfaceFormatChoice(fs: seq<SurfaceFormat>)
    requires |fs| > 0
    ensures ChooseSwapSurfaceFormat(fs) in fs
    ensures IsPreferredFormat(ChooseSwapSurfaceFormat(fs)) <==> exists i :: 0 <= i < |fs| && IsPreferredFormat(fs[i])
    ensures (forall i :: 0 <= i < |fs| ==> !IsPreferredFormat(fs[i])) ==> ChooseSwapSurfaceFormat(fs) == fs[0]
    ensures forall i :: 0 <= i < |fs| && IsPreferredFormat(fs[i]) ==>
      exists k :: 0 <= k <= i && fs[k] == ChooseSwapSurfaceFormat(fs)
  {
    PreferredFormatIndexSpec(fs);
  }

  /** Mailbox when the surface offers it, otherwise FIFO. */
  function ChooseSwapPresentMode(modes: seq<PresentMode>): (r: PresentMode)
    ensures r == Mailbox || r == Fifo
    ensures r == Mailbox ==> Mailbox in modes
  {
    if modes == [] then Fifo
    else if modes[0] == Mailbox then Mailbox
    else ChooseSwapPresentMode(modes[1..])
  }

  /** Mailbox exactly when the surface offers it; FIFO in every other case. */
  lemma {:induction false} PresentModeChoice(modes: seq<PresentMode>)
    ensures ChooseSwapPresentMode(modes) == Mailbox <==> Mailbox in modes
    ensures ChooseSwapPresentMode(modes) != Mailbox ==> ChooseSwapPresentMode(modes) == Fifo
  {
    if modes != [] && modes[0] != Mailbox {
      PresentModeChoice(modes[1..]);
      assert modes == [modes[0]] + modes[1..];
    }
  }

  /** VK_KHR_surface requires every surface to support FIFO, and under that
      guarantee the chosen mode is always one the surface offers. */
  lemma ChosenPresentModeIsOffered(modes: seq<PresentMode>)
    requires Fifo in modes
    ensures ChooseSwapPresentMode(modes) in modes
  {
    PresentModeChoice(modes);
  }

  function Clamp(v: nat, lo: nat, hi: nat): nat
    requires lo <= hi
  {
    if v < lo then lo else if hi < v then hi else v
  }

  /** The surface's current extent when it reports one; otherwise each axis
      of the window's framebuffer size, kept when it is in the allowed range
      and moved to the nearer bound when it is not. */
  function ChooseSwapExtent(caps: SurfaceCapabilities, bufferSize: Extent2D): (r: Extent2D)
    requires caps.currentExtent.width == UINT32_MAX ==>
      caps.minImageExtent.width <= caps.maxImageExtent.width &&
      caps.minImageExtent.height <= caps.maxImageExtent.height
    ensures caps.currentExtent.width != UINT32_MAX ==> r == caps.currentExtent
    ensures caps.currentExtent.width == UINT32_MAX ==>
      caps.minImageExtent.width <= r.width <= caps.maxImageExtent.width &&
      caps.minImageExtent.height <= r.height <= caps.maxImageExtent.height &&
      (caps.minImageExtent.width <= bufferSize.width <= caps.maxImageExtent.width ==> r.width == bufferSize.width) &&
      (caps.minImageExtent.height <= bufferSize.height <= caps.maxImageExtent.height ==> r.height == bufferSize.height) &&
      (bufferSize.width < caps.minImageExtent.width ==> r.width == caps.minImageExtent.width) &&
      (bufferSize.width > caps.maxImageExtent.width ==> r.width == caps.maxImageExtent.width) &&
      (bufferSize.height < caps.minImageExtent.height ==> r.height == caps.minImageExtent.height) &&
      (bufferSize.height > caps.maxImageExtent.height ==> r.height == caps.maxImageExtent.height)
  {
    if caps.currentExtent.width != UINT32_MAX then caps.currentExtent
    else Extent2D(
      Clamp(bufferSize.width, caps.minImageExtent.width, caps.maxImageExtent.width),
      Clamp(bufferSize.height, caps.minImageExtent.height, caps.maxImageExtent.height))
  }

  // ---------------------------------------------------------------------------
  // Formats and memory

  predicate HasStencilComponent(f: Format)
  {
    f == D32SfloatS8Uint || f == D24UnormS8Uint
  }

  /** VK_MAX_MEMORY_TYPES: the memory-type array has 32 slots. */
  const MAX_MEMORY_TYPES: nat := 32

  /** Memory type i is usable: bit i of the filter is set and its property
      flags include every requested property. */
  predicate MemoryTypeSuitable(typeFlags: seq<bv32>, typeFilter: bv32, properties: bv32, i: nat)
    requires i < |typeFlags| <= MAX_MEMORY_TYPES
  {
    typeFilter & (1 as bv32 << i) != 0 && typeFlags[i] & properties == properties
  }

  /** The first usable memory type from index i on, or the search's
      failure. */
  function SuitableTypeFrom(typeFlags: seq<bv32>, typeFilter: bv32, properties: bv32, i: nat): Result<nat>
    requires |typeFlags| <= MAX_MEMORY_TYPES && i <= |typeFlags|
    decreases |typeFlags| - i
  {
    if i == |typeFlags| then Err(Fatal("failed to find suitable memory type!"))
    else if MemoryTypeSuitable(typeFlags, typeFilter, properties, i) then Ok(i)
    else SuitableTypeFrom(typeFlags, typeFilter, properties, i + 1)
  }

  /** The memory type findMemoryType returns: the least usable index below
      memoryTypeCount (the length of `typeFlags`). */
  function SuitableType(typeFlags: seq<bv32>, typeFilter: bv32, properties: bv32): Result<nat>
    requires |typeFlags| <= MAX_MEMORY_TYPES
  {
    SuitableTypeFrom(typeFlags, typeFilter, properties, 0)
  }

  lemma {:induction false} SuitableTypeFromSpec(typeFlags: seq<bv32>, typeFilter: bv32, properties: bv32, i: nat)
    requires |typeFlags| <= MAX_MEMORY_TYPES && i <= |typeFlags|
    ensures var r := SuitableTypeFrom(typeFlags, typeFilter, properties, i);
      (r.Ok? ==> i <= r.value < |typeFlags| && MemoryTypeSuitable(typeFlags, typeFilter, properties, r.value)
                 && forall j :: i <= j < r.value ==> !MemoryTypeSuitable(typeFlags, typeFilter, properties, j))
      && (r.Err? ==> r.error == Fatal("failed to find suitable memory type!")
                     && forall j :: i <= j < |typeFlags| ==> !MemoryTypeSuitable(typeFlags, typeFilter, properties, j))
    decreases |typeFlags| - i
  {
    if i < |typeFlags| && !MemoryTypeSuitable(typeFlags, typeFilter, properties, i) {
      SuitableTypeFromSpec(typeFlags, typeFilter, properties, i + 1);
    }
  }

  /** findMemoryType's answer is the least usable memory type, and it
      raises exactly when no type is usable. */
  lemma SuitableTypeSpec(typeFlags: seq<bv32>, typeFilter: bv32, properties: bv32)
    requires |typeFlags| <= MAX_MEMORY_TYPES
    ensures var r := SuitableType(typeFlags, typeFilter, properties);
      (r.Ok? ==> r.value < |typeFlags| && MemoryTypeSuitable(typeFlags, typeFilter, properties, r.value)
                 && forall j :: 0 <= j < r.value ==> !MemoryTypeSuitable(typeFlags, typeFilter, properties, j))
      && (r.Err? <==> forall j :: 0 <= j < |typeFlags| ==> !MemoryTypeSuitable(typeFlags, typeFilter, properties, j))
  {
    SuitableTypeFromSpec(typeFlags, typeFilter, properties, 0);
  }

  /** findMemoryType: scans the memory types in index order and returns
      the first usable one; raises when the scan ends without one. */
  method FindMemoryType(typeFlags: seq<bv32>, typeFilter: bv32, properties: bv32) returns (r: Result<nat>)
    requires |typeFlags| <= MAX_MEMORY_TYPES
    ensures r == SuitableType(typeFlags, typeFilter, properties)
  {
    var i := 0;
    while i < |typeFlags|
      invariant 0 <= i <= |typeFlags|
      invariant SuitableTypeFrom(typeFlags, typeFilter, properties, i) == SuitableType(typeFlags, typeFilter, properties)
    {
      if typeFilter & (1 as bv32 << i) != 0 && typeFlags[i] & properties == properties {
        return Ok(i);
      }
      i := i + 1;
    }
    r := Err(Fatal("failed to find suitable memory type!"));
  }

  /** The sample counts tried, highest first.  A VkSampleCountFlags mask is
      modelled as the set of counts whose bit it has set, so `&` of two masks
      is set intersection. */
  const SAMPLE_CANDIDATES: seq<nat> := [64, 32, 16, 8, 4, 2]

  /** Index of the first candidate, from position k on, present in `counts`. */
  function FirstSampleCountFrom(counts: set<nat>, k: nat): (r: Option<nat>)
    requires k <= |SAMPLE_CANDIDATES|
    ensures r.Some? ==> k <= r.value < |SAMPLE_CANDIDATES| && SAMPLE_CANDIDATES[r.value] in counts
    ensures r.Some? ==> forall j :: k <= j < r.value ==> SAMPLE_CANDIDATES[j] !in counts
    ensures r.None? ==> forall j :: k <= j < |SAMPLE_CANDIDATES| ==> SAMPLE_CANDIDATES[j] !in counts
    decreases |SAMPLE_CANDIDATES| - k
  {
    if k == |SAMPLE_CANDIDATES| then None
    else if SAMPLE_CANDIDATES[k] in counts then Some(k)
    else FirstSampleCountFrom(counts, k + 1)
  }

  /** The highest of 64 ... 2 samples that both colour and depth framebuffers
      support, else 1.  The if-chain of the source tries the candidates from
      the top; so does the walk over SAMPLE_CANDIDATES. */
  function GetMaxUsableSampleCount(colorCounts: set<nat>, depthCounts: set<nat>): (r: nat)
    ensures r == 1 || r in SAMPLE_CANDIDATES
    ensures r != 1 ==> r in colorCounts && r in depthCounts
    ensures forall c :: c in SAMPLE_CANDIDATES && c > r ==> c !in colorCounts * depthCounts
  {
    match FirstSampleCountFrom(colorCounts * depthCounts, 0)
      case Some(k) => SAMPLE_CANDIDATES[k]
      case None => 1
  }

  /** The device's answers to vkGetPhysicalDeviceFormatProperties; a format
      the table does not list supports no feature. */
  type FormatTable = map<Format, FormatProperties>

  function PropertiesOf(table: FormatTable, f: Format): FormatProperties
  {
    if f in table then table[f] else FormatProperties({}, {})
  }

  /** The candidate supports the requested features with the given tiling,
      `(tilingFeatures & features) == features`; any tiling other than linear
      or optimal never qualifies. */
  predicate FormatSupports(props: FormatProperties, tiling: ImageTiling, features: set<FormatFeature>)
  {
    match tiling
      case Linear => features <= props.linearTilingFeatures
      case Optimal => features <= props.optimalTilingFeatures
      case DrmFormatModifier => false
  }

  /** The first candidate whose tiling-specific features include the requested
      ones; raises when none does.  `props` answers the device's format query. */
  function FindSupportedFormat(candidates: seq<Format>, props: FormatTable,
                               tiling: ImageTiling, features: set<FormatFeature>): (r: Result<Format>)
    ensures r.Err? ==> r.error == Fatal("failed to find supported format!")
  {
    if candidates == [] then Err(Fatal("failed to find supported format!"))
    else if FormatSupports(PropertiesOf(props, candidates[0]), tiling, features) then Ok(candidates[0])
    else FindSupportedFormat(candidates[1..], props, tiling, features)
  }

  /** The result is a candidate that supports the features with no earlier
      candidate doing so, and the search raises exactly when no candidate
      supports them. */
  lemma {:induction false} FindSupportedFormatSpec(candidates: seq<Format>, props: FormatTable,
                                                   tiling: ImageTiling, features: set<FormatFeature>)
    ensures var r := FindSupportedFormat(candidates, props, tiling, features);
      r.Ok? ==> (FormatSupports(PropertiesOf(props, r.value), tiling, features)
                 && exists i :: (0 <= i < |candidates| && candidates[i] == r.value
                   && forall j :: 0 <= j < i ==> !FormatSupports(PropertiesOf(props, candidates[j]), tiling, features)))
    ensures FindSupportedFormat(candidates, props, tiling, features).Err? <==>
      forall j :: 0 <= j < |candidates| ==> !FormatSupports(PropertiesOf(props, candidates[j]), tiling, features)
  {
    if candidates != [] && !FormatSupports(PropertiesOf(props, candidates[0]), tiling, features) {
      FindSupportedFormatSpec(candidates[1..], props, tiling, features);
      assert forall j :: 1 <= j < |candidates| ==> candidates[j] == candidates[1..][j - 1];
      var r := FindSupportedFormat(candidates, props, tiling, features);
      if r.Ok? {
        var i :| 0 <= i < |candidates[1..]| && candidates[1..][i] == r.value
          && forall j :: 0 <= j < i ==> !FormatSupports(PropertiesOf(props, candidates[1..][j]), tiling, features);
        assert candidates[i + 1] == r.value;
      }
    }
  }

  /** VulkanGraphics::findDepthFormat (both revisions): the first of the three
      depth formats usable as an optimally tiled depth/stencil attachment. */
  const DEPTH_CANDIDATES: seq<Format> := [D32Sfloat, D32SfloatS8Uint, D24UnormS8Uint]

  function FindDepthFormat(props: FormatTable): (r: Result<Format>)
    ensures r.Err? ==> r.error == Fatal("failed to find supported format!")
  {
    FindSupportedFormat(DEPTH_CANDIDATES, props, Optimal, {DepthStencilAttachment})
  }

  predicate DepthUsable(props: FormatTable, f: Format)
  {
    FormatSupports(PropertiesOf(props, f), Optimal, {DepthStencilAttachment})
  }

  /** The depth formats are tried in the order 32-bit float, 32-bit float
      with stencil, 24-bit normalised with stencil. */
  lemma DepthFormatPreference(props: FormatTable)
    ensures FindDepthFormat(props) ==
      if DepthUsable(props, D32Sfloat) then Ok(D32Sfloat)
      else if DepthUsable(props, D32SfloatS8Uint) then Ok(D32SfloatS8Uint)
      else if DepthUsable(props, D24UnormS8Uint) then Ok(D24UnormS8Uint)
      else Err(Fatal("failed to find supported format!"))
  {
    var feats: set<FormatFeature> := {DepthStencilAttachment};
    var c1: seq<Format> := [D32SfloatS8Uint, D24UnormS8Uint];
    var c2: seq<Format> := [D24UnormS8Uint];
    assert DEPTH_CANDIDATES[1..] == c1 && c1[1..] == c2 && c2[1..] == [];
    assert FindSupportedFormat(c2, props, Optimal, feats)
      == if DepthUsable(props, D24UnormS8Uint) then Ok(D24UnormS8Uint)
         else FindSupportedFormat([], props, Optimal, feats);
    assert FindSupportedFormat(c1, props, Optimal, feats)
      == if DepthUsable(props, D32SfloatS8Uint) then Ok(D32SfloatS8Uint)
         else FindSupportedFormat(c2, props, Optimal, feats);
    assert FindSupportedFormat(DEPTH_CANDIDATES, props, Optimal, feats)
      == if DepthUsable(props, D32Sfloat) then Ok(D32Sfloat)
         else FindSupportedFormat(c1, props, Optimal, feats);
  }

  /** hasStencilComponent on the chosen depth format: it has a stencil
      aspect exactly when the stencil-free 32-bit float format is not usable. */
  lemma DepthFormatStencil(props: FormatTable)
    requires FindDepthFormat(props).Ok?
    ensures HasStencilComponent(FindDepthFormat(props).value) <==> !DepthUsable(props, D32Sfloat)
  {
    DepthFormatPreference(props);
  }
}
