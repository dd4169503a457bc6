/**
 * `SwapchainManager`: picks the present mode, colour and depth formats for a
 * surface, creates the swapchain with one view per image, steps the frame
 * counter and acquires images after waiting on the frame's in-flight fence.
 */
module SwapchainManager {
  import opened Outcomes
  import opened Vulkan
  import opened Search
  import Scheduler

  const Uint32Limit: nat := 0x1_0000_0000

  datatype ImageProperties = ImageProperties(
    colorFormat: Format,
    colorSpace: ColorSpace,
    depthFormat: Format,
    presentMode: PresentMode,
    images: nat,
    extent: Extent2D)

  // ---------------------------------------------------------------------------
  // Present mode
  // ---------------------------------------------------------------------------

  /** The preference order of `pick_present_mode`. */
  function DesiredPresentModes(frames: nat, vsync: bool): seq<PresentMode> {
    if frames == 1 then [Immediate]
    else if vsync then [Mailbox, Fifo, FifoRelaxed, Immediate]
    else [Immediate, FifoRelaxed, Fifo, Mailbox]
  }

  /** `pick_present_mode`: the first preferred mode the surface supports, else an error. */
  function PickPresentMode(frames: nat, vsync: bool, available: seq<PresentMode>): (r: Result<PresentMode>)
    ensures r.Ok? ==> r.value in available && IsFirstAccepted(DesiredPresentModes(frames, vsync), m => m in available, r.value)
    ensures r.Err? <==> forall m :: m in DesiredPresentModes(frames, vsync) ==> m !in available
    ensures r.Err? ==> r.error == NoSuitablePresentMode
  {
    match FirstAccepted(DesiredPresentModes(frames, vsync), m => m in available)
    case None => Err(NoSuitablePresentMode)
    case Some(m) => Ok(m)
  }

  /** With one frame only Immediate is acceptable. */
  lemma SingleFrameNeedsImmediate(vsync: bool, available: seq<PresentMode>)
    ensures PickPresentMode(1, vsync, available) == (if Immediate in available then Ok(Immediate) else Err(NoSuitablePresentMode))
  {
    if Immediate in available {
      FirstAcceptedUnique(DesiredPresentModes(1, vsync), m => m in available, PickPresentMode(1, vsync, available).value, Immediate);
    }
  }

  /** With more frames the order without vsync is the vsync order reversed. */
  lemma PresentModeOrdersReversed(frames: nat)
    requires frames != 1
    ensures DesiredPresentModes(frames, false) == Reverse(DesiredPresentModes(frames, true))
  {
    var r := Reverse(DesiredPresentModes(frames, true));
    assert r[0] == Immediate && r[1] == FifoRelaxed && r[2] == Fifo && r[3] == Mailbox;
  }

  /**
   * With more frames the request fails only on a surface offering nothing but
   * the shared modes, with or without vsync.
   */
  lemma PresentModeFailsOnlyOnShared(frames: nat, vsync: bool, available: seq<PresentMode>)
    requires frames != 1
    ensures PickPresentMode(frames, vsync, available).Err? <==>
      forall m :: m in available ==> m.SharedDemandRefresh? || m.SharedContinuousRefresh?
  {
    var desired := DesiredPresentModes(frames, vsync);
    assert forall m :: m in desired <==> !(m.SharedDemandRefresh? || m.SharedContinuousRefresh?);
  }

  function Reverse<T>(s: seq<T>): (r: seq<T>)
    ensures |r| == |s| && forall i :: 0 <= i < |s| ==> r[i] == s[|s| - 1 - i]
  {
    if s == [] then [] else Reverse(s[1..]) + [s[0]]
  }

  /** With vsync the surface's mailbox mode wins whenever it is offered. */
  lemma VsyncPrefersMailbox(frames: nat, available: seq<PresentMode>)
    requires frames != 1 && Mailbox in available
    ensures PickPresentMode(frames, true, available) == Ok(Mailbox)
  {
    FirstAcceptedUnique(DesiredPresentModes(frames, true), m => m in available, PickPresentMode(frames, true, available).value, Mailbox);
  }

  // ---------------------------------------------------------------------------
  // Colour and depth formats
  // ---------------------------------------------------------------------------

  const DesiredColorFormats: seq<Format> := [FormatB8G8R8A8Srgb, FormatR8G8B8A8Srgb, FormatR8G8B8A8Unorm, FormatB8G8R8A8Unorm]

  /** The formats the surface offers in the sRGB non-linear colour space, in the order offered. */
  function SrgbFormats(surfaceFormats: seq<SurfaceFormat>): (r: seq<Format>)
    ensures forall f :: f in r <==> SurfaceFormat(f, SrgbNonlinear) in surfaceFormats
  {
    if surfaceFormats == [] then []
    else
      var rest := SrgbFormats(surfaceFormats[1..]);
      assert forall sf :: sf in surfaceFormats <==> sf == surfaceFormats[0] || sf in surfaceFormats[1..];
      if surfaceFormats[0].colorSpace == SrgbNonlinear then [surfaceFormats[0].format] + rest else rest
  }

  /**
   * `pick_color_format`: the first preferred format the surface offers in the
   * sRGB non-linear colour space, always paired with that colour space.
   */
  function PickColorFormat(surfaceFormats: seq<SurfaceFormat>): (r: Result<(Format, ColorSpace)>)
    ensures r.Ok? ==> r.value.1 == SrgbNonlinear && SurfaceFormat(r.value.0, SrgbNonlinear) in surfaceFormats
    ensures r.Ok? ==> IsFirstAccepted(DesiredColorFormats, f => SurfaceFormat(f, SrgbNonlinear) in surfaceFormats, r.value.0)
    ensures r.Err? <==> forall f :: f in DesiredColorFormats ==> SurfaceFormat(f, SrgbNonlinear) !in surfaceFormats
    ensures r.Err? ==> r.error == NoSuitableColorFormat
  {
    var srgb := SrgbFormats(surfaceFormats);
    match FirstAccepted(DesiredColorFormats, f => f in srgb)
    case None => Err(NoSuitableColorFormat)
    case Some(f) =>
      FirstAcceptedSameFilter(DesiredColorFormats, f => f in srgb, f => SurfaceFormat(f, SrgbNonlinear) in surfaceFormats, f);
      Ok((f, SrgbNonlinear))
  }

  const DesiredDepthFormats: seq<Format> :=
    [FormatD32Sfloat, FormatD32SfloatS8Uint, FormatX8D24UnormPack32, FormatD16Unorm, FormatD24UnormS8Uint, FormatD16UnormS8Uint]

  /** The depth formats usable with optimal tiling on a device whose format table is `properties`. */
  predicate OptimalDepthCapable(properties: Format -> FormatProperties, f: Format) {
    DepthStencilAttachment in properties(f).optimalTilingFeatures
  }

  /** `pick_depth_format`: the first of the six depth formats with optimal-tiling depth support. */
  function PickDepthFormat(properties: Format -> FormatProperties): (r: Result<Format>)
    ensures r.Ok? ==> IsFirstAccepted(DesiredDepthFormats, f => OptimalDepthCapable(properties, f), r.value)
    ensures r.Err? <==> forall f :: f in DesiredDepthFormats ==> !OptimalDepthCapable(properties, f)
    ensures r.Err? ==> r.error == NoSuitableDepthFormat
  {
    match FirstAccepted(DesiredDepthFormats, f => OptimalDepthCapable(properties, f))
    case None => Err(NoSuitableDepthFormat)
    case Some(f) => Ok(f)
  }

  /** The surface queries `pick_properties` reads. */
  datatype SurfaceQueries = SurfaceQueries(
    formats: seq<SurfaceFormat>,
    presentModes: seq<PresentMode>,
    capabilities: SurfaceCapabilities)

  /**
   * `pick_properties`: colour format first, then depth format, then present
   * mode (the order of evaluation), with `images = frames` and the surface's
   * current extent.
   */
  function PickProperties(surface: SurfaceQueries, formatProperties: Format -> FormatProperties, frames: nat, vsync: bool): (r: Result<ImageProperties>)
    ensures r.Ok? <==> PickColorFormat(surface.formats).Ok? && PickDepthFormat(formatProperties).Ok?
                       && PickPresentMode(frames, vsync, surface.presentModes).Ok?
    ensures r.Ok? ==> r.value == ImageProperties(
      PickColorFormat(surface.formats).value.0, SrgbNonlinear,
      PickDepthFormat(formatProperties).value, PickPresentMode(frames, vsync, surface.presentModes).value,
      frames, surface.capabilities.currentExtent)
    ensures PickColorFormat(surface.formats).Err? ==> r == Err(NoSuitableColorFormat)
  {
    match PickColorFormat(surface.formats)
    case Err(e) => Err(e)
    case Ok((colorFormat, colorSpace)) =>
      match PickDepthFormat(formatProperties)
      case Err(e) => Err(e)
      case Ok(depthFormat) =>
        match PickPresentMode(frames, vsync, surface.presentModes)
        case Err(e) => Err(e)
        case Ok(presentMode) =>
          Ok(ImageProperties(colorFormat, colorSpace, depthFormat, presentMode, frames, surface.capabilities.currentExtent))
  }

  // ---------------------------------------------------------------------------
  // Swapchain creation
  // ---------------------------------------------------------------------------

  /** The fields of `vk::SwapchainCreateInfoKHR` the library fills from its own state. */
  datatype SwapchainCreateInfo = SwapchainCreateInfo(
    minImageCount: nat,
    format: Format,
    colorSpace: ColorSpace,
    extent: Extent2D,
    sharingMode: SharingMode,
    queueFamilies: seq<nat>,
    presentMode: PresentMode,
    oldSwapchain: Handle)

  /** The `small_flat_set` of the graphics and present families, as its sorted sequence. */
  function AccessibleFamilies(graphics: nat, present: nat): (r: seq<nat>)
    ensures forall i, j :: 0 <= i < j < |r| ==> r[i] < r[j]
    ensures forall f :: f in r <==> f == graphics || f == present
  {
    if graphics == present then [graphics]
    else if graphics < present then [graphics, present]
    else [present, graphics]
  }

  /** `make_swapchain`'s create-info: concurrent sharing exactly when the two families differ. */
  function SwapchainCreateInfoFor(
    format: Format, colorSpace: ColorSpace, images: nat, extent: Extent2D, presentMode: PresentMode,
    graphics: nat, present: nat, oldSwapchain: Handle): (r: SwapchainCreateInfo)
    ensures r.sharingMode == Concurrent <==> graphics != present
    ensures r.sharingMode == SharingFor({graphics, present})
    ensures r.queueFamilies == AccessibleFamilies(graphics, present)
    ensures r.minImageCount == images && r.format == format && r.colorSpace == colorSpace
    ensures r.extent == extent && r.presentMode == presentMode && r.oldSwapchain == oldSwapchain
  {
    var families := AccessibleFamilies(graphics, present);
    var sharing := if |families| > 1 then Concurrent else Exclusive;
    assert graphics == present ==> |{graphics, present}| == 1;
    assert graphics != present ==> |{graphics, present}| == 2;
    SwapchainCreateInfo(images, format, colorSpace, extent, sharing, families, presentMode, oldSwapchain)
  }

  /** `make_views`: one fresh image view per swapchain image, in order. */
  method MakeViews(device: Device, images: seq<Handle>) returns (views: seq<Handle>)
    modifies device`nextId
    ensures views == FreshHandles(old(device.nextId), |images|) && device.nextId == old(device.nextId) + |images|
  {
    views := [];
    var i := 0;
    while i < |images|
      invariant 0 <= i <= |images|
      invariant views == FreshHandles(old(device.nextId), i) && device.nextId == old(device.nextId) + i
    {
      var view := device.Create();
      views := views + [view];
      i := i + 1;
    }
  }

  // ---------------------------------------------------------------------------
  // Frame counter
  // ---------------------------------------------------------------------------

  /** `get_next_frame`: `(currentFrame + 1) % images` on `uint32_t`, where the increment wraps. */
  function NextFrame(current: nat, images: nat): (r: nat)
    requires 0 < images && current < Uint32Limit
    ensures r < images
  {
    ((current + 1) % Uint32Limit) % images
  }

  /** The frame reached after `k` steps from frame 0. */
  function FrameAfter(images: nat, k: nat): (r: nat)
    requires 0 < images < Uint32Limit
    ensures r < images
  {
    if k == 0 then 0 else NextFrame(FrameAfter(images, k - 1), images)
  }

  /** The first round from frame 0 visits `0, 1, .., images - 1` in order. */
  lemma {:induction false} FirstRoundInOrder(images: nat, k: nat)
    requires 0 < images < Uint32Limit && k < images
    ensures FrameAfter(images, k) == k
  {
    if k > 0 {
      FirstRoundInOrder(images, k - 1);
      SmallMod(k, Uint32Limit);
      SmallMod(k, images);
      assert FrameAfter(images, k) == (k % Uint32Limit) % images;
    }
  }

  lemma SmallMod(a: nat, n: nat)
    requires a < n
    ensures a % n == a
  {
  }

  /** After `images` steps the counter is back where it was: it cycles with period `images`. */
  lemma {:induction false} FramesCycle(images: nat, k: nat)
    requires 0 < images < Uint32Limit
    ensures FrameAfter(images, k + images) == FrameAfter(images, k)
  {
    if k == 0 {
      FirstRoundInOrder(images, images - 1);
      SmallMod(images, Uint32Limit);
      assert FrameAfter(images, images) == (images % Uint32Limit) % images;
    } else {
      FramesCycle(images, k - 1);
      assert k - 1 + images == k + images - 1;
    }
  }

  // ---------------------------------------------------------------------------
  // The manager object
  // ---------------------------------------------------------------------------

  /**
   * The state of a `SwapchainManager`. The C++ class derives from
   * `SchedulerBase`; here the scheduler is a separate object it refers to.
   */
  class SwapchainManager {
    const scheduler: Scheduler.Scheduler
    const properties: ImageProperties
    const createInfo: SwapchainCreateInfo
    const swapchain: Handle
    const images: seq<Handle>
    const views: seq<Handle>

    constructor FromParts(scheduler: Scheduler.Scheduler, properties: ImageProperties, createInfo: SwapchainCreateInfo,
                          swapchain: Handle, images: seq<Handle>, views: seq<Handle>)
      ensures this.scheduler == scheduler && this.properties == properties && this.createInfo == createInfo
      ensures this.swapchain == swapchain && this.images == images && this.views == views
    {
      this.scheduler := scheduler;
      this.properties := properties;
      this.createInfo := createInfo;
      this.swapchain := swapchain;
      this.images := images;
      this.views := views;
    }

    /**
     * `SwapchainManager(frames, vsync)`: picks the properties, creates the
     * swapchain (no old one), takes the images the driver reports
     * (`driverImages`) and makes one view per image. A failing pick is the
     * constructor's exception and creates nothing.
     */
    static method Make(scheduler: Scheduler.Scheduler, surface: SurfaceQueries, formatProperties: Format -> FormatProperties,
                       graphicsFamily: nat, presentFamily: nat, frames: nat, vsync: bool, driverImages: seq<Handle>)
      returns (r: Result<SwapchainManager>)
      modifies scheduler.device`nextId
      ensures PickProperties(surface, formatProperties, frames, vsync).Err? ==>
                r == Err(PickProperties(surface, formatProperties, frames, vsync).error) && unchanged(scheduler.device)
      ensures PickProperties(surface, formatProperties, frames, vsync).Ok? ==> r.Ok? && fresh(r.value)
      ensures r.Ok? ==> r.value.scheduler == scheduler && r.value.properties == PickProperties(surface, formatProperties, frames, vsync).value
      ensures r.Ok? ==> r.value.images == driverImages && |r.value.views| == |driverImages|
      ensures r.Ok? ==> r.value.createInfo == SwapchainCreateInfoFor(
                r.value.properties.colorFormat, r.value.properties.colorSpace, frames, surface.capabilities.currentExtent,
                r.value.properties.presentMode, graphicsFamily, presentFamily, Null)
    {
      var picked := PickProperties(surface, formatProperties, frames, vsync);
      if picked.Err? {
        return Err(picked.error);
      }
      var properties := picked.value;
      var info := SwapchainCreateInfoFor(properties.colorFormat, properties.colorSpace, properties.images,
                                         properties.extent, properties.presentMode, graphicsFamily, presentFamily, Null);
      var swapchain := scheduler.device.Create();
      var views := MakeViews(scheduler.device, driverImages);
      var manager := new SwapchainManager.FromParts(scheduler, properties, info, swapchain, driverImages, views);
      return Ok(manager);
    }

    /** `get_next_frame`. */
    function GetNextFrame(current: nat): (r: nat)
      requires 0 < properties.images && current < Uint32Limit
      ensures r < properties.images
      ensures current < properties.images < Uint32Limit ==> r == (current + 1) % properties.images
    {
      NextFrame(current, properties.images)
    }

    /**
     * `acquire_next_image`: looks up the frame's image-available semaphore and
     * in-flight fence, waits on the fence (resetting it), then acquires.
     * `waitOutcome` and `acquireOutcome` are the driver's answers and
     * `acquiredImage` the index it reports; anything but success, suboptimal
     * included, is an error.
     */
    method AcquireNextImage(nextFrame: nat, waitOutcome: VkResult, acquireOutcome: VkResult, acquiredImage: nat)
      returns (r: Result<nat>)
      requires scheduler.sync.HasFrames(scheduler.frames)
      modifies scheduler.device`fenceSignaled
      ensures nextFrame >= scheduler.frames ==> r == Err(OutOfRange) && unchanged(scheduler.device)
      ensures nextFrame < scheduler.frames && waitOutcome != Success ==> r == Err(FenceWaitFailed) && unchanged(scheduler.device)
      ensures nextFrame < scheduler.frames && waitOutcome == Success ==>
                scheduler.device.fenceSignaled == old(scheduler.device.fenceSignaled)[scheduler.sync.inFlight[nextFrame] := false]
                && r == (if acquireOutcome == Success then Ok(acquiredImage) else Err(AcquireFailed))
    {
      var semaphore := scheduler.ImageAvailableSemaphore(nextFrame);
      if semaphore.Err? {
        return Err(semaphore.error);
      }
      var fence := scheduler.InFlightFence(nextFrame).value;
      var waited := scheduler.WaitFence(fence, waitOutcome);
      if waited.Err? {
        return Err(waited.error);
      }
      if acquireOutcome != Success {
        return Err(AcquireFailed);
      }
      return Ok(acquiredImage);
    }

    /** `make_framebuffers`: one fresh framebuffer per view, in order. */
    method MakeFramebuffers() returns (framebuffers: seq<Handle>)
      modifies scheduler.device`nextId
      ensures framebuffers == FreshHandles(old(scheduler.device.nextId), |views|)
    {
      framebuffers := MakeViews(scheduler.device, views);
    }
  }
}
