/**
 * `Swapchain`: the stand-alone swapchain object with its own property
 * picking (colour formats must also be renderable), validity, reset and
 * move operations, and image acquisition through a scheduler and `SyncTools`.
 */
module Swapchain {
  import opened Outcomes
  import opened Vulkan
  import opened Search
  import SwapchainManager
  import Scheduler
  import SyncTools

  datatype ImageProperties = ImageProperties(
    format: Format,
    colorSpace: ColorSpace,
    images: nat,
    extent: Extent2D,
    presentMode: PresentMode)

  /** `pick_present_mode`: the same preference lists and first-match rule as the swapchain manager's. */
  function PickPresentMode(frames: nat, vsync: bool, available: seq<PresentMode>): (r: Result<PresentMode>)
    ensures r.Ok? ==> IsFirstAccepted(SwapchainManager.DesiredPresentModes(frames, vsync), m => m in available, r.value)
    ensures r.Err? <==> forall m :: m in SwapchainManager.DesiredPresentModes(frames, vsync) ==> m !in available
  {
    SwapchainManager.PickPresentMode(frames, vsync, available)
  }

  /** A desired colour format qualifies when it can be rendered to with optimal tiling and the surface offers it in sRGB. */
  predicate Renderable(formatProperties: Format -> FormatProperties, f: Format) {
    ColorAttachment in formatProperties(f).optimalTilingFeatures
  }

  /** `pick_format`: like the manager's colour pick, but formats without colour-attachment support are skipped. */
  function PickFormat(surfaceFormats: seq<SurfaceFormat>, formatProperties: Format -> FormatProperties): (r: Result<(Format, ColorSpace)>)
    ensures r.Ok? ==> r.value.1 == SrgbNonlinear && SurfaceFormat(r.value.0, SrgbNonlinear) in surfaceFormats
    ensures r.Ok? ==> Renderable(formatProperties, r.value.0)
    ensures r.Ok? ==> IsFirstAccepted(SwapchainManager.DesiredColorFormats,
                                      f => Renderable(formatProperties, f) && SurfaceFormat(f, SrgbNonlinear) in surfaceFormats, r.value.0)
    ensures r.Err? <==> forall f :: f in SwapchainManager.DesiredColorFormats ==>
                          !Renderable(formatProperties, f) || SurfaceFormat(f, SrgbNonlinear) !in surfaceFormats
    ensures r.Err? ==> r.error == NoSuitableColorFormat
  {
    var srgb := SwapchainManager.SrgbFormats(surfaceFormats);
    match FirstAccepted(SwapchainManager.DesiredColorFormats, f => Renderable(formatProperties, f) && f in srgb)
    case None => Err(NoSuitableColorFormat)
    case Some(f) =>
      FirstAcceptedSameFilter(SwapchainManager.DesiredColorFormats,
        f => Renderable(formatProperties, f) && f in srgb,
        f => Renderable(formatProperties, f) && SurfaceFormat(f, SrgbNonlinear) in surfaceFormats, f);
      Ok((f, SrgbNonlinear))
  }

  /**
   * The extra check only ever narrows the choice: when this pick succeeds the
   * manager's succeeds too, and when every desired format is renderable the two
   * agree.
   */
  lemma PickFormatRefinesManager(surfaceFormats: seq<SurfaceFormat>, formatProperties: Format -> FormatProperties)
    ensures PickFormat(surfaceFormats, formatProperties).Ok? ==> SwapchainManager.PickColorFormat(surfaceFormats).Ok?
    ensures (forall f :: f in SwapchainManager.DesiredColorFormats ==> Renderable(formatProperties, f)) ==>
              PickFormat(surfaceFormats, formatProperties) == SwapchainManager.PickColorFormat(surfaceFormats)
  {
    var desired := SwapchainManager.DesiredColorFormats;
    var offered := f => SurfaceFormat(f, SrgbNonlinear) in surfaceFormats;
    var both := f => Renderable(formatProperties, f) && SurfaceFormat(f, SrgbNonlinear) in surfaceFormats;
    var mine := PickFormat(surfaceFormats, formatProperties);
    var theirs := SwapchainManager.PickColorFormat(surfaceFormats);
    if mine.Ok? {
      assert mine.value.0 in desired;
    }
    if forall f :: f in desired ==> Renderable(formatProperties, f) {
      if mine.Ok? {
        FirstAcceptedSameFilter(desired, both, offered, mine.value.0);
        FirstAcceptedUnique(desired, offered, mine.value.0, theirs.value.0);
      } else if theirs.Ok? {
        assert theirs.value.0 in desired;
      }
    }
  }

  /** A surface offering B8G8R8A8 sRGB that is not renderable gets the next format instead. */
  lemma PickFormatSkipsUnrenderable(formatProperties: Format -> FormatProperties)
    requires !Renderable(formatProperties, FormatB8G8R8A8Srgb) && Renderable(formatProperties, FormatR8G8B8A8Srgb)
    ensures SwapchainManager.PickColorFormat([SurfaceFormat(FormatB8G8R8A8Srgb, SrgbNonlinear), SurfaceFormat(FormatR8G8B8A8Srgb, SrgbNonlinear)])
              == Ok((FormatB8G8R8A8Srgb, SrgbNonlinear))
    ensures PickFormat([SurfaceFormat(FormatB8G8R8A8Srgb, SrgbNonlinear), SurfaceFormat(FormatR8G8B8A8Srgb, SrgbNonlinear)], formatProperties)
              == Ok((FormatR8G8B8A8Srgb, SrgbNonlinear))
  {
    var offered := [SurfaceFormat(FormatB8G8R8A8Srgb, SrgbNonlinear), SurfaceFormat(FormatR8G8B8A8Srgb, SrgbNonlinear)];
    var desired := SwapchainManager.DesiredColorFormats;
    var theirs := SwapchainManager.PickColorFormat(offered);
    var mine := PickFormat(offered, formatProperties);
    assert desired[0] == FormatB8G8R8A8Srgb && desired[1] == FormatR8G8B8A8Srgb;
    assert IsFirstAccepted(desired, f => SurfaceFormat(f, SrgbNonlinear) in offered, FormatB8G8R8A8Srgb);
    FirstAcceptedUnique(desired, f => SurfaceFormat(f, SrgbNonlinear) in offered, theirs.value.0, FormatB8G8R8A8Srgb);
    var both := f => Renderable(formatProperties, f) && SurfaceFormat(f, SrgbNonlinear) in offered;
    assert IsFirstAccepted(desired, both, FormatR8G8B8A8Srgb);
    FirstAcceptedUnique(desired, both, mine.value.0, FormatR8G8B8A8Srgb);
  }

  /** `pick_properties`: format, then extent, then present mode. */
  function PickProperties(surface: SwapchainManager.SurfaceQueries, formatProperties: Format -> FormatProperties,
                          frames: nat, vsync: bool): (r: Result<ImageProperties>)
    ensures r.Ok? <==> PickFormat(surface.formats, formatProperties).Ok? && PickPresentMode(frames, vsync, surface.presentModes).Ok?
    ensures r.Ok? ==> r.value == ImageProperties(PickFormat(surface.formats, formatProperties).value.0, SrgbNonlinear, frames,
                                                 surface.capabilities.currentExtent, PickPresentMode(frames, vsync, surface.presentModes).value)
  {
    match PickFormat(surface.formats, formatProperties)
    case Err(e) => Err(e)
    case Ok((format, colorSpace)) =>
      match PickPresentMode(frames, vsync, surface.presentModes)
      case Err(e) => Err(e)
      case Ok(presentMode) => Ok(ImageProperties(format, colorSpace, frames, surface.capabilities.currentExtent, presentMode))
  }

  // ---------------------------------------------------------------------------
  // State transitions
  // ---------------------------------------------------------------------------

  /** The members of a `Swapchain`. */
  datatype State = State(properties: ImageProperties, swapchain: Handle, images: seq<Handle>, views: seq<Handle>)
  {
    /** `is_valid`. */
    predicate IsValid() {
      swapchain != Null && images != [] && views != []
    }
  }

  /** `reset`: a valid swapchain drops its views, images and handle; anything else is left alone. */
  function ResetState(s: State): (r: State)
    ensures !r.IsValid()
    ensures r.properties == s.properties
    ensures !s.IsValid() ==> r == s
    ensures s.IsValid() ==> r.swapchain == Null && r.images == [] && r.views == []
  {
    if s.IsValid() then State(s.properties, Null, [], []) else s
  }

  lemma ResetIdempotent(s: State)
    ensures ResetState(ResetState(s)) == ResetState(s)
  {
  }

  /** What a moved-from `Swapchain` keeps: its properties (copied), nothing else. */
  function MovedFrom(s: State): (r: State)
    ensures !r.IsValid() && r.properties == s.properties
  {
    State(s.properties, Null, [], [])
  }

  /**
   * `operator=(Swapchain&&)` between two different objects: the target is
   * reset, then takes every member of the source, which is left moved-from.
   */
  function MoveAssigned(target: State, source: State): (r: (State, State))
    ensures r.0 == State(source.properties, source.swapchain, source.images, source.views)
    ensures r.0.IsValid() <==> source.IsValid()
    ensures !r.1.IsValid()
  {
    (State(source.properties, source.swapchain, source.images, source.views), MovedFrom(source))
  }

  /** A move transfers validity: exactly one of the two ends up holding the swapchain. */
  lemma MoveKeepsOneOwner(target: State, source: State)
    requires source.IsValid()
    ensures MoveAssigned(target, source).0.IsValid() && !MoveAssigned(target, source).1.IsValid()
    ensures MoveAssigned(target, source).0.swapchain == source.swapchain
  {
  }

  // ---------------------------------------------------------------------------
  // The object
  // ---------------------------------------------------------------------------

  class Swapchain {
    var properties: ImageProperties
    var swapchain: Handle
    var images: seq<Handle>
    var views: seq<Handle>

    function Current(): State
      reads this
    {
      State(properties, swapchain, images, views)
    }

    constructor FromState(s: State)
      ensures Current() == s
    {
      properties := s.properties;
      swapchain := s.swapchain;
      images := s.images;
      views := s.views;
    }

    /**
     * `Swapchain(core, frames, vsync, oldSwapchain)`: picks the properties,
     * creates the swapchain, takes the driver's images and makes their views.
     */
    static method Make(device: Device, surface: SwapchainManager.SurfaceQueries, formatProperties: Format -> FormatProperties,
                       graphicsFamily: nat, presentFamily: nat, frames: nat, vsync: bool, oldSwapchain: Handle,
                       driverImages: seq<Handle>)
      returns (r: Result<Swapchain>, info: Option<SwapchainManager.SwapchainCreateInfo>)
      modifies device`nextId
      ensures r.Err? <==> PickProperties(surface, formatProperties, frames, vsync).Err?
      ensures r.Err? ==> r.error == PickProperties(surface, formatProperties, frames, vsync).error && info.None? && unchanged(device)
      ensures r.Ok? ==> fresh(r.value) && r.value.properties == PickProperties(surface, formatProperties, frames, vsync).value
      ensures r.Ok? ==> r.value.swapchain != Null && r.value.images == driverImages && |r.value.views| == |driverImages|
      ensures r.Ok? ==> info == Some(SwapchainManager.SwapchainCreateInfoFor(r.value.properties.format, SrgbNonlinear, frames,
                          surface.capabilities.currentExtent, r.value.properties.presentMode, graphicsFamily, presentFamily, oldSwapchain))
    {
      var picked := PickProperties(surface, formatProperties, frames, vsync);
      if picked.Err? {
        return Err(picked.error), None;
      }
      var p := picked.value;
      var createInfo := SwapchainManager.SwapchainCreateInfoFor(p.format, p.colorSpace, p.images, p.extent, p.presentMode,
                                                               graphicsFamily, presentFamily, oldSwapchain);
      var handle := device.Create();
      var views := SwapchainManager.MakeViews(device, driverImages);
      var made := new Swapchain.FromState(State(p, handle, driverImages, views));
      return Ok(made), Some(createInfo);
    }

    /** The defaulted move constructor: a new object with the source's members; the source is left moved-from. */
    constructor MoveFrom(other: Swapchain)
      modifies other
      ensures Current() == old(other.Current()) && other.Current() == MovedFrom(old(other.Current()))
    {
      properties := other.properties;
      swapchain := other.swapchain;
      images := other.images;
      views := other.views;
      new;
      other.swapchain := Null;
      other.images := [];
      other.views := [];
    }

    function IsValid(): (r: bool)
      reads this
      ensures r <==> Current().IsValid()
    {
      swapchain != Null && images != [] && views != []
    }

    method Reset()
      modifies this
      ensures Current() == ResetState(old(Current()))
    {
      if IsValid() {
        views := [];
        images := [];
        swapchain := Null;
      }
    }

    /** Move assignment; to itself it does nothing. */
    method MoveAssign(other: Swapchain)
      modifies this, other
      ensures other == this ==> Current() == old(Current())
      ensures other != this ==> (Current(), other.Current()) == MoveAssigned(old(Current()), old(other.Current()))
    {
      if other == this {
        return;
      }
      Reset();
      properties := other.properties;
      swapchain := other.swapchain;
      other.swapchain := Null;
      images := other.images;
      other.images := [];
      views := other.views;
      other.views := [];
    }

    /** `get_swapchain`, after `assert (is_valid())`. */
    function GetSwapchain(): (r: Result<Handle>)
      reads this
      ensures r.Ok? <==> IsValid()
      ensures r.Ok? ==> r.value != Null && r.value == swapchain
    {
      if !IsValid() then Err(DebugAssertion) else Ok(swapchain)
    }

    /** `get_view`: `assert (is_valid())`, then `.at(frame)`. */
    function GetView(frame: nat): (r: Result<Handle>)
      reads this
      ensures r.Ok? <==> IsValid() && frame < |views|
      ensures r.Ok? ==> r.value == views[frame]
    {
      if !IsValid() then Err(DebugAssertion) else At(views, frame)
    }

    /** `get_next_frame`: `assert (is_valid())`, then the wrapped increment modulo `images`. */
    function GetNextFrame(current: nat): (r: Result<nat>)
      reads this
      requires 0 < properties.images && current < SwapchainManager.Uint32Limit
      ensures r.Ok? <==> IsValid()
      ensures r.Ok? ==> r.value < properties.images
      ensures r.Ok? && current < properties.images < SwapchainManager.Uint32Limit ==> r.value == (current + 1) % properties.images
    {
      if !IsValid() then Err(DebugAssertion) else Ok(SwapchainManager.NextFrame(current, properties.images))
    }

    /**
     * `acquire_next_image`: asserts validity, looks the frame's semaphore and
     * fence up in `syncTools`, has the scheduler wait on (and reset) the fence,
     * then acquires; only success is accepted.
     */
    method AcquireNextImage(nextFrame: nat, scheduler: Scheduler.Scheduler, syncTools: SyncTools.SyncTools,
                            waitOutcome: VkResult, acquireOutcome: VkResult, acquiredImage: nat)
      returns (r: Result<nat>)
      requires syncTools.Valid()
      modifies scheduler.device`fenceSignaled
      ensures !IsValid() ==> r == Err(DebugAssertion) && unchanged(scheduler.device)
      ensures IsValid() && !syncTools.IsValid() ==> r == Err(DebugAssertion) && unchanged(scheduler.device)
      ensures IsValid() && syncTools.IsValid() && nextFrame >= syncTools.frames ==> r == Err(OutOfRange) && unchanged(scheduler.device)
      ensures IsValid() && nextFrame < syncTools.frames && waitOutcome != Success ==> r == Err(FenceWaitFailed) && unchanged(scheduler.device)
      ensures IsValid() && nextFrame < syncTools.frames && waitOutcome == Success ==>
                scheduler.device.fenceSignaled == old(scheduler.device.fenceSignaled)[syncTools.inFlightFences[nextFrame] := false]
                && r == (if acquireOutcome == Success then Ok(acquiredImage) else Err(AcquireFailed))
    {
      if !IsValid() {
        return Err(DebugAssertion);
      }
      var semaphore := syncTools.ImageAvailableSemaphore(nextFrame);
      if semaphore.Err? {
        return Err(semaphore.error);
      }
      var fence := syncTools.InFlightFence(nextFrame).value;
      var waited := scheduler.WaitFence(fence, waitOutcome);
      if waited.Err? {
        return Err(waited.error);
      }
      if acquireOutcome != Success {
        return Err(AcquireFailed);
      }
      return Ok(acquiredImage);
    }
  }
}
