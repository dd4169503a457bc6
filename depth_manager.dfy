/**
 * `DepthManager`: one depth image per frame, with its memory allocation and
 * its view, in a format picked from a preference list (optimal tiling first,
 * then linear).
 */
module DepthManager {
  import opened Outcomes
  import opened Vulkan
  import opened Search

  /** The depth formats in order of preference. */
  const DesiredDepthFormats: seq<Format> := [FormatD32Sfloat, FormatD16Unorm, FormatD32SfloatS8Uint, FormatD24UnormS8Uint]

  /** `estimateSuitability`: the format can be a depth attachment with the given tiling. */
  predicate DepthCapable(properties: Format -> FormatProperties, f: Format, optimal: bool) {
    DepthStencilAttachment in (if optimal then properties(f).optimalTilingFeatures else properties(f).linearTilingFeatures)
  }

  /**
   * `pick_image_properties`: the first desired format usable with optimal
   * tiling; only when there is none, the first usable with linear tiling;
   * throws when there is neither.
   */
  function PickImageProperties(properties: Format -> FormatProperties): (r: Result<(Format, ImageTiling)>)
    ensures r.Ok? && r.value.1 == Optimal ==> IsFirstAccepted(DesiredDepthFormats, f => DepthCapable(properties, f, true), r.value.0)
    ensures r.Ok? && r.value.1 == Linear ==>
      (forall f :: f in DesiredDepthFormats ==> !DepthCapable(properties, f, true))
      && IsFirstAccepted(DesiredDepthFormats, f => DepthCapable(properties, f, false), r.value.0)
    ensures r.Err? <==>
      forall f :: f in DesiredDepthFormats ==> !DepthCapable(properties, f, true) && !DepthCapable(properties, f, false)
    ensures r.Err? ==> r.error == NoDepthFormatAvailable
  {
    match FirstAccepted(DesiredDepthFormats, f => DepthCapable(properties, f, true))
    case Some(f) => Ok((f, Optimal))
    case None =>
      match FirstAccepted(DesiredDepthFormats, f => DepthCapable(properties, f, false))
      case Some(f) => Ok((f, Linear))
      case None => Err(NoDepthFormatAvailable)
  }

  /** The picked format is a desired one and supports depth attachments with the picked tiling. */
  lemma PickedFormatIsDepthCapable(properties: Format -> FormatProperties)
    requires PickImageProperties(properties).Ok?
    ensures PickImageProperties(properties).value.0 in DesiredDepthFormats
    ensures DepthCapable(properties, PickImageProperties(properties).value.0, PickImageProperties(properties).value.1 == Optimal)
  {
  }

  /** Optimal tiling wins whenever any desired format supports it. */
  lemma OptimalWheneverAvailable(properties: Format -> FormatProperties, g: Format)
    requires g in DesiredDepthFormats && DepthCapable(properties, g, true)
    ensures PickImageProperties(properties).Ok? && PickImageProperties(properties).value.1 == Optimal
  {
  }

  /** The create info shared by every depth image of `make_images`. */
  datatype DepthImageCreateInfo = DepthImageCreateInfo(
    format: Format, extent: Extent2D, tiling: ImageTiling, sharingMode: SharingMode, queueFamilies: seq<nat>)

  /** `count` new objects, one per iteration (`make_images`, `make_allocations`, `make_views`). */
  method MakeObjects(device: Device, count: nat) returns (objects: seq<Handle>)
    modifies device`nextId
    ensures objects == FreshHandles(old(device.nextId), count)
    ensures device.nextId == old(device.nextId) + count
  {
    objects := [];
    var i := 0;
    while i < count
      invariant 0 <= i <= count
      invariant objects == FreshHandles(old(device.nextId), i)
      invariant device.nextId == old(device.nextId) + i
    {
      var h := device.Create();
      objects := objects + [h];
      i := i + 1;
    }
  }

  /** Destroys each object in order: a `clear()` of RAII handles, or the loop over allocations. */
  method DestroyAll(device: Device, objects: seq<Handle>)
    modifies device`destroyed
    ensures device.destroyed == old(device.destroyed) + objects
  {
    var i := 0;
    while i < |objects|
      invariant 0 <= i <= |objects|
      invariant device.destroyed == old(device.destroyed) + objects[..i]
    {
      device.Destroy(objects[i]);
      i := i + 1;
    }
    assert objects[..i] == objects;
  }

  class DepthManager {
    const device: Device
    /** `myMemoryAllocator` is non-null. */
    var allocatorHeld: bool
    var format: Format
    var images: seq<Handle>
    var allocations: seq<Handle>
    var views: seq<Handle>

    /** One allocation and one view per image. */
    ghost predicate Valid()
      reads this
    {
      |allocations| == |images| && |views| == |images|
    }

    constructor FromParts(device: Device, format: Format, images: seq<Handle>, allocations: seq<Handle>, views: seq<Handle>)
      ensures this.device == device && this.format == format && allocatorHeld
      ensures this.images == images && this.allocations == allocations && this.views == views
    {
      this.device := device;
      this.format := format;
      allocatorHeld := true;
      this.images := images;
      this.allocations := allocations;
      this.views := views;
    }

    /**
     * The constructor: picks the format and tiling, then creates `frames`
     * images, an allocation for each, and a view of each.
     */
    static method Make(device: Device, properties: Format -> FormatProperties, extent: Extent2D, frames: nat, graphicsFamily: nat)
      returns (r: Result<DepthManager>, info: Option<DepthImageCreateInfo>)
      modifies device`nextId
      ensures r.Err? <==> PickImageProperties(properties).Err?
      ensures r.Err? ==> r.error == NoDepthFormatAvailable && device.nextId == old(device.nextId) && info == None
      ensures r.Ok? ==>
        var (format, tiling) := PickImageProperties(properties).value;
        && info == Some(DepthImageCreateInfo(format, extent, tiling, Exclusive, [graphicsFamily]))
        && fresh(r.value) && r.value.Valid() && r.value.device == device && r.value.format == format
        && r.value.images == FreshHandles(old(device.nextId), frames)
        && r.value.allocations == FreshHandles(old(device.nextId) + frames, frames)
        && r.value.views == FreshHandles(old(device.nextId) + 2 * frames, frames)
        && (r.value.IsValid() <==> frames > 0)
    {
      var picked := PickImageProperties(properties);
      if picked.Err? {
        return Err(picked.error), None;
      }
      var (format, tiling) := picked.value;
      var images := MakeObjects(device, frames);
      var allocations := MakeObjects(device, |images|);
      var views := MakeObjects(device, |images|);
      var made := new DepthManager.FromParts(device, format, images, allocations, views);
      return Ok(made), Some(DepthImageCreateInfo(format, extent, tiling, Exclusive, [graphicsFamily]));
    }

    /** `is_valid`: the allocator is held and there are images and views. */
    predicate IsValid()
      reads this
    {
      allocatorHeld && |images| > 0 && |views| > 0
    }

    /**
     * `reset` (also the destructor): on a valid manager, clears the views,
     * destroys every allocation, clears the images and drops the allocator;
     * on an invalid one, nothing. The native objects go in that order.
     */
    method Reset()
      requires Valid()
      modifies this`allocatorHeld, this`images, this`allocations, this`views, device`destroyed
      ensures Valid() && !IsValid()
      ensures old(IsValid()) ==>
        device.destroyed == old(device.destroyed) + old(views) + old(allocations) + old(images)
        && images == [] && allocations == [] && views == [] && !allocatorHeld
      ensures !old(IsValid()) ==>
        device.destroyed == old(device.destroyed) && images == old(images)
        && allocations == old(allocations) && views == old(views) && allocatorHeld == old(allocatorHeld)
    {
      if !IsValid() {
        return;
      }
      DestroyAll(device, views);
      views := [];
      DestroyAll(device, allocations);
      allocations := [];
      DestroyAll(device, images);
      images := [];
      allocatorHeld := false;
    }

    /** `get_view`: the frame's view; asserting on an invalid manager, `.at` failing past the last frame. */
    function GetView(frame: nat): (r: Result<Handle>)
      reads this
      ensures !IsValid() ==> r == Err(DebugAssertion)
      ensures IsValid() ==> (r.Ok? <==> frame < |views|)
      ensures r.Ok? ==> r.value == views[frame]
    {
      if !IsValid() then Err(DebugAssertion) else At(views, frame)
    }
  }
}
