/**
 * Sampled images: the `Image` value type (allocation, image, view, size),
 * and the factory that picks a tiling for a format, checks the resolution,
 * builds the create info and keeps the created images and views.
 */
module Image {
  import opened Outcomes
  import opened Vulkan
  import DebugAssert

  /** `ImageFormat`: each enumerator carries the number of its `vk::Format`. */
  datatype ImageFormat =
    | R8G8B8Srgb | R8G8B8A8Srgb | R8G8B8A8UintNorm | R32G32B32A32Float
    | R8Srgb | R8UintNorm | R16Float | R32Float

  function FormatOf(f: ImageFormat): Format {
    match f
    case R8G8B8Srgb => FormatR8G8B8Srgb
    case R8G8B8A8Srgb => FormatR8G8B8A8Srgb
    case R8G8B8A8UintNorm => FormatR8G8B8A8Unorm
    case R32G32B32A32Float => FormatR32G32B32A32Sfloat
    case R8Srgb => FormatR8Srgb
    case R8UintNorm => FormatR8Unorm
    case R16Float => FormatR16Sfloat
    case R32Float => FormatR32Sfloat
  }

  /** The numbers of all declared enumerators. */
  const ImageFormatValues: set<int> := {29, 43, 37, 109, 15, 9, 76, 100}

  /** `first_enum_value` and `last_enum_value` of the debug build. */
  const FirstImageFormat: int := FormatR8G8B8Srgb as int
  const LastImageFormat: int := FormatR32Sfloat as int

  lemma ImageFormatValuesAreDeclared(f: ImageFormat)
    ensures FormatOf(f) as int in ImageFormatValues
    ensures forall v :: v in ImageFormatValues ==> exists g :: FormatOf(g) as int == v
  {
    assert FormatOf(R8G8B8Srgb) as int == 29 && FormatOf(R8G8B8A8Srgb) as int == 43;
    assert FormatOf(R8G8B8A8UintNorm) as int == 37 && FormatOf(R32G32B32A32Float) as int == 109;
    assert FormatOf(R8Srgb) as int == 15 && FormatOf(R8UintNorm) as int == 9;
    assert FormatOf(R16Float) as int == 76 && FormatOf(R32Float) as int == 100;
  }

  /**
   * The debug range [r8g8b8_srgb, r32_float] = [29, 100] rejects three
   * declared formats: r8_srgb (15), r8_uint_norm (9) and r32g32b32a32_float (109).
   */
  lemma ImageFormatRangeRejectsMembers()
    ensures !DebugAssert.IsEnumValidAsWritten(DebugAssert.Debug, FormatOf(R8Srgb) as int, FirstImageFormat, LastImageFormat)
    ensures !DebugAssert.IsEnumValidAsWritten(DebugAssert.Debug, FormatOf(R8UintNorm) as int, FirstImageFormat, LastImageFormat)
    ensures !DebugAssert.IsEnumValidAsWritten(DebugAssert.Debug, FormatOf(R32G32B32A32Float) as int, FirstImageFormat, LastImageFormat)
  {
  }

  /** With the membership check every format passes, so `make_image` never fails its enum assertion. */
  lemma EveryImageFormatPasses(build: DebugAssert.Build, f: ImageFormat)
    ensures DebugAssert.IsEnumValid(build, FormatOf(f) as int, ImageFormatValues)
  {
    ImageFormatValuesAreDeclared(f);
  }

  /** `vk::componentCount` for the declared formats. */
  function ComponentCount(f: ImageFormat): (n: nat)
    ensures 1 <= n <= 4
  {
    match f
    case R8G8B8Srgb => 3
    case R8G8B8A8Srgb | R8G8B8A8UintNorm | R32G32B32A32Float => 4
    case R8Srgb | R8UintNorm | R16Float | R32Float => 1
  }

  datatype ComponentSwizzle = Identity | Zero | One

  datatype ComponentMapping = ComponentMapping(r: ComponentSwizzle, g: ComponentSwizzle, b: ComponentSwizzle, a: ComponentSwizzle)

  /** `make_mapping`: channels the format has are passed through; missing colour reads 0, missing alpha 1. */
  function MakeMapping(components: nat): (m: ComponentMapping)
    ensures m.r == Identity
    ensures m.g == Identity <==> components >= 2
    ensures m.b == Identity <==> components >= 3
    ensures m.a == Identity <==> components >= 4
    ensures m.g != Identity ==> m.g == Zero
    ensures m.b != Identity ==> m.b == Zero
    ensures m.a != Identity ==> m.a == One
  {
    ComponentMapping(
      Identity,
      if components >= 2 then Identity else Zero,
      if components >= 3 then Identity else Zero,
      if components >= 4 then Identity else One)
  }

  /** A mapping never loses a channel the format has: more components, more identities. */
  lemma MakeMappingMonotone(m: nat, n: nat)
    requires m <= n
    ensures MakeMapping(m).g == Identity ==> MakeMapping(n).g == Identity
    ensures MakeMapping(m).b == Identity ==> MakeMapping(n).b == Identity
    ensures MakeMapping(m).a == Identity ==> MakeMapping(n).a == Identity
  {
  }

  /** The features a sampled, filtered, uploaded-to image needs. */
  const RequiredFeatures: set<FormatFeature> := {SampledImage, SampledImageFilterLinear, TransferDst}

  /** `pick_tiling`: optimal when it has every required feature, else linear if that has them, else none. */
  function PickTiling(properties: FormatProperties): (r: Option<ImageTiling>)
    ensures r == Some(Optimal) <==> RequiredFeatures <= properties.optimalTilingFeatures
    ensures r == Some(Linear) <==>
      !(RequiredFeatures <= properties.optimalTilingFeatures) && RequiredFeatures <= properties.linearTilingFeatures
    ensures r.None? <==>
      !(RequiredFeatures <= properties.optimalTilingFeatures) && !(RequiredFeatures <= properties.linearTilingFeatures)
  {
    if RequiredFeatures <= properties.optimalTilingFeatures then Some(Optimal)
    else if RequiredFeatures <= properties.linearTilingFeatures then Some(Linear)
    else None
  }

  /** The picked tiling always has every required feature. */
  lemma PickedTilingHasFeatures(properties: FormatProperties)
    requires PickTiling(properties).Some?
    ensures var features := if PickTiling(properties).value == Optimal then properties.optimalTilingFeatures
                            else properties.linearTilingFeatures;
            SampledImage in features && SampledImageFilterLinear in features && TransferDst in features
  {
  }

  /** `is_resolution_supported`: both sides positive and within `maxImageDimension2D`. */
  function IsResolutionSupported(width: nat, height: nat, maxImageDimension2D: nat): (r: bool)
    ensures r ==> 0 < width <= maxImageDimension2D && 0 < height <= maxImageDimension2D
    ensures !r ==> width == 0 || height == 0 || width > maxImageDimension2D || height > maxImageDimension2D
  {
    width > 0 && height > 0 && width <= maxImageDimension2D && height <= maxImageDimension2D
  }

  /** A supported resolution stays supported when shrunk, as long as neither side reaches 0. */
  lemma SmallerResolutionSupported(width: nat, height: nat, w: nat, h: nat, maxImageDimension2D: nat)
    requires IsResolutionSupported(width, height, maxImageDimension2D)
    requires 0 < w <= width && 0 < h <= height
    ensures IsResolutionSupported(w, h, maxImageDimension2D)
  {
  }

  /** The `vk::ImageCreateInfo` of `create_image` (2D, one mip level and layer, one sample). */
  datatype ImageCreateInfo = ImageCreateInfo(
    format: Format, extent: Extent2D, tiling: ImageTiling,
    sharingMode: SharingMode, queueFamilies: set<nat>, initialLayout: ImageLayout)

  /**
   * `create_image`: shared by the graphics and transfer families, concurrent
   * when they differ; throws when the format has no qualifying tiling.
   */
  function CreateImageInfo(format: ImageFormat, properties: FormatProperties, width: nat, height: nat, graphics: nat, transfer: nat)
    : (r: Result<ImageCreateInfo>)
    ensures r.Err? <==> PickTiling(properties).None?
    ensures r.Err? ==> r.error == NotSuitableFormat
    ensures r.Ok? ==>
      r.value.tiling == PickTiling(properties).value && r.value.format == FormatOf(format)
      && r.value.extent == Extent2D(width, height) && r.value.queueFamilies == {graphics, transfer}
      && r.value.initialLayout == TransferDstOptimal
    ensures r.Ok? ==> (r.value.sharingMode == Concurrent <==> graphics != transfer)
  {
    var tiling := PickTiling(properties);
    if tiling.None? then Err(NotSuitableFormat)
    else
      var families := {graphics, transfer};
      assert graphics != transfer ==> |families| == 2;
      Ok(ImageCreateInfo(FormatOf(format), Extent2D(width, height), tiling.value, SharingFor(families), families, TransferDstOptimal))
  }

  /** `Image`: a copyable value whose moves leave the source null with a {0, 0} size. */
  class Image {
    var allocation: Handle
    var image: Handle
    var view: Handle
    var sizes: Extent2D

    /** The private constructor, with its arguments in declaration order. */
    constructor (allocation: Handle, image: Handle, view: Handle, sizes: Extent2D)
      ensures this.allocation == allocation && this.image == image && this.view == view && this.sizes == sizes
    {
      this.allocation := allocation;
      this.image := image;
      this.view := view;
      this.sizes := sizes;
    }

    /** The defaulted copy constructor: another value referring to the same objects. */
    constructor Copy(other: Image)
      ensures allocation == other.allocation && image == other.image && view == other.view && sizes == other.sizes
      ensures IsValid() <==> other.IsValid()
    {
      allocation, image, view, sizes := other.allocation, other.image, other.view, other.sizes;
    }

    /** The move constructor. */
    constructor MoveFrom(other: Image)
      modifies other
      ensures allocation == old(other.allocation) && image == old(other.image) && view == old(other.view)
      ensures sizes == old(other.sizes)
      ensures other.allocation == Null && other.image == Null && other.view == Null && other.sizes == Extent2D(0, 0)
      ensures !other.IsValid() && (IsValid() <==> old(other.IsValid()))
    {
      allocation, image, view, sizes := other.allocation, other.image, other.view, other.sizes;
      new;
      other.allocation, other.image, other.view, other.sizes := Null, Null, Null, Extent2D(0, 0);
    }

    /** `is_valid`: all three handles non-null and a size other than {0, 0}. */
    predicate IsValid()
      reads this
    {
      allocation != Null && image != Null && view != Null && sizes != Extent2D(0, 0)
    }

    /** Move assignment: a no-op on itself; otherwise takes the source's fields and leaves it invalid. */
    method MoveAssign(other: Image)
      modifies this, other
      ensures other == this ==> allocation == old(allocation) && image == old(image) && view == old(view) && sizes == old(sizes)
      ensures other != this ==>
        allocation == old(other.allocation) && image == old(other.image) && view == old(other.view)
        && sizes == old(other.sizes) && !other.IsValid() && (IsValid() <==> old(other.IsValid()))
    {
      if other == this {
        return;
      }
      allocation, image, view, sizes := other.allocation, other.image, other.view, other.sizes;
      other.allocation, other.image, other.view, other.sizes := Null, Null, Null, Extent2D(0, 0);
    }

    /** `get_sizes`: width and height of a valid image; asserting on an invalid one. */
    function GetSizes(): (r: Result<(nat, nat)>)
      reads this
      ensures r.Ok? <==> IsValid()
      ensures r.Ok? ==> Extent2D(r.value.0, r.value.1) == sizes
    {
      if IsValid() then Ok((sizes.width, sizes.height)) else Err(DebugAssertion)
    }
  }

  /** The registries after `destroy_image` of an image with the given validity and handles. */
  function AfterDestroyImage(images: set<Handle>, views: set<Handle>, valid: bool, image: Handle, view: Handle)
    : (r: (set<Handle>, set<Handle>))
    ensures !valid ==> r == (images, views)
    ensures valid ==> r.0 == images - {image} && r.1 == views - {view}
  {
    if valid then (images - {image}, views - {view}) else (images, views)
  }

  /** Destroying a freshly made image restores both registries. */
  lemma DestroyUndoesMake(images: set<Handle>, views: set<Handle>, image: Handle, view: Handle)
    requires image !in images && view !in views
    ensures AfterDestroyImage(images + {image}, views + {view}, true, image, view) == (images, views)
  {
  }

  /** `ImageFactory`: creates images on the device and owns them and their views. */
  class ImageFactory {
    const device: Device
    const build: DebugAssert.Build
    const graphicsFamily: nat
    const transferFamily: nat
    const maxImageDimension2D: nat
    var images: set<Handle>
    var views: set<Handle>

    constructor (device: Device, build: DebugAssert.Build, graphicsFamily: nat, transferFamily: nat, maxImageDimension2D: nat)
      ensures this.device == device && this.build == build
      ensures this.graphicsFamily == graphicsFamily && this.transferFamily == transferFamily
      ensures this.maxImageDimension2D == maxImageDimension2D
      ensures images == {} && views == {}
    {
      this.device := device;
      this.build := build;
      this.graphicsFamily := graphicsFamily;
      this.transferFamily := transferFamily;
      this.maxImageDimension2D := maxImageDimension2D;
      images := {};
      views := {};
    }

    /**
     * `make_image`: asserts a declared format and positive sizes, throws on
     * an unsupported resolution or an unusable format, then creates the
     * image, its view and its allocation and keeps the image and the view.
     */
    method MakeImage(format: ImageFormat, width: nat, height: nat, properties: FormatProperties)
      returns (r: Result<Image>, info: Option<ImageCreateInfo>)
      modifies this`images, this`views, device`nextId
      ensures r.Err? ==> images == old(images) && views == old(views) && info == None && device.nextId == old(device.nextId)
      ensures r.Err? && r.error == DebugAssertion <==>
        build == DebugAssert.Debug && (!DebugAssert.IsEnumValid(build, FormatOf(format) as int, ImageFormatValues) || width == 0 || height == 0)
      ensures r.Err? && r.error == UnsupportedImageSizes <==>
        (build == DebugAssert.Release || (width > 0 && height > 0))
        && !IsResolutionSupported(width, height, maxImageDimension2D)
      ensures r.Err? && r.error == NotSuitableFormat <==>
        IsResolutionSupported(width, height, maxImageDimension2D) && PickTiling(properties).None?
      ensures r.Ok? ==>
        info.Some? && CreateImageInfo(format, properties, width, height, graphicsFamily, transferFamily) == Ok(info.value)
        && fresh(r.value) && r.value.IsValid() && r.value.sizes == Extent2D(width, height)
        && r.value.image == Live(old(device.nextId)) && r.value.view == Live(old(device.nextId) + 1)
        && r.value.allocation == Live(old(device.nextId) + 2)
        && images == old(images) + {r.value.image} && views == old(views) + {r.value.view}
    {
      EveryImageFormatPasses(build, format);
      var enumValid := DebugAssert.IsEnumValid(build, FormatOf(format) as int, ImageFormatValues);
      if build == DebugAssert.Debug && (!enumValid || width == 0 || height == 0) {
        return Err(DebugAssertion), None;
      }
      if !IsResolutionSupported(width, height, maxImageDimension2D) {
        return Err(UnsupportedImageSizes), None;
      }
      var createInfo := CreateImageInfo(format, properties, width, height, graphicsFamily, transferFamily);
      if createInfo.Err? {
        return Err(createInfo.error), None;
      }
      var imageObject := device.Create();
      var viewObject := device.Create();
      var allocation := device.Create();
      images := images + {imageObject};
      views := views + {viewObject};
      var made := new Image(allocation, imageObject, viewObject, Extent2D(width, height));
      return Ok(made), Some(createInfo.value);
    }

    /** `destroy_image`: a valid image's image and view leave the registries; an invalid one changes nothing. */
    method DestroyImage(image: Image)
      modifies this`images, this`views
      ensures (images, views) == AfterDestroyImage(old(images), old(views), image.IsValid(), image.image, image.view)
    {
      if image.IsValid() {
        images := images - {image.image};
        views := views - {image.view};
      }
    }
  }
}
