/**
 * `CoreDependent::assert_passthrough_frames_number`: the requested number of
 * frames in flight must fit the surface's image-count range.
 */
module CoreDependent {
  import opened Outcomes
  import opened Vulkan

  /** As written: throws below `minImageCount` or above `maxImageCount`. */
  function AssertPassthroughFramesNumberAsWritten(frames: nat, capabilities: SurfaceCapabilities): (r: Result<nat>)
    ensures r.Ok? <==> capabilities.minImageCount <= frames <= capabilities.maxImageCount
    ensures r.Ok? ==> r.value == frames
    ensures r.Err? ==> r.error == UnsupportedFramesNumber
  {
    if frames < capabilities.minImageCount || frames > capabilities.maxImageCount then Err(UnsupportedFramesNumber)
    else Ok(frames)
  }

  /**
   * A surface reporting `maxImageCount == 0`, which `VkSurfaceCapabilitiesKHR`
   * defines as "no upper limit", rejects every positive frame count.
   */
  lemma UnlimitedSurfaceRejectsAllFrames(frames: nat, capabilities: SurfaceCapabilities)
    requires capabilities.maxImageCount == 0 && frames >= 1
    ensures AssertPassthroughFramesNumberAsWritten(frames, capabilities).Err?
  {
  }

  /** A concrete case: a surface with images from 2 up, unbounded, refuses 3 frames. */
  lemma UnlimitedSurfaceRefusesThreeFrames()
    ensures AssertPassthroughFramesNumberAsWritten(3, SurfaceCapabilities(2, 0, Extent2D(800, 600))) == Err(UnsupportedFramesNumber)
  {
  }

  /** The check as evidently intended: a zero `maxImageCount` sets no upper bound. */
  function AssertPassthroughFramesNumber(frames: nat, capabilities: SurfaceCapabilities): (r: Result<nat>)
    ensures r.Ok? <==>
      capabilities.minImageCount <= frames
      && (capabilities.maxImageCount == 0 || frames <= capabilities.maxImageCount)
    ensures r.Ok? ==> r.value == frames
    ensures r.Err? ==> r.error == UnsupportedFramesNumber
  {
    if frames < capabilities.minImageCount then Err(UnsupportedFramesNumber)
    else if capabilities.maxImageCount != 0 && frames > capabilities.maxImageCount then Err(UnsupportedFramesNumber)
    else Ok(frames)
  }

  /** The corrected check differs from the written one only on unbounded surfaces. */
  lemma CorrectedCheckAgreesOnBoundedSurfaces(frames: nat, capabilities: SurfaceCapabilities)
    ensures capabilities.maxImageCount > 0 ==>
      AssertPassthroughFramesNumber(frames, capabilities) == AssertPassthroughFramesNumberAsWritten(frames, capabilities)
    ensures capabilities.maxImageCount == 0 && frames >= capabilities.minImageCount ==>
      AssertPassthroughFramesNumber(frames, capabilities) == Ok(frames)
  {
  }
}
