/** Option and Result, and the runtime errors the library throws. */
module Outcomes {

  datatype Option<T> = None | Some(value: T)

  /** Each constructor stands for one `std::runtime_error` (or `.at()` range error) of the library. */
  datatype Error =
    | NoAcceptableMemory        // no memory type passes the filter
    | NoSuitableHeaps           // no heap of either set can hold a request
    | OutOfRange                // a per-frame vector indexed with `.at()` past its end
    | FenceWaitFailed
    | PresentFailed
    | AcquireFailed
    | NoSuitablePresentMode
    | NoSuitableColorFormat
    | NoSuitableDepthFormat
    | UnsupportedFramesNumber
    | NoSuitableDevice
    | NotSuitableFormat         // an image format without a usable tiling
    | UnsupportedImageSizes
    | NoDepthFormatAvailable
    | CompilationFailed         // the shader compiler reported an error
    | DebugAssertion            // `debug_throw` in a debug build

  datatype Result<T> = Ok(value: T) | Err(error: Error)

  /** `std::vector::at` / `small_vector::at`: the element, or the range error past the end. */
  function At<T>(s: seq<T>, i: int): (r: Result<T>)
    ensures r.Ok? <==> 0 <= i < |s|
    ensures r.Ok? ==> r.value == s[i]
    ensures r.Err? ==> r.error == OutOfRange
  {
    if 0 <= i < |s| then Ok(s[i]) else Err(OutOfRange)
  }
}
