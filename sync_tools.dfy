/**
 * `SyncTools`: five per-frame arrays of synchronisation objects (three kinds
 * of semaphores, in-flight fences and transfer fences) and their getters.
 */
module SyncTools {
  import opened Outcomes
  import opened Vulkan
  import Scheduler

  class SyncTools {
    const imageAvailableSemaphores: seq<Handle>
    const renderCompletedSemaphores: seq<Handle>
    const transferCompletedSemaphores: seq<Handle>
    const inFlightFences: seq<Handle>
    const transferFences: seq<Handle>
    /** The `frames` the object was built for. */
    ghost const frames: nat

    /** Every array has one entry per frame. */
    ghost predicate Valid() {
      && |imageAvailableSemaphores| == frames
      && |renderCompletedSemaphores| == frames
      && |transferCompletedSemaphores| == frames
      && |inFlightFences| == frames
      && |transferFences| == frames
    }

    /** `SyncTools(core, frames)`: `frames` fresh objects per array, both fence arrays signaled. */
    constructor (device: Device, frames: nat)
      modifies device`nextId, device`fenceSignaled
      ensures Valid() && this.frames == frames
      ensures forall h :: h in inFlightFences + transferFences ==> h in device.fenceSignaled && device.fenceSignaled[h]
    {
      var ia := Scheduler.MakeSemaphores(device, frames);
      var rc := Scheduler.MakeSemaphores(device, frames);
      var tc := Scheduler.MakeSemaphores(device, frames);
      var inFlight := Scheduler.MakeFences(device, frames, true);
      var transfer := Scheduler.MakeFences(device, frames, true);
      imageAvailableSemaphores := ia;
      renderCompletedSemaphores := rc;
      transferCompletedSemaphores := tc;
      inFlightFences := inFlight;
      transferFences := transfer;
      this.frames := frames;
    }

    /** `is_valid`: every array is non-empty, which for a built object means `frames > 0`. */
    function IsValid(): (r: bool)
      ensures Valid() ==> (r <==> frames > 0)
    {
      && |imageAvailableSemaphores| > 0
      && |renderCompletedSemaphores| > 0
      && |transferCompletedSemaphores| > 0
      && |inFlightFences| > 0
      && |transferFences| > 0
    }

    /** `assert (is_valid())` followed by `.at(frame)`; a failed assert is `DebugAssertion`. */
    static function Checked(valid: bool, objects: seq<Handle>, frame: nat): (r: Result<Handle>)
      ensures r.Ok? <==> valid && frame < |objects|
      ensures r.Ok? ==> r.value == objects[frame]
      ensures !valid ==> r == Err(DebugAssertion)
    {
      if !valid then Err(DebugAssertion) else At(objects, frame)
    }

    function ImageAvailableSemaphore(frame: nat): (r: Result<Handle>)
      ensures Valid() ==> (r.Ok? <==> frame < frames)
      ensures r.Ok? ==> frame < |imageAvailableSemaphores| && r.value == imageAvailableSemaphores[frame]
    {
      Checked(IsValid(), imageAvailableSemaphores, frame)
    }

    function RenderCompletedSemaphore(frame: nat): (r: Result<Handle>)
      ensures Valid() ==> (r.Ok? <==> frame < frames)
      ensures r.Ok? ==> frame < |renderCompletedSemaphores| && r.value == renderCompletedSemaphores[frame]
    {
      Checked(IsValid(), renderCompletedSemaphores, frame)
    }

    function TransferCompletedSemaphore(frame: nat): (r: Result<Handle>)
      ensures Valid() ==> (r.Ok? <==> frame < frames)
      ensures r.Ok? ==> frame < |transferCompletedSemaphores| && r.value == transferCompletedSemaphores[frame]
    {
      Checked(IsValid(), transferCompletedSemaphores, frame)
    }

    function InFlightFence(frame: nat): (r: Result<Handle>)
      ensures Valid() ==> (r.Ok? <==> frame < frames)
      ensures r.Ok? ==> frame < |inFlightFences| && r.value == inFlightFences[frame]
    {
      Checked(IsValid(), inFlightFences, frame)
    }

    function TransferFence(frame: nat): (r: Result<Handle>)
      ensures Valid() ==> (r.Ok? <==> frame < frames)
      ensures r.Ok? ==> frame < |transferFences| && r.value == transferFences[frame]
    {
      Checked(IsValid(), transferFences, frame)
    }
  }
}
