/**
 * Frame scheduling: per-frame semaphores and fences, the lists of command
 * buffers waiting for and under execution, the "graphics waits for transfer"
 * flag, and the batches handed to the graphics, transfer and present queues.
 *
 * The C++ `Scheduler` is a diamond of `SchedulerBase`, `GraphicsScheduler`,
 * `TransferScheduler` and `PresentScheduler` over virtual bases; the model
 * flattens it into one class holding the state of all four.
 */
module Scheduler {
  import opened Outcomes
  import opened Vulkan

  // ---------------------------------------------------------------------------
  // What the pending/executing lists hold, as a function of what happened
  // ---------------------------------------------------------------------------

  /** The calls made on a `PendingExecutionBuffers`, in order. */
  datatype BufferEvent = Postponed(handle: Handle) | BeganExecution

  /** Every handle ever postponed, in order. */
  function AllPostponed(events: seq<BufferEvent>): (r: seq<Handle>)
    ensures |r| <= |events|
  {
    if events == [] then []
    else
      var rest := AllPostponed(events[..|events| - 1]);
      match events[|events| - 1]
      case Postponed(h) => rest + [h]
      case BeganExecution => rest
  }

  /** The handles postponed since the last `begin_execution` (all of them if there was none). */
  function SinceLastBegin(events: seq<BufferEvent>): (r: seq<Handle>)
  {
    if events == [] then []
    else
      match events[|events| - 1]
      case Postponed(h) => SinceLastBegin(events[..|events| - 1]) + [h]
      case BeganExecution => []
  }

  /** The batch the last `begin_execution` moved to execution: what was postponed before it and after the one before. */
  function LastBatch(events: seq<BufferEvent>): (r: seq<Handle>)
  {
    if events == [] then []
    else
      match events[|events| - 1]
      case Postponed(_) => LastBatch(events[..|events| - 1])
      case BeganExecution => SinceLastBegin(events[..|events| - 1])
  }

  /** `a` is a prefix of `b`. */
  predicate IsPrefix(a: seq<Handle>, b: seq<Handle>) {
    |a| <= |b| && b[..|a|] == a
  }

  /** `a` is a suffix of `b`. */
  predicate IsSuffix(a: seq<Handle>, b: seq<Handle>) {
    |a| <= |b| && b[|b| - |a|..] == a
  }

  /** The single list of the unsynchronised variant is never cleared: later calls only extend it. */
  lemma {:induction false} AllPostponedOnlyGrows(events: seq<BufferEvent>, more: seq<BufferEvent>)
    ensures IsPrefix(AllPostponed(events), AllPostponed(events + more))
    decreases |more|
  {
    if more != [] {
      var init := more[..|more| - 1];
      assert (events + more)[..|events + more| - 1] == events + init;
      AllPostponedOnlyGrows(events, init);
    } else {
      assert events + more == events;
    }
  }

  /** A postponed handle stays in the unsynchronised list for good. */
  lemma AllPostponedKeeps(events: seq<BufferEvent>, h: Handle, more: seq<BufferEvent>)
    ensures h in AllPostponed(events + [Postponed(h)] + more)
  {
    var ev := events + [Postponed(h)];
    assert ev[..|ev| - 1] == events;
    assert AllPostponed(ev) == AllPostponed(events) + [h];
    AllPostponedOnlyGrows(ev, more);
    var all := AllPostponed(ev + more);
    assert all[|AllPostponed(events)|] == h;
  }

  /**
   * In the synchronised variant the executing batch followed by the pending
   * list is the tail of everything postponed: nothing is executed twice and
   * nothing is skipped.
   */
  lemma {:induction false} BatchThenPendingIsRecentTail(events: seq<BufferEvent>)
    ensures IsSuffix(LastBatch(events) + SinceLastBegin(events), AllPostponed(events))
    decreases |events|
  {
    if events != [] {
      var init := events[..|events| - 1];
      BatchThenPendingIsRecentTail(init);
      match events[|events| - 1]
      case Postponed(h) =>
        assert LastBatch(events) + SinceLastBegin(events) == (LastBatch(init) + SinceLastBegin(init)) + [h];
      case BeganExecution =>
        SinceLastBeginIsSuffix(init);
        assert LastBatch(events) + SinceLastBegin(events) == SinceLastBegin(init);
    }
  }

  lemma {:induction false} SinceLastBeginIsSuffix(events: seq<BufferEvent>)
    ensures IsSuffix(SinceLastBegin(events), AllPostponed(events))
    decreases |events|
  {
    if events != [] {
      var init := events[..|events| - 1];
      SinceLastBeginIsSuffix(init);
    }
  }

  // ---------------------------------------------------------------------------
  // PendingExecutionBuffers<true> and PendingExecutionBuffers<false>
  // ---------------------------------------------------------------------------

  /**
   * Command buffers recorded for one queue. With `internalSync` (the `<true>`
   * specialisation) postponed buffers collect in a pending list that
   * `BeginExecution` moves to the executing list; without it there is one list,
   * `buffers`, which is both, and `executingBuffers` stays empty.
   */
  class PendingExecutionBuffers {
    const internalSync: bool
    var buffers: seq<CommandBuffer>
    var handles: seq<Handle>
    var executingBuffers: seq<CommandBuffer>
    var executingHandles: seq<Handle>
    ghost var history: seq<BufferEvent>

    /** Each handle list mirrors its buffer list, and both follow from the calls made. */
    ghost predicate Valid()
      reads this
    {
      && |handles| == |buffers|
      && (forall i :: 0 <= i < |buffers| ==> handles[i] == buffers[i].handle)
      && |executingHandles| == |executingBuffers|
      && (forall i :: 0 <= i < |executingBuffers| ==> executingHandles[i] == executingBuffers[i].handle)
      && (internalSync ==> handles == SinceLastBegin(history) && executingHandles == LastBatch(history))
      && (!internalSync ==> handles == AllPostponed(history) && executingBuffers == [])
    }

    constructor (internalSync: bool)
      ensures Valid() && this.internalSync == internalSync
      ensures buffers == [] && executingBuffers == [] && history == []
    {
      this.internalSync := internalSync;
      buffers, handles := [], [];
      executingBuffers, executingHandles := [], [];
      history := [];
    }

    /** `postpone_commands`: appends the buffer and its handle, index-aligned. */
    method Postpone(buffer: CommandBuffer)
      requires Valid()
      modifies this
      ensures Valid() && history == old(history) + [Postponed(buffer.handle)]
      ensures buffers == old(buffers) + [buffer] && handles == old(handles) + [buffer.handle]
      ensures executingBuffers == old(executingBuffers) && executingHandles == old(executingHandles)
    {
      buffers := buffers + [buffer];
      handles := handles + [buffer.handle];
      history := history + [Postponed(buffer.handle)];
      assert history[..|history| - 1] == old(history);
    }

    /**
     * `begin_execution`: with `internalSync` the previous executing list is
     * dropped, the pending list becomes the executing one and pending is empty;
     * without it nothing happens.
     */
    method BeginExecution()
      requires Valid()
      modifies this
      ensures Valid() && history == old(history) + [BeganExecution]
      ensures internalSync ==> executingBuffers == old(buffers) && executingHandles == old(handles) && buffers == [] && handles == []
      ensures !internalSync ==> buffers == old(buffers) && handles == old(handles) && executingBuffers == old(executingBuffers)
    {
      if internalSync {
        executingBuffers, executingHandles := buffers, handles;
        buffers, handles := [], [];
      }
      history := history + [BeganExecution];
      assert history[..|history| - 1] == old(history);
    }

    /** `get_executing_handles`: the last batch, or everything ever postponed without `internalSync`. */
    function ExecutingHandles(): (r: seq<Handle>)
      reads this
      ensures Valid() && internalSync ==> r == LastBatch(history)
      ensures Valid() && !internalSync ==> r == AllPostponed(history)
    {
      if internalSync then executingHandles else handles
    }

    /** `empty`: computed from the buffer list, it agrees with the handle list `ExecutingHandles` returns. */
    function Empty(): (r: bool)
      reads this
      ensures Valid() ==> (r <==> ExecutingHandles() == [])
    {
      if internalSync then executingBuffers == [] else buffers == []
    }
  }

  // ---------------------------------------------------------------------------
  // Submissions
  // ---------------------------------------------------------------------------

  /** A `vk::SubmitInfo` together with the fence passed to `submit` (`Null` for none). */
  datatype SubmitInfo = SubmitInfo(
    waitSemaphores: seq<Handle>,
    waitStages: seq<PipelineStage>,
    commandBuffers: seq<Handle>,
    signalSemaphores: seq<Handle>,
    fence: Handle)

  /** A `vk::PresentInfoKHR` for one swapchain. */
  datatype PresentInfo = PresentInfo(waitSemaphores: seq<Handle>, swapchain: Handle, imageIndex: nat)

  /** The per-frame synchronisation objects of `SchedulerBase`. */
  datatype FrameSync = FrameSync(
    imageAvailable: seq<Handle>,
    renderCompleted: seq<Handle>,
    transferCompleted: seq<Handle>,
    inFlight: seq<Handle>)
  {
    /** Every array has one entry per frame. */
    predicate HasFrames(frames: nat) {
      |imageAvailable| == frames && |renderCompleted| == frames
      && |transferCompleted| == frames && |inFlight| == frames
    }

    /** No semaphore is used for two roles or two frames. */
    predicate Distinct() {
      var all := imageAvailable + renderCompleted + transferCompleted;
      forall i, j :: 0 <= i < j < |all| ==> all[i] != all[j]
    }
  }

  /** The batch of `submit_graphics_commands` for `frame`. */
  function GraphicsSubmission(sync: FrameSync, frame: nat, commands: seq<Handle>): (r: Result<SubmitInfo>)
    requires sync.HasFrames(|sync.inFlight|)
    ensures r.Ok? <==> frame < |sync.inFlight|
    ensures r.Ok? ==> r.value.commandBuffers == commands && r.value.fence == sync.inFlight[frame]
    ensures r.Ok? ==> |r.value.waitSemaphores| == |r.value.waitStages| == 2
  {
    if frame < |sync.inFlight| then
      Ok(SubmitInfo(
        [sync.imageAvailable[frame], sync.transferCompleted[frame]],
        [ColorAttachmentOutput, Transfer],
        commands,
        [sync.renderCompleted[frame]],
        sync.inFlight[frame]))
    else Err(OutOfRange)
  }

  /** The batch of `submit_transfer_commands` for `frame`: no waits and no fence. */
  function TransferSubmission(sync: FrameSync, frame: nat, commands: seq<Handle>): (r: Result<SubmitInfo>)
    requires sync.HasFrames(|sync.inFlight|)
    ensures r.Ok? <==> frame < |sync.transferCompleted|
    ensures r.Ok? ==> r.value.waitSemaphores == [] && r.value.waitStages == [] && r.value.fence == Null
    ensures r.Ok? ==> r.value.commandBuffers == commands
  {
    match At(sync.transferCompleted, frame)
    case Err(e) => Err(e)
    case Ok(signal) => Ok(SubmitInfo([], [], commands, [signal], Null))
  }

  /** The presentation request of `present_image`. */
  function Presentation(sync: FrameSync, swapchain: Handle, image: nat, frame: nat): (r: Result<PresentInfo>)
    ensures r.Ok? <==> frame < |sync.renderCompleted|
    ensures r.Ok? ==> r.value.swapchain == swapchain && r.value.imageIndex == image
  {
    match At(sync.renderCompleted, frame)
    case Err(e) => Err(e)
    case Ok(wait) => Ok(PresentInfo([wait], swapchain, image))
  }

  /**
   * Within one frame the three batches form a chain: the graphics batch waits
   * (at the transfer stage) on what the transfer batch signals, and the
   * presentation waits on what the graphics batch signals.
   */
  lemma FrameChain(sync: FrameSync, frame: nat, graphics: seq<Handle>, transfer: seq<Handle>, swapchain: Handle, image: nat)
    requires sync.HasFrames(|sync.inFlight|) && frame < |sync.inFlight|
    ensures GraphicsSubmission(sync, frame, graphics).Ok?
    ensures TransferSubmission(sync, frame, transfer).Ok?
    ensures Presentation(sync, swapchain, image, frame).Ok?
    ensures TransferSubmission(sync, frame, transfer).value.signalSemaphores
         == [GraphicsSubmission(sync, frame, graphics).value.waitSemaphores[1]]
    ensures GraphicsSubmission(sync, frame, graphics).value.waitStages[1] == Transfer
    ensures GraphicsSubmission(sync, frame, graphics).value.signalSemaphores
         == Presentation(sync, swapchain, image, frame).value.waitSemaphores
  {
  }

  /** With distinct semaphores no batch waits on a semaphore it signals itself, and frames never share one. */
  lemma NoSelfWait(sync: FrameSync, f: nat, g: nat, graphics: seq<Handle>, transfer: seq<Handle>)
    requires sync.HasFrames(|sync.inFlight|) && sync.Distinct()
    requires f < |sync.inFlight| && g < |sync.inFlight|
    ensures forall s :: s in GraphicsSubmission(sync, f, graphics).value.signalSemaphores
              ==> s !in GraphicsSubmission(sync, f, graphics).value.waitSemaphores
    ensures f != g ==>
      GraphicsSubmission(sync, f, graphics).value.signalSemaphores != GraphicsSubmission(sync, g, graphics).value.signalSemaphores
    ensures f != g ==>
      TransferSubmission(sync, f, transfer).value.signalSemaphores != TransferSubmission(sync, g, transfer).value.signalSemaphores
  {
    var n := |sync.inFlight|;
    var all := sync.imageAvailable + sync.renderCompleted + sync.transferCompleted;
    assert all[f] == sync.imageAvailable[f] && all[n + f] == sync.renderCompleted[f] && all[2 * n + f] == sync.transferCompleted[f];
    assert all[n + g] == sync.renderCompleted[g] && all[2 * n + g] == sync.transferCompleted[g];
  }

  // ---------------------------------------------------------------------------
  // SchedulerBase creation helpers
  // ---------------------------------------------------------------------------

  /** `make_semaphores`: `count` semaphores created one after another. */
  method MakeSemaphores(device: Device, count: nat) returns (s: seq<Handle>)
    modifies device`nextId
    ensures s == FreshHandles(old(device.nextId), count) && device.nextId == old(device.nextId) + count
  {
    s := [];
    var i := 0;
    while i < count
      invariant 0 <= i <= count
      invariant s == FreshHandles(old(device.nextId), i) && device.nextId == old(device.nextId) + i
    {
      var h := device.Create();
      s := s + [h];
      i := i + 1;
    }
  }

  /** `make_fences`: `count` fences created one after another, each in state `signaled`. */
  method MakeFences(device: Device, count: nat, signaled: bool) returns (s: seq<Handle>)
    modifies device`nextId, device`fenceSignaled
    ensures s == FreshHandles(old(device.nextId), count) && device.nextId == old(device.nextId) + count
    ensures forall h :: h in s ==> h in device.fenceSignaled && device.fenceSignaled[h] == signaled
    ensures forall h :: h !in s && h in old(device.fenceSignaled) ==> h in device.fenceSignaled && device.fenceSignaled[h] == old(device.fenceSignaled)[h]
  {
    s := [];
    var i := 0;
    while i < count
      invariant 0 <= i <= count
      invariant s == FreshHandles(old(device.nextId), i) && device.nextId == old(device.nextId) + i
      invariant forall h :: h in s ==> h in device.fenceSignaled && device.fenceSignaled[h] == signaled
      invariant forall h :: h !in s && h in old(device.fenceSignaled) ==> h in device.fenceSignaled && device.fenceSignaled[h] == old(device.fenceSignaled)[h]
    {
      var h := device.CreateFence(signaled);
      s := s + [h];
      i := i + 1;
    }
  }

  /** The synchronisation objects of `Scheduler(frames)`: three semaphore arrays, then the signaled fences. */
  method MakeFrameSync(device: Device, frames: nat) returns (sync: FrameSync)
    modifies device`nextId, device`fenceSignaled
    ensures sync.HasFrames(frames) && sync.Distinct()
    ensures forall f :: 0 <= f < frames ==> sync.inFlight[f] in device.fenceSignaled && device.fenceSignaled[sync.inFlight[f]]
  {
    var start := device.nextId;
    var ia := MakeSemaphores(device, frames);
    var rc := MakeSemaphores(device, frames);
    var tc := MakeSemaphores(device, frames);
    var fences := MakeFences(device, frames, true);
    assert forall f :: 0 <= f < frames ==> fences[f] in fences;
    ConsecutiveRunsDistinct(start, frames, fences);
    sync := FrameSync(ia, rc, tc, fences);
  }

  /** One fresh, empty pending list per frame, all distinct. */
  method MakePendingLists(frames: nat, internalSync: bool) returns (lists: seq<PendingExecutionBuffers>)
    ensures |lists| == frames
    ensures forall k :: 0 <= k < frames ==> fresh(lists[k]) && lists[k].Valid() && lists[k].internalSync == internalSync && lists[k].history == []
    ensures forall k, l :: 0 <= k < l < frames ==> lists[k] != lists[l]
  {
    lists := [];
    var i := 0;
    while i < frames
      invariant 0 <= i <= frames && |lists| == i
      invariant forall k :: 0 <= k < i ==> fresh(lists[k]) && lists[k].Valid() && lists[k].internalSync == internalSync && lists[k].history == []
      invariant forall k, l :: 0 <= k < l < i ==> lists[k] != lists[l]
    {
      var p := new PendingExecutionBuffers(internalSync);
      lists := lists + [p];
      i := i + 1;
    }
  }

  /** The semaphores of three runs of `MakeSemaphores` one after another are all distinct. */
  lemma ConsecutiveRunsDistinct(start: nat, frames: nat, inFlight: seq<Handle>)
    ensures FrameSync(FreshHandles(start, frames), FreshHandles(start + frames, frames),
                      FreshHandles(start + 2 * frames, frames), inFlight).Distinct()
  {
    var all := FreshHandles(start, frames) + FreshHandles(start + frames, frames) + FreshHandles(start + 2 * frames, frames);
    forall i | 0 <= i < |all|
      ensures all[i] == Live(start + i)
    {
      if i < frames {
      } else if i < 2 * frames {
        assert all[i] == FreshHandles(start + frames, frames)[i - frames];
      } else {
        assert all[i] == FreshHandles(start + 2 * frames, frames)[i - 2 * frames];
      }
    }
  }

  // ---------------------------------------------------------------------------
  // Scheduler<InternalSync>
  // ---------------------------------------------------------------------------

  class Scheduler {
    const device: Device
    const internalSync: bool
    const frames: nat
    const sync: FrameSync
    /** `myFrameCommands` of `GraphicsScheduler`: one list per frame. */
    const frameCommands: seq<PendingExecutionBuffers>
    /** `myCommands` of `TransferScheduler`. */
    const transferCommands: PendingExecutionBuffers
    /** `myGraphicsWaitsTransfer`. */
    var graphicsWaitsTransfer: bool

    ghost function Lists(): set<PendingExecutionBuffers>
    {
      (set p | p in frameCommands) + {transferCommands}
    }

    ghost predicate Valid()
      reads this, Lists()
    {
      && sync.HasFrames(frames) && sync.Distinct()
      && |frameCommands| == frames
      && (forall i, j :: 0 <= i < j < frames ==> frameCommands[i] != frameCommands[j])
      && transferCommands !in frameCommands
      && (forall p :: p in Lists() ==> p.Valid() && p.internalSync == internalSync)
    }

    /** `Scheduler(frames)`: three semaphores and one signaled fence per frame, empty lists, flag clear. */
    constructor (device: Device, frames: nat, internalSync: bool)
      modifies device`nextId, device`fenceSignaled
      ensures Valid() && fresh(Lists())
      ensures this.device == device && this.frames == frames && this.internalSync == internalSync
      ensures !graphicsWaitsTransfer
      ensures forall p :: p in Lists() ==> p.history == []
      ensures forall f :: 0 <= f < frames ==> sync.inFlight[f] in device.fenceSignaled && device.fenceSignaled[sync.inFlight[f]]
    {
      var frameSync := MakeFrameSync(device, frames);
      var lists := MakePendingLists(frames, internalSync);
      var t := new PendingExecutionBuffers(internalSync);
      this.device := device;
      this.internalSync := internalSync;
      this.frames := frames;
      sync := frameSync;
      frameCommands := lists;
      transferCommands := t;
      graphicsWaitsTransfer := false;
    }

    /** The getters of `SchedulerBase`: `.at(frame)` on each per-frame array. */
    function ImageAvailableSemaphore(frame: nat): (r: Result<Handle>)
      requires sync.HasFrames(frames)
      ensures r.Ok? <==> frame < frames
      ensures r.Ok? ==> r.value == sync.imageAvailable[frame]
    {
      At(sync.imageAvailable, frame)
    }

    function RenderCompletedSemaphore(frame: nat): (r: Result<Handle>)
      requires sync.HasFrames(frames)
      ensures r.Ok? <==> frame < frames
      ensures r.Ok? ==> r.value == sync.renderCompleted[frame]
    {
      At(sync.renderCompleted, frame)
    }

    function TransferCompletedSemaphore(frame: nat): (r: Result<Handle>)
      requires sync.HasFrames(frames)
      ensures r.Ok? <==> frame < frames
      ensures r.Ok? ==> r.value == sync.transferCompleted[frame]
    {
      At(sync.transferCompleted, frame)
    }

    function InFlightFence(frame: nat): (r: Result<Handle>)
      requires sync.HasFrames(frames)
      ensures r.Ok? <==> frame < frames
      ensures r.Ok? ==> r.value == sync.inFlight[frame]
    {
      At(sync.inFlight, frame)
    }

    /** `make_command_buffer`: one fresh primary command buffer with nothing recorded. */
    method MakeCommandBuffer() returns (buffer: CommandBuffer)
      modifies device`nextId
      ensures fresh(buffer) && buffer.commands == [] && buffer.handle == Live(old(device.nextId))
    {
      var h := device.Create();
      buffer := new CommandBuffer(h);
    }

    /**
     * `wait_fence`: `outcome` is what `waitForFences` returned. Anything but
     * success is an error and leaves the fence alone; success resets it.
     */
    method WaitFence(fence: Handle, outcome: VkResult) returns (r: Result<()>)
      modifies device`fenceSignaled
      ensures r.Ok? <==> outcome == Success
      ensures r.Err? ==> r.error == FenceWaitFailed && device.fenceSignaled == old(device.fenceSignaled)
      ensures r.Ok? ==> device.fenceSignaled == old(device.fenceSignaled)[fence := false]
    {
      if outcome != Success {
        return Err(FenceWaitFailed);
      }
      device.ResetFence(fence);
      return Ok(());
    }

    /** `ask_for_waiting_for_transfer`. */
    method AskForWaitingForTransfer()
      modifies this`graphicsWaitsTransfer
      ensures graphicsWaitsTransfer
    {
      graphicsWaitsTransfer := true;
    }

    /**
     * `take_transfer_pause_flag`: the compare-and-exchange from true to false
     * reports the previous value and always leaves the flag clear, so one ask
     * is taken at most once.
     */
    method TakeTransferPauseFlag() returns (taken: bool)
      modifies this`graphicsWaitsTransfer
      ensures taken == old(graphicsWaitsTransfer) && !graphicsWaitsTransfer
    {
      var shouldWait := true;
      var flagTaken: bool;
      if graphicsWaitsTransfer == shouldWait {
        graphicsWaitsTransfer := false;
        flagTaken := true;
      } else {
        shouldWait := graphicsWaitsTransfer;
        flagTaken := false;
      }
      taken := shouldWait && flagTaken;
    }

    /** `postpone_graphics_commands`: appends to the list of `frame`, or the range error. */
    method PostponeGraphicsCommands(commands: CommandBuffer, frame: nat) returns (r: Result<()>)
      requires Valid()
      modifies if frame < |frameCommands| then {frameCommands[frame]} else {}
      ensures Valid()
      ensures r.Ok? <==> frame < frames
      ensures r.Ok? ==> frameCommands[frame].history == old(frameCommands[frame].history) + [Postponed(commands.handle)]
    {
      if frame >= |frameCommands| {
        return Err(OutOfRange);
      }
      frameCommands[frame].Postpone(commands);
      return Ok(());
    }

    /**
     * `submit_graphics_commands`: moves the frame's list to execution and builds
     * the batch. A failed `assert (!buffers.empty())` is `DebugAssertion`.
     */
    method SubmitGraphicsCommands(frame: nat) returns (r: Result<SubmitInfo>)
      requires Valid()
      modifies if frame < |frameCommands| then {frameCommands[frame]} else {}
      ensures Valid()
      ensures frame >= frames ==> r == Err(OutOfRange)
      ensures frame < frames ==> frameCommands[frame].history == old(frameCommands[frame].history) + [BeganExecution]
      ensures frame < frames && frameCommands[frame].Empty() ==> r == Err(DebugAssertion)
      ensures frame < frames && !frameCommands[frame].Empty() ==>
                r == GraphicsSubmission(sync, frame, frameCommands[frame].ExecutingHandles())
    {
      if frame >= |frameCommands| {
        return Err(OutOfRange);
      }
      var buffers := frameCommands[frame];
      buffers.BeginExecution();
      if buffers.Empty() {
        return Err(DebugAssertion);
      }
      var commands := buffers.ExecutingHandles();
      var fence := InFlightFence(frame).value;
      var waitSemaphores := [ImageAvailableSemaphore(frame).value, TransferCompletedSemaphore(frame).value];
      var waitStages := [ColorAttachmentOutput, Transfer];
      var signalSemaphores := [RenderCompletedSemaphore(frame).value];
      return Ok(SubmitInfo(waitSemaphores, waitStages, commands, signalSemaphores, fence));
    }

    // `make_graphics_command_buffers` and `make_transfer_command_buffers` differ only in the pool: `MakeCommandBuffer`.

    /** `postpone_transfer_commands`. */
    method PostponeTransferCommands(commands: CommandBuffer)
      requires Valid()
      modifies transferCommands
      ensures Valid()
      ensures transferCommands.history == old(transferCommands.history) + [Postponed(commands.handle)]
      ensures transferCommands.buffers == old(transferCommands.buffers) + [commands]
    {
      transferCommands.Postpone(commands);
    }

    /**
     * `submit_transfer_commands`: execution begins before the `.at(frame)` that
     * may fail, so an out-of-range frame still moves the pending list.
     */
    method SubmitTransferCommands(frame: nat) returns (r: Result<SubmitInfo>)
      requires Valid()
      modifies transferCommands
      ensures Valid()
      ensures transferCommands.history == old(transferCommands.history) + [BeganExecution]
      ensures transferCommands.Empty() ==> r == Err(DebugAssertion)
      ensures !transferCommands.Empty() ==> r == TransferSubmission(sync, frame, transferCommands.ExecutingHandles())
    {
      transferCommands.BeginExecution();
      if transferCommands.Empty() {
        return Err(DebugAssertion);
      }
      var commands := transferCommands.ExecutingHandles();
      var signal := TransferCompletedSemaphore(frame);
      if signal.Err? {
        return Err(signal.error);
      }
      return Ok(SubmitInfo([], [], commands, [signal.value], Null));
    }

    /** `present_image`: `outcome` is what `presentKHR` returned; anything but success is an error. */
    method PresentImage(swapchain: Handle, image: nat, frame: nat, outcome: VkResult) returns (r: Result<PresentInfo>)
      requires sync.HasFrames(frames)
      ensures frame >= frames ==> r == Err(OutOfRange)
      ensures frame < frames && outcome != Success ==> r == Err(PresentFailed)
      ensures frame < frames && outcome == Success ==> r == Presentation(sync, swapchain, image, frame)
    {
      var wait := RenderCompletedSemaphore(frame);
      if wait.Err? {
        return Err(wait.error);
      }
      var info := PresentInfo([wait.value], swapchain, image);
      if outcome != Success {
        return Err(PresentFailed);
      }
      return Ok(info);
    }
  }
}
