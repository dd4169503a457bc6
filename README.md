# ignis-graphics in Dafny

A Dafny model of the bookkeeping core of **ignis-graphics**, a C++ layer over
Vulkan that hands out GPU resources and keeps frames in flight in step. The
native calls (Vulkan, VMA, shaderc, GLFW) are replaced by their inputs and
outputs: memory-property flags, capability lists, result codes and opaque
handles. What is left is the library's own logic, and that is modelled here:

- the heap selector, which keeps two ordered multisets of heap descriptors and
  serves allocation requests from them (`memory_selector.dfy`);
- the scheduler: pending and executing command-buffer lists, per-frame
  semaphores and fences, the "graphics waits for transfer" flag and the exact
  submit batches (`scheduler.dfy`), with the two-slot command buffer
  (`double_command_buffer.dfy`) and the frame-slot arrays (`sync_tools.dfy`);
- swapchain and depth-buffer property selection and their per-frame state
  (`swapchain_manager.dfy`, `swapchain.dfy`, `depth_manager.dfy`);
- the transfer manager with its cache of persistent memory mappings
  (`transfer_manager.dfy`);
- memory-type and device selection, and the queue-family assignment
  (`resource_allocator.dfy`, `core.dfy`);
- the resource factories: usage, sharing and allocation flags, handle value
  types with their moves, and the handle registries (`resource_memory.dfy`,
  `buffer.dfy`, `image.dfy`, `shader.dfy`);
- the render-pass and subpass builders (`render_pass.dfy`);
- the input map of button and mouse axes (`input_map.dfy`, `axis.dfy`);
- the debug-only checks `is_enum_valid` and `debug_throw`
  (`debug_assert.dfy`) and the frame-count check (`core_dependent.dfy`).

Shared modules: `Outcomes` (Option, Result and one `Error` constructor per
exception the library throws), `Vulkan` (handles, flags, formats and a
`Device` class that stands in for native object creation, fence states and
memory contents), `Numerics` (bit tests and the rounded square root) and
`Search` (the first-match search over a preference list).

Each header is one module. An exception becomes an `Err` result. A failed
`assert` or `debug_throw` becomes `Err(DebugAssertion)`, the outcome of a
debug build; `DebugAssert` models both builds, with the release build
accepting everything. A `.at()` past the end becomes `Err(OutOfRange)`. Classes whose members the source updates in
place are Dafny classes whose methods are proved against specification
functions; pure helpers are functions with lemmas.

## Model

| member | source | states |
|---|---|---|
| MemorySelector.FlagsWeight | include/ignis/detail/memory_selector.hxx:101-128 | `get_flags_weight` is never below 1 |
| MemorySelector.FlagsWeightBounded | include/ignis/detail/memory_selector.hxx:86-128 | every weight lies between 1 and `get_max_flags_weight` of its preference |
| MemorySelector.ImmutableCoherentFastWeightIsFloor | include/ignis/detail/memory_selector.hxx:109-127 | under fast access, host-coherent immutable memory gets weight 1 because 1/8 is 0 in integers; without the coherent bit, device-local memory gets 4096 |
| MemorySelector.HeapEntriesFresh | include/ignis/detail/memory_selector.hxx:152-166 | every record `make_heap_set` emplaces is an admitted type, has total = best = worst = heap size and no users, and a flags score between 1 and the maximum |
| MemorySelector.FirstBelow | include/ignis/detail/memory_selector.hxx:76-77 | the multiset's insertion point: every record before it has a key at least the new one's, and the record at it has a smaller key |
| MemorySelector.FirstAtMostFrom | include/ignis/detail/memory_selector.hxx:76-77 | the lower-bound search of `emplace_hint` from a position: the records skipped have larger keys, and the one found has a key no larger |
| MemorySelector.InsertAtIndex | include/ignis/detail/memory_selector.hxx:76-77 | inserting at a position shifts the tail by one, places the record there and adds exactly it to the multiset |
| MemorySelector.InsertAtSorted | include/ignis/detail/memory_selector.hxx:28-77 | inserting between a key no smaller and a key no larger keeps the set descending and adds exactly one record |
| MemorySelector.InsertEqualPreserves | include/ignis/detail/memory_selector.hxx:165 | the unhinted `emplace` keeps the set descending and adds exactly the record |
| MemorySelector.InsertEqualStable | include/ignis/detail/memory_selector.hxx:152-165 | emplacing types in index order keeps records of equal key in index order |
| MemorySelector.HeapSetStep | include/ignis/detail/memory_selector.hxx:152-166 | one loop iteration of `make_heap_set` keeps its invariant: admitted types are emplaced, skipped types leave the set alone |
| MemorySelector.EmplaceHeap | include/ignis/detail/memory_selector.hxx:154-165 | the loop body of `make_heap_set` takes the set built from the first i types to the set built from the first i+1 |
| MemorySelector.MakeHeapSet | include/ignis/detail/memory_selector.hxx:142-172 | the result is descending, stable by index and a permutation of one fresh record per admitted type; it is an error exactly when no type is admitted |
| MemorySelector.Suitability | include/ignis/detail/memory_selector.hxx:176-215 | a non-zero score means the request fits the best estimate and the type bit is set in the mask; a fitting, allowed record with best = worst scores exactly 1 |
| MemorySelector.UpperBoundFromKeepsFits | include/ignis/detail/memory_selector.hxx:239-240 | on sizes partitioned by fit, every record before the search's cut can hold the request |
| MemorySelector.UpperBoundFromKeepsMisses | include/ignis/detail/memory_selector.hxx:239-240 | on sizes partitioned by fit, no record from the cut on can hold the request |
| MemorySelector.UpperBoundCountsFits | include/ignis/detail/memory_selector.hxx:239-240 | when the best sizes are partitioned by fit, the cut is exactly the number of records that fit |
| MemorySelector.UpperBoundCanSkipFittingHeap | include/ignis/detail/memory_selector.hxx:237-247 | on a set sorted by score × size, the cut can fall before a record that fits: a 3-record example cuts after the first although the third holds the request |
| MemorySelector.SelectionUpToIsLeast | include/ignis/detail/memory_selector.hxx:242-258 | the ascending-multimap pick is none iff no record scores above 0; otherwise it has the least positive score, and no earlier record ties with it |
| MemorySelector.SelectionIsLeastFitting | include/ignis/detail/memory_selector.hxx:233-259 | `find_suitable_memory` hands out a record before the cut that fits the request and whose type the mask allows, with the least positive score |
| MemorySelector.FreshSelectionIsFirstFit | include/ignis/detail/memory_selector.hxx:242-258 | while best = worst (a fresh heap), every fitting record scores 1, so the pick is the first fitting, allowed record |
| MemorySelector.ScoreUpperBound | include/ignis/detail/memory_selector.hxx:252 | the multimap's insertion point is 0 iff the map is empty or its first score is larger |
| MemorySelector.FindSuitableMemory | include/ignis/detail/memory_selector.hxx:233-259 | the loop over the records before the cut returns the reference selection |
| MemorySelector.ChoiceFitsPreferredFirst | include/ignis/detail/memory_selector.hxx:261-278 | the preferred set is tried first and the other set only when it has no pick; the chosen record fits and is allowed; there is no choice iff neither set has a pick |
| MemorySelector.AfterEmplace | include/ignis/detail/memory_selector.hxx:217-231 | index, flags scores and total size are kept; the best estimate drops by exactly the request; the worst becomes (worst − size)/2; one more user |
| MemorySelector.WorstStaysBelowBest | include/ignis/detail/memory_selector.hxx:227-228 | while the request fits the worst estimate, the worst estimate stays at or below the best one |
| MemorySelector.Key | include/ignis/detail/memory_selector.hxx:30-41 | the sort key is the score times the best available size as a `size_t`, equal to the true product below 2^64 |
| MemorySelector.KeyWraps | include/ignis/detail/memory_selector.hxx:37-39 | the key's `size_t` product wraps: score 4096 on a 4 PiB heap orders as 0 |
| MemorySelector.WorstEstimateWraps | include/ignis/detail/memory_selector.hxx:228 | a request above the worst estimate makes the `size_t` subtraction wrap, so the worst estimate jumps near 2^63 |
| MemorySelector.RemoveSorted | include/ignis/detail/memory_selector.hxx:295 | `erase` keeps the set descending and removes exactly that record |
| MemorySelector.EmplaceHintPreserves | include/ignis/detail/memory_selector.hxx:296 | `emplace_hint` keeps the set descending and adds exactly the record, wherever the hint points |
| MemorySelector.ReinsertPreserves | include/ignis/detail/memory_selector.hxx:292-296 | erase plus `emplace_hint` keeps the set descending and its size, and swaps exactly the old record for the new one |
| MemorySelector.OptimalMemorySelector.FromSets | include/ignis/detail/memory_selector.hxx:281-284 | the selector holds the two sets it is built from, and they meet its invariant |
| MemorySelector.OptimalMemorySelector.ChooseMemoryHeap | include/ignis/detail/memory_selector.hxx:261-278 | returns the reference choice, and throws "no suitable heaps" exactly when there is none |
| MemorySelector.OptimalMemorySelector.RequestMemoryHeap | include/ignis/detail/memory_selector.hxx:286-299 | on failure both sets are unchanged; otherwise it returns the chosen record's type index, replaces that record by its updated copy in its set, leaves the other set alone, and keeps the invariant |
| MemorySelector.BuiltSetValid | include/ignis/detail/memory_selector.hxx:142-172 | a set that `make_heap_set` builds meets the selector's invariant |
| MemorySelector.AdmittedSameForBothPreferences | include/ignis/detail/memory_selector.hxx:160-165 | the fast and large sets hold the same number of records |
| MemorySelector.RateMemoryAmount | include/ignis/detail/memory_selector.hxx:130-140 | the unused `rate_memory_amount` is 16 times the rounded square root of the whole mebibytes |
| MemorySelector.UpperBound | include/ignis/detail/memory_selector.hxx:239-240 | the `upper_bound` position never lies past the end of the heap sequence |
| MemorySelector.Selection | include/ignis/detail/memory_selector.hxx:242-258 | a selected record is a position inside the heap sequence |
| MemorySelector.OptimalMemorySelector.Make | include/ignis/detail/memory_selector.hxx:281-284 | the constructor fails with "no acceptable memory" exactly when no memory type is admitted (lines 168-169); otherwise both heap sets hold exactly the records `make_heap_set` builds for each preference |
| Scheduler.AllPostponed | include/ignis/detail/scheduler.hxx:72-79 | the unsynchronised list keeps every handle ever postponed, so it never holds more handles than there were events |
| Scheduler.AllPostponedOnlyGrows | include/ignis/detail/scheduler.hxx:72-81 | without internal synchronisation the handle list only grows: the list after more events extends the earlier one |
| Scheduler.AllPostponedKeeps | include/ignis/detail/scheduler.hxx:72-81 | a postponed handle stays in the unsynchronised list whatever follows |
| Scheduler.BatchThenPendingIsRecentTail | include/ignis/detail/scheduler.hxx:23-45 | the executing batch followed by the pending list is a tail of everything ever postponed, in postponement order |
| Scheduler.SinceLastBeginIsSuffix | include/ignis/detail/scheduler.hxx:23-45 | what is pending since the last `begin_execution` is a tail of everything ever postponed |
| Scheduler.PendingExecutionBuffers.constructor | include/ignis/detail/scheduler.hxx:57-65 | a new list has no pending, no executing buffers and no history |
| Scheduler.PendingExecutionBuffers.Postpone | include/ignis/detail/scheduler.hxx:23-32 | `postpone_commands` appends the buffer and its handle to the pending lists, leaves the executing lists alone and records the event |
| Scheduler.PendingExecutionBuffers.BeginExecution | include/ignis/detail/scheduler.hxx:34-45 | with internal synchronisation the pending lists become the executing lists and the pending lists are emptied; without it (line 81) nothing changes |
| Scheduler.PendingExecutionBuffers.ExecutingHandles | include/ignis/detail/scheduler.hxx:47-50 | the executing handles are the batch postponed before the last `begin_execution`; without internal synchronisation (lines 83-86) they are every handle ever postponed |
| Scheduler.PendingExecutionBuffers.Empty | include/ignis/detail/scheduler.hxx:52-54 | `empty` holds exactly when there are no executing handles (lines 88-90 for the unsynchronised list) |
| Scheduler.GraphicsSubmission | include/ignis/detail/scheduler.hxx:342-376 | a graphics submission exists exactly for a frame in range; it carries the executing handles and the frame's in-flight fence, and two wait semaphores with two matching wait stages |
| Scheduler.TransferSubmission | include/ignis/detail/scheduler.hxx:412-433 | a transfer submission exists exactly for a frame in range; it waits on nothing, has no fence and carries the executing handles |
| Scheduler.Presentation | include/ignis/detail/scheduler.hxx:453-465 | a presentation exists exactly for a frame in range and names the given swapchain and image |
| Scheduler.FrameChain | include/ignis/detail/scheduler.hxx:342-465 | within a frame the graphics batch waits, at the transfer stage, on the semaphore the transfer batch signals, and the presentation waits on what the graphics batch signals |
| Scheduler.NoSelfWait | include/ignis/detail/scheduler.hxx:195-238 | with distinct semaphores the graphics batch never waits on what it signals, and two frames never signal the same semaphore |
| Scheduler.MakeSemaphores | include/ignis/detail/scheduler.hxx:195-207 | `make_semaphores` returns `count` consecutive fresh handles |
| Scheduler.MakeFences | include/ignis/detail/scheduler.hxx:209-222 | `make_fences` returns `count` consecutive fresh fences, all created in the requested state, and leaves other fences unchanged |
| Scheduler.MakeFrameSync | include/ignis/detail/scheduler.hxx:230-238 | the base constructor makes one of each semaphore and one fence per frame, all distinct, and every in-flight fence starts signaled |
| Scheduler.MakePendingLists | include/ignis/detail/scheduler.hxx:317-327 | the graphics scheduler makes one fresh, empty and distinct pending list per frame |
| Scheduler.ConsecutiveRunsDistinct | include/ignis/detail/scheduler.hxx:230-235 | three semaphore arrays created one after another never share a handle |
| Scheduler.Scheduler.constructor | include/ignis/detail/scheduler.hxx:487-489 | the scheduler starts with `frames` empty per-frame lists, an empty transfer list, the transfer flag cleared and every in-flight fence signaled |
| Scheduler.Scheduler.ImageAvailableSemaphore | include/ignis/detail/scheduler.hxx:252-255 | the frame's image-available semaphore, or an out-of-range error exactly when the frame is not below the frame count |
| Scheduler.Scheduler.RenderCompletedSemaphore | include/ignis/detail/scheduler.hxx:257-260 | the frame's render-completed semaphore, or an out-of-range error exactly when the frame is not below the frame count |
| Scheduler.Scheduler.TransferCompletedSemaphore | include/ignis/detail/scheduler.hxx:262-265 | the frame's transfer-completed semaphore, or an out-of-range error exactly when the frame is not below the frame count |
| Scheduler.Scheduler.InFlightFence | include/ignis/detail/scheduler.hxx:267-270 | the frame's in-flight fence, or an out-of-range error exactly when the frame is not below the frame count |
| Scheduler.Scheduler.MakeCommandBuffer | include/ignis/detail/scheduler.hxx:240-250 | a fresh, empty primary command buffer with a new handle |
| Scheduler.Scheduler.WaitFence | include/ignis/detail/scheduler.hxx:272-281 | a failed wait is an error and leaves every fence alone; a successful wait resets exactly the waited fence |
| Scheduler.Scheduler.AskForWaitingForTransfer | include/ignis/detail/scheduler.hxx:283-285 | the transfer-pause flag is set |
| Scheduler.Scheduler.TakeTransferPauseFlag | include/ignis/detail/scheduler.hxx:287-294 | returns whether the flag was set and leaves it cleared |
| Scheduler.Scheduler.PostponeGraphicsCommands | include/ignis/detail/scheduler.hxx:335-340 | succeeds exactly for a frame in range, and then appends the buffer to that frame's list |
| Scheduler.Scheduler.SubmitGraphicsCommands | include/ignis/detail/scheduler.hxx:342-377 | an out-of-range frame is an error; otherwise the frame's list begins execution, an empty batch fails the debug assertion and a non-empty one is submitted as `GraphicsSubmission` describes |
| Scheduler.Scheduler.PostponeTransferCommands | include/ignis/detail/scheduler.hxx:408-410 | the buffer is appended to the single transfer list |
| Scheduler.Scheduler.SubmitTransferCommands | include/ignis/detail/scheduler.hxx:412-433 | the transfer list begins execution even when the frame is out of range; an empty batch fails the debug assertion and a non-empty one is submitted as `TransferSubmission` describes |
| Scheduler.Scheduler.PresentImage | include/ignis/detail/scheduler.hxx:453-470 | an out-of-range frame is an error, a failed `presentKHR` is an error, and otherwise the presentation is as `Presentation` describes |
| DoubleCommandBuffer.SlotsAfter | include/ignis/detail/double_command_buffer.hxx:38-46 | after an even number of swaps the buffers are back in their first slots, after an odd number they are exchanged |
| DoubleCommandBuffer.SlotsAlternate | include/ignis/detail/double_command_buffer.hxx:38-46 | two swaps restore the slots, consecutive executions never hand out the same buffer, and the two slots always hold the two original buffers |
| DoubleCommandBuffer.DoubleCommandBuffer.Double | include/ignis/detail/double_command_buffer.hxx:19-25 | the double-buffered object starts with the given executing and collector buffers and no swaps |
| DoubleCommandBuffer.DoubleCommandBuffer.Single | include/ignis/detail/double_command_buffer.hxx:58-61 | the single-buffered object uses the one buffer for both purposes |
| DoubleCommandBuffer.DoubleCommandBuffer.GetForWriting | include/ignis/detail/double_command_buffer.hxx:33-36 | with double buffering, the collector is the buffer that the swap count puts in the collector slot; otherwise (lines 69-72) it is the single buffer |
| DoubleCommandBuffer.DoubleCommandBuffer.GetForExecution | include/ignis/detail/double_command_buffer.hxx:38-46 | the previously executing buffer is reset and, with double buffering, the slots are swapped so the returned handle is the buffer that collected the commands; without double buffering (lines 74-78) the single buffer is reset and returned |
| SyncTools.SyncTools.constructor | include/ignis/detail/sync_tools.hxx:47-57 | one object per frame in each of the five arrays, and every in-flight and transfer fence starts signaled |
| SyncTools.SyncTools.IsValid | include/ignis/detail/sync_tools.hxx:95-104 | `is_valid` holds exactly when the object was built for at least one frame |
| SyncTools.SyncTools.Checked | include/ignis/detail/sync_tools.hxx:65-69 | a failed `is_valid` assertion is an error; otherwise the entry at `frame`, or an out-of-range error exactly when there is none |
| SyncTools.SyncTools.ImageAvailableSemaphore | include/ignis/detail/sync_tools.hxx:65-69 | succeeds exactly for a frame in range and then returns that frame's semaphore |
| SyncTools.SyncTools.RenderCompletedSemaphore | include/ignis/detail/sync_tools.hxx:71-75 | succeeds exactly for a frame in range and then returns that frame's semaphore |
| SyncTools.SyncTools.TransferCompletedSemaphore | include/ignis/detail/sync_tools.hxx:77-81 | succeeds exactly for a frame in range and then returns that frame's semaphore |
| SyncTools.SyncTools.InFlightFence | include/ignis/detail/sync_tools.hxx:83-87 | succeeds exactly for a frame in range and then returns that frame's fence |
| SyncTools.SyncTools.TransferFence | include/ignis/detail/sync_tools.hxx:89-93 | succeeds exactly for a frame in range and then returns that frame's fence |
| SwapchainManager.PickPresentMode | include/ignis/detail/swapchain_manager.hxx:27-64 | the chosen mode is offered by the surface and is the first of the preference list that is; the pick fails with "no suitable present mode" exactly when no preferred mode is offered |
| SwapchainManager.SingleFrameNeedsImmediate | include/ignis/detail/swapchain_manager.hxx:37-38 | with one frame the pick is Immediate when offered and fails otherwise |
| SwapchainManager.PresentModeOrdersReversed | include/ignis/detail/swapchain_manager.hxx:41-52 | with more than one frame the order without vsync is exactly the vsync order reversed |
| SwapchainManager.PresentModeFailsOnlyOnShared | include/ignis/detail/swapchain_manager.hxx:40-63 | with more than one frame the pick fails exactly when the surface offers only shared-refresh modes |
| SwapchainManager.Reverse | include/ignis/detail/swapchain_manager.hxx:41-52 | the reversal keeps the length and mirrors every position |
| SwapchainManager.VsyncPrefersMailbox | include/ignis/detail/swapchain_manager.hxx:41-46 | with vsync and more than one frame, Mailbox wins whenever the surface offers it |
| SwapchainManager.SrgbFormats | include/ignis/detail/swapchain_manager.hxx:71-75 | a format is collected exactly when the surface offers it in the sRGB non-linear colour space |
| SwapchainManager.PickColorFormat | include/ignis/detail/swapchain_manager.hxx:66-90 | the pick is the first desired format offered in sRGB non-linear, paired with that colour space; it fails with "no suitable colour format" exactly when none of the four is offered |
| SwapchainManager.PickDepthFormat | include/ignis/detail/swapchain_manager.hxx:92-110 | the pick is the first of the six depth formats with optimal-tiling depth-stencil support; it fails exactly when none has it |
| SwapchainManager.PickProperties | include/ignis/detail/swapchain_manager.hxx:121-138 | the properties exist exactly when all three picks succeed and then hold the picked formats and mode, `frames` images and the surface's current extent; a colour-format failure is reported first |
| SwapchainManager.AccessibleFamilies | include/ignis/detail/swapchain_manager.hxx:148-151 | the flat set of the graphics and present families: strictly ascending and holding exactly those two families |
| SwapchainManager.SwapchainCreateInfoFor | include/ignis/detail/swapchain_manager.hxx:140-173 | sharing is concurrent exactly when the two families differ, the family list is the flat set, and every other field comes from the properties and the old swapchain |
| SwapchainManager.MakeViews | include/ignis/detail/swapchain_manager.hxx:189-218 | one fresh view per image, created in order |
| SwapchainManager.NextFrame | include/ignis/detail/swapchain_manager.hxx:243-246 | the next frame, computed with the 32-bit wrapping increment, is always below the image count |
| SwapchainManager.FrameAfter | include/ignis/detail/swapchain_manager.hxx:243-246 | every frame reached by repeated stepping is below the image count |
| SwapchainManager.FirstRoundInOrder | include/ignis/detail/swapchain_manager.hxx:243-246 | stepping from frame 0 visits 0, 1, .. in order during the first round |
| SwapchainManager.SmallMod | include/ignis/detail/swapchain_manager.hxx:245 | a value below the modulus is its own remainder |
| SwapchainManager.FramesCycle | include/ignis/detail/swapchain_manager.hxx:243-246 | the frame counter cycles with period equal to the image count |
| SwapchainManager.SwapchainManager.FromParts | include/ignis/detail/swapchain_manager.hxx:295-299 | the object holds exactly the given properties, swapchain, images and views |
| SwapchainManager.SwapchainManager.Make | include/ignis/detail/swapchain_manager.hxx:221-231 | a failing pick is the constructor's error and creates nothing; otherwise the manager holds the picked properties, the driver's images, one view per image and a create-info without an old swapchain |
| SwapchainManager.SwapchainManager.GetNextFrame | include/ignis/detail/swapchain_manager.hxx:243-246 | the result is below the image count and, for a current frame in range, is the next frame modulo the image count |
| SwapchainManager.SwapchainManager.AcquireNextImage | include/ignis/detail/swapchain_manager.hxx:248-266 | an out-of-range frame or a failed fence wait is an error that leaves the fences alone; after a successful wait exactly the frame's in-flight fence is reset, and only a successful acquire returns the image |
| SwapchainManager.SwapchainManager.MakeFramebuffers | include/ignis/detail/swapchain_manager.hxx:268-292 | one fresh framebuffer per view, in order |
| Swapchain.PickPresentMode | include/ignis/detail/swapchain.hxx:28-64 | the same preference lists and first-match rule as the swapchain manager's pick |
| Swapchain.PickFormat | include/ignis/detail/swapchain.hxx:66-97 | the pick is offered in sRGB non-linear, supports colour attachments with optimal tiling, and is the first desired format that does both; it fails exactly when none does |
| Swapchain.PickFormatRefinesManager | include/ignis/detail/swapchain.hxx:85-94 | whenever this pick succeeds the manager's pick does too, and when every desired format is renderable the two picks agree |
| Swapchain.PickFormatSkipsUnrenderable | include/ignis/detail/swapchain.hxx:87-89 | when B8G8R8A8 sRGB cannot be rendered to, the manager's pick still takes it but this pick takes R8G8B8A8 sRGB |
| Swapchain.PickProperties | include/ignis/detail/swapchain.hxx:109-124 | the properties exist exactly when the format and mode picks succeed and then hold them, `frames` images and the surface's current extent |
| Swapchain.ResetState | include/ignis/detail/swapchain.hxx:298-307 | after `reset` the swapchain is not valid and keeps its properties; a valid one drops its handle, images and views, and an invalid one is left as it was |
| Swapchain.ResetIdempotent | include/ignis/detail/swapchain.hxx:298-307 | resetting twice is the same as resetting once |
| Swapchain.MovedFrom | include/ignis/detail/swapchain.hxx:218 | a moved-from swapchain is not valid and keeps its properties |
| Swapchain.MoveAssigned | include/ignis/detail/swapchain.hxx:223-236 | the target takes every member of the source and is valid exactly when the source was; the source is left invalid |
| Swapchain.MoveKeepsOneOwner | include/ignis/detail/swapchain.hxx:223-236 | moving a valid swapchain leaves exactly one owner, the target, holding the source's handle |
| Swapchain.Swapchain.FromState | include/ignis/detail/swapchain.hxx:310-314 | the object holds exactly the given members |
| Swapchain.Swapchain.Make | include/ignis/detail/swapchain.hxx:205-216 | the constructor fails exactly when the pick fails, creating nothing; otherwise the swapchain is non-null, holds the picked properties, the driver's images and one view per image, and is created with the given old swapchain |
| Swapchain.Swapchain.MoveFrom | include/ignis/detail/swapchain.hxx:218 | the new object takes the source's members and the source is left moved-from |
| Swapchain.Swapchain.IsValid | include/ignis/detail/swapchain.hxx:290-296 | holds exactly when the handle is non-null and there are images and views |
| Swapchain.Swapchain.Reset | include/ignis/detail/swapchain.hxx:298-307 | the new state is `ResetState` of the old |
| Swapchain.Swapchain.MoveAssign | include/ignis/detail/swapchain.hxx:223-236 | self-assignment changes nothing; otherwise both objects end as `MoveAssigned` describes |
| Swapchain.Swapchain.GetSwapchain | include/ignis/detail/swapchain.hxx:238-242 | succeeds exactly on a valid swapchain and then returns its non-null handle |
| Swapchain.Swapchain.GetView | include/ignis/detail/swapchain.hxx:244-248 | succeeds exactly on a valid swapchain with the frame in range and returns that frame's view |
| Swapchain.Swapchain.GetNextFrame | include/ignis/detail/swapchain.hxx:260-264 | succeeds exactly on a valid swapchain and then returns a frame below the image count, `(current + 1) % images` for a frame in range |
| Swapchain.Swapchain.AcquireNextImage | include/ignis/detail/swapchain.hxx:266-288 | an invalid swapchain or sync tools fail the debug assertion, an out-of-range frame or failed wait is an error, all leaving the fences alone; after a successful wait exactly the frame's in-flight fence is reset, and only a successful acquire returns the image |
| TransferManager.MemoryMapping.constructor | include/ignis/detail/transfer_manager.hxx:17-30 | a new mapping owns a pointer at the requested offset and maps its memory once more on the device |
| TransferManager.MemoryMapping.MoveFrom | include/ignis/detail/transfer_manager.hxx:36-42 | the new mapping takes the source's device, memory and pointer; the source is left empty and owns nothing |
| TransferManager.MemoryMapping.GetPointer | include/ignis/detail/transfer_manager.hxx:66-69 | the pointer is returned exactly when the mapping owns one; otherwise the debug assertion fails |
| TransferManager.MemoryMapping.Release | include/ignis/detail/transfer_manager.hxx:71-76 | afterwards nothing is owned; an owned mapping is unmapped exactly once, and releasing an empty one changes nothing |
| TransferManager.MemoryMapping.MoveAssign | include/ignis/detail/transfer_manager.hxx:44-57 | self-assignment changes nothing; otherwise the target releases what it held, takes the source's members and leaves the source empty |
| TransferManager.ReleaseTwice | include/ignis/detail/transfer_manager.hxx:32-34 | releasing twice (an explicit release followed by the destructor) unmaps exactly once |
| TransferManager.HostCopyResult | include/ignis/detail/transfer_manager.hxx:156-170 | the host copy never changes the size of the destination memory |
| TransferManager.ImmutableCopyWritesRange | include/ignis/detail/transfer_manager.hxx:165-170 | an immutable copy writes the data exactly on `[offset, offset + size)` and leaves every other byte alone |
| TransferManager.ConstantlyMappedCopyIgnoresOffset | include/ignis/detail/transfer_manager.hxx:156-164 | a constantly-mapped copy gives the same bytes whatever the offset, with the data at the start of the buffer |
| TransferManager.ConstantlyMappedCopyMissesOffset | include/ignis/detail/transfer_manager.hxx:158-163 | copying one byte at offset 1 into a two-byte constantly-mapped buffer writes byte 0 and leaves byte 1 as it was |
| TransferManager.CopyCommand | include/ignis/detail/transfer_manager.hxx:199-200 | one copy region from the source buffer to the destination buffer, with the given offsets and size |
| TransferManager.CopyRegionInBounds | include/ignis/detail/transfer_manager.hxx:184-200 | whenever the assertions hold, the recorded region is non-empty and lies inside both buffers |
| TransferManager.TransferManager.constructor | include/ignis/detail/transfer_manager.hxx:138 | a new manager has no cached mappings |
| TransferManager.TransferManager.FindConstantlyMapped | include/ignis/detail/transfer_manager.hxx:94-105 | a pointer is found exactly when the memory has a cached mapping, and it points at byte 0 |
| TransferManager.TransferManager.EmplaceConstantlyMapped | include/ignis/detail/transfer_manager.hxx:107-123 | the memory ends up cached with pointer 0, other entries are unchanged, and it is mapped once more exactly when it was not cached before |
| TransferManager.TransferManager.WriteConstantlyMapped | include/ignis/detail/transfer_manager.hxx:156-164 | the data lands at byte 0 of the memory through the cached mapping, which is created (and the memory mapped) only when missing |
| TransferManager.TransferManager.WriteThroughTemporaryMapping | include/ignis/detail/transfer_manager.hxx:165-170 | the data lands at `offset` and the temporary mapping is gone afterwards, so the map counts are as before |
| TransferManager.TransferManager.CopyFromHost | include/ignis/detail/transfer_manager.hxx:141-171 | accepts any buffer, a moved-from one included; fails the debug assertion, changing nothing, exactly for an empty copy, an invalid buffer or a range past its end; otherwise the memory holds `HostCopyResult`, and only a constantly-mapped buffer adds a cached mapping |
| TransferManager.TransferManager.CopyBuffer | include/ignis/detail/transfer_manager.hxx:173-204 | fails the debug assertion, changing nothing, exactly when the copy bounds do not hold; otherwise a fresh command buffer holding the one copy region is postponed on the transfer list |
| ResourceAllocator.RetrieveFlagsWeight | include/ignis/detail/resource_allocator.hxx:47-60 | the weight is at most the sum of both weights, reaches the device-local weight exactly for device-local memory, and for the immutable kind is 0 exactly without it |
| ResourceAllocator.RateMemoryAmount | include/ignis/detail/resource_allocator.hxx:62-71 | the rating is a multiple of 100 whose hundreds are the rounded square root of the whole mebibytes |
| ResourceAllocator.RateMemoryAmountMonotone | include/ignis/detail/resource_allocator.hxx:62-71 | a larger heap never rates lower |
| ResourceAllocator.AdmittedOf | include/ignis/detail/resource_allocator.hxx:91-93 | one admission flag per memory type: the mappable kind admits exactly the host-visible types, the immutable kind all |
| ResourceAllocator.RatesOf | include/ignis/detail/resource_allocator.hxx:86-89 | one rate per memory type: the rating of the heap it lives in |
| ResourceAllocator.BestUpTo | include/ignis/detail/resource_allocator.hxx:79-101 | a pick among the first `n` candidates is one of them |
| ResourceAllocator.BestTypeUpTo | include/ignis/detail/resource_allocator.hxx:79-101 | a pick among the first `n` memory types is one of them |
| ResourceAllocator.BestFoundIffAdmitted | include/ignis/detail/resource_allocator.hxx:91-99 | nothing is picked exactly when no candidate is admitted |
| ResourceAllocator.BestIsHighestRated | include/ignis/detail/resource_allocator.hxx:79-101 | the pick is admitted, and every admitted candidate rates lower or rates the same with a higher index |
| ResourceAllocator.BestUpToAgrees | include/ignis/detail/resource_allocator.hxx:79-101 | the pick depends on the admissions and rates of the first `n` candidates only |
| ResourceAllocator.BestTypeFoundIffAdmitted | include/ignis/detail/resource_allocator.hxx:91-99 | no memory type is picked exactly when the kind admits none |
| ResourceAllocator.BestTypeIsHighestRated | include/ignis/detail/resource_allocator.hxx:79-101 | the picked type is admitted, and every admitted type's heap rates lower, or the same with a higher type index |
| ResourceAllocator.PickIgnoresFlagsWeight | include/ignis/detail/resource_allocator.hxx:88-95 | two devices whose types agree on host visibility and heap size get the same pick, whatever their device-local and host-coherent bits |
| ResourceAllocator.FirstLess | include/ignis/detail/resource_allocator.hxx:79-80 | the insertion point of a map ordered by descending score: it is 0 exactly when the map is empty or its front score is smaller |
| ResourceAllocator.InsertRated | include/ignis/detail/resource_allocator.hxx:95 | inserting a new score at its insertion point keeps the highest score in front |
| ResourceAllocator.RatedStep | include/ignis/detail/resource_allocator.hxx:84-96 | one loop iteration keeps the rated map's front equal to the reference pick |
| ResourceAllocator.PickMemoryType | include/ignis/detail/resource_allocator.hxx:73-102 | fails with "no acceptable memory" exactly when the reference pick finds nothing, and otherwise returns the reference pick |
| ResourceAllocator.PickMemoryIndices | include/ignis/detail/resource_allocator.hxx:104-113 | succeeds exactly when both kinds have a pick, and then holds the immutable and the mappable pick |
| ResourceAllocator.MappableImpliesImmutable | include/ignis/detail/resource_allocator.hxx:91-99 | whenever the mappable kind finds a type, the immutable kind finds one too |
| ResourceAllocator.ResourceAllocatorState.constructor | include/ignis/detail/resource_allocator.hxx:145 | the object holds the device and the given indices |
| ResourceAllocator.ResourceAllocatorState.Make | include/ignis/detail/resource_allocator.hxx:129-131 | the constructor fails exactly when either kind has no acceptable memory, and otherwise holds both reference picks |
| ResourceAllocator.ResourceAllocatorState.Allocate | include/ignis/detail/resource_allocator.hxx:133-142 | a fresh memory object of `size` bytes, allocated from the index picked for the kind, with only the device's handle counter and memory contents changed and every other memory object's bytes kept |
| ResourceMemory.MakeAllocationFlags | include/ignis/detail/resource_memory.hxx:96-115 | best-fit is always set, `mapped` exactly for constantly-mapped access, sequential host writes for every mapped access, and no other flag |
| ResourceMemory.AllocationFlagsGrowWithMapping | include/ignis/detail/resource_memory.hxx:96-115 | the flag sets grow strictly from transfer to temporary mapping to constant mapping |
| ResourceMemory.MakeUsageFlags | include/ignis/detail/resource_memory.hxx:117-128 | device placement prefers the device, host placement prefers the host, and no preference leaves the choice automatic, each in both directions |
| ResourceMemory.AllocationCreateInfoInjective | include/ignis/detail/resource_memory.hxx:138-147 | two requests are equal exactly when their access and placement are |
| ResourceMemory.ResourceMemoryAllocator.constructor | include/ignis/detail/resource_memory.hxx:131-133 | the allocator is bound to the device |
| ResourceMemory.ResourceMemoryAllocator.MakeAllocation | include/ignis/detail/resource_memory.hxx:135-167 | one fresh allocation whose request has the access's flags, the placement's usage and priority 1 |
| Buffer.UsageBit | include/ignis/graphics/buffer.hxx:181-192 | each usage maps to one of the four usage bits |
| Buffer.ChooseMemoryType | include/ignis/graphics/buffer.hxx:165-172 | immutable buffers take the immutable memory kind and every other buffer type the mappable kind, in both directions |
| Buffer.UsageFlags | include/ignis/graphics/buffer.hxx:174-205 | the flags hold the usage's bit and no other usage bit; transfer-source is set exactly for storage or transfer reads, transfer-destination exactly for storage or transfer writes |
| Buffer.UsageFlagsIdentifyUsage | include/ignis/graphics/buffer.hxx:174-205 | equal flag sets come from the same usage, whatever the transfer options |
| Buffer.AccessibleFamilies | include/ignis/graphics/buffer.hxx:207-225 | the families are among graphics and transfer; transfer is in exactly for storage, transfer access or a shared family, graphics exactly for non-storage or a shared family |
| Buffer.BufferSharingConcurrentIff | include/ignis/graphics/buffer.hxx:207-245 | sharing is concurrent exactly for a non-storage buffer with transfer access on distinct graphics and transfer families |
| Buffer.StorageBufferExclusiveToTransfer | include/ignis/graphics/buffer.hxx:216-222 | a storage buffer is reachable from the transfer family only, and exclusively |
| Buffer.BufferCreateInfoFor | include/ignis/graphics/buffer.hxx:227-246 | the create info carries the size, the usage flags and the accessible families, concurrent exactly when there is more than one family |
| Buffer.Buffer.constructor | include/ignis/graphics/buffer.hxx:103-108 | the value holds the given memory, buffer and size |
| Buffer.Buffer.Copy | include/ignis/graphics/buffer.hxx:111 | a copy holds the same memory, buffer and size |
| Buffer.Buffer.MoveFrom | include/ignis/graphics/buffer.hxx:114-118 | the new value takes the source's fields; the source is left null with size 0, and so invalid |
| Buffer.Buffer.MoveAssign | include/ignis/graphics/buffer.hxx:120-130 | self-assignment changes nothing; otherwise the target takes the source's fields and the source is left invalid |
| Buffer.Buffer.GetSize | include/ignis/graphics/buffer.hxx:146-150 | the positive size of a valid buffer; the debug assertion fails exactly on an invalid one |
| Buffer.AfterDestroy | include/ignis/graphics/buffer.hxx:44-50 | an unknown memory leaves both registries alone; a known one is removed together with the buffer |
| Buffer.DestroyIdempotent | include/ignis/graphics/buffer.hxx:44-50 | destroying the same pair twice is the same as destroying it once |
| Buffer.DestroyUndoesEmplace | include/ignis/graphics/buffer.hxx:30-50 | destroying a freshly emplaced pair restores both registries |
| Buffer.BufferHandleStorage.constructor | include/ignis/graphics/buffer.hxx:84-88 | a new storage holds no memory and no buffers |
| Buffer.BufferHandleStorage.Emplace | include/ignis/graphics/buffer.hxx:66-76 | both handles join their registries and are returned |
| Buffer.BufferHandleStorage.Destroy | include/ignis/graphics/buffer.hxx:78-81 | the registries become `AfterDestroy` of the old ones |
| Buffer.BufferFactory.constructor | include/ignis/graphics/buffer.hxx:259-264 | a new factory has an empty storage |
| Buffer.BufferFactory.MakeBuffer | include/ignis/graphics/buffer.hxx:266-297 | a zero size, or transfer writes into an immutable buffer, fail the debug assertion and register nothing and create nothing on the device; otherwise a fresh valid buffer of the requested size, its create info, memory of the required size allocated from the memory-type index of the kind `ChooseMemoryType` gives, every other memory object's bytes kept, and its buffer and memory handles recorded in the storage |
| Buffer.BufferFactory.DestroyBuffer | include/ignis/graphics/buffer.hxx:299-303 | the registries become `AfterDestroy` of the old ones for the buffer's handles |
| Image.ImageFormatValuesAreDeclared | include/ignis/graphics/image.hxx:15-25 | every image format carries one of the eight declared `vk::Format` numbers, and each of those numbers belongs to a format |
| Image.ImageFormatRangeRejectsMembers | include/ignis/graphics/image.hxx:27-30 | the debug range check from `r8g8b8_srgb` to `r32_float` rejects the declared formats `r8_srgb`, `r8_uint_norm` and `r32g32b32a32_float` |
| Image.EveryImageFormatPasses | include/ignis/graphics/image.hxx:238 | with a membership check every declared format passes the enum assertion, in either build |
| Image.ComponentCount | include/ignis/graphics/image.hxx:140 | every image format has between one and four components |
| Image.MakeMapping | include/ignis/graphics/image.hxx:137-148 | red is always identity; green, blue and alpha are identity exactly when the format has that many components, and otherwise zero, zero and one |
| Image.MakeMappingMonotone | include/ignis/graphics/image.hxx:137-148 | more components never turn an identity swizzle off |
| Image.PickTiling | include/ignis/graphics/image.hxx:104-122 | optimal tiling exactly when it has all three required features, linear exactly when only linear tiling has them, and none otherwise |
| Image.PickedTilingHasFeatures | include/ignis/graphics/image.hxx:107-119 | a picked tiling supports sampling, linear filtering and transfer writes |
| Image.IsResolutionSupported | include/ignis/graphics/image.hxx:124-135 | supported exactly when both sides are positive and at most the device's 2D limit |
| Image.SmallerResolutionSupported | include/ignis/graphics/image.hxx:124-135 | any smaller positive size of a supported resolution is supported too |
| Image.CreateImageInfo | include/ignis/graphics/image.hxx:150-187 | fails with "not a suitable format" exactly when no tiling qualifies; otherwise the picked tiling, the format, the size, both families, concurrent exactly when they differ, and the transfer-destination layout |
| Image.Image.constructor | include/ignis/graphics/image.hxx:35-45 | the value holds the given allocation, image, view and size |
| Image.Image.Copy | include/ignis/graphics/image.hxx:48 | a copy refers to the same allocation, image and view with the same size, and is valid iff the original is |
| Image.Image.MoveFrom | include/ignis/graphics/image.hxx:51-56 | the new value takes the source's fields; the source is left null with a {0, 0} size, and so invalid |
| Image.Image.MoveAssign | include/ignis/graphics/image.hxx:58-69 | self-assignment changes nothing; otherwise the target takes the source's fields and the source is left invalid |
| Image.Image.GetSizes | include/ignis/graphics/image.hxx:86-90 | the width and height of a valid image; the debug assertion fails exactly on an invalid one |
| Image.AfterDestroyImage | include/ignis/graphics/image.hxx:269-279 | an invalid image leaves both registries alone; a valid one removes its image and its view |
| Image.DestroyUndoesMake | include/ignis/graphics/image.hxx:232-279 | destroying a freshly made image restores both registries |
| Image.ImageFactory.constructor | include/ignis/graphics/image.hxx:213-219 | a new factory holds no images and no views |
| Image.ImageFactory.MakeImage | include/ignis/graphics/image.hxx:232-267 | in a debug build the debug assertion fails exactly for zero sizes or a format outside the declared ones (the membership check, which every format passes; see "## Left out"), an unsupported resolution and an unusable format are errors, all registering nothing and creating nothing on the device; otherwise a fresh valid image of the requested size with its create info, whose image and view join the registries |
| Image.ImageFactory.DestroyImage | include/ignis/graphics/image.hxx:269-279 | the registries become `AfterDestroyImage` of the old ones |
| DepthManager.PickImageProperties | include/ignis/detail/depth_manger.hxx:20-51 | optimal tiling with the first desired format that supports depth attachments optimally; only when none does, linear tiling with the first that supports them linearly; "no depth format" exactly when neither exists |
| DepthManager.PickedFormatIsDepthCapable | include/ignis/detail/depth_manger.hxx:32-48 | the picked format is a desired one and supports depth attachments with the picked tiling |
| DepthManager.OptimalWheneverAvailable | include/ignis/detail/depth_manger.hxx:42-44 | optimal tiling is picked whenever any desired format supports it |
| DepthManager.MakeObjects | include/ignis/detail/depth_manger.hxx:53-87 | `count` fresh objects, one per iteration, in order |
| DepthManager.DestroyAll | include/ignis/detail/depth_manger.hxx:190-196 | every object is destroyed once, in order |
| DepthManager.DepthManager.FromParts | include/ignis/detail/depth_manger.hxx:227-236 | the object holds the device, format, images, allocations and views given, with the allocator held |
| DepthManager.DepthManager.Make | include/ignis/detail/depth_manger.hxx:133-149 | fails with "no depth format" exactly when the pick fails, creating nothing; otherwise `frames` images, then as many allocations, then as many views, all fresh and exclusive to the graphics family, valid exactly when `frames > 0` |
| DepthManager.DepthManager.Reset | include/ignis/detail/depth_manger.hxx:186-200 | a valid manager destroys its views, then its allocations, then its images, and drops the allocator; an invalid one changes nothing; either way it ends invalid |
| DepthManager.DepthManager.GetView | include/ignis/detail/depth_manger.hxx:212-216 | the debug assertion fails on an invalid manager; otherwise the frame's view, or an out-of-range error exactly past the last one |
| RenderPasses.DataFormatValuesAreDeclared | include/ignis/graphics/render_pass.hxx:34-54 | every `DataFormat` enumerator carries the value of one of the sixteen declared `vk::Format`s |
| RenderPasses.DataFormatRangeRejectsMembers | include/ignis/graphics/render_pass.hxx:56-59 | the debug range check from `x_float` (100) to `xyzw_uint` (107) passes a declared member iff its value lies in [100, 107], so it rejects eight of the sixteen, `x_uint` (98), `x_int` (99), `x_double` (112) and `xyzw_float` (109) among them |
| RenderPasses.EveryDataFormatPasses | include/ignis/graphics/render_pass.hxx:34-60 | a membership check accepts every declared data format in both builds |
| RenderPasses.InputAttachmentFormatsPass | include/ignis/graphics/render_pass.hxx:62-71 | `InputAttachmentFormat` is numbered 0 and 1 without gaps, so its range check accepts both members |
| RenderPasses.SampleCountsAreFlagBits | include/ignis/graphics/render_pass.hxx:535-539 | a sample count passes `has_single_bit(samples) && samples <= 64` exactly when it is 1, 2, 4, 8, 16, 32 or 64 |
| RenderPasses.OnlyColorAttachmentsEndInColorLayout | include/ignis/graphics/render_pass.hxx:357-419 | colour attachments end in `ColorAttachmentOptimal`; depth and input attachments do not; resolve attachments end in `PresentSrcKHR` |
| RenderPasses.MakeStagesAccessFlags | include/ignis/graphics/render_pass.hxx:169-199 | colour output is a stage iff there is colour or a resolve; both fragment tests iff there is depth; the fragment shader iff there is an input; nothing else; the same for access masks |
| RenderPasses.NoAttachmentsNoStages | include/ignis/graphics/render_pass.hxx:169-199 | the stage mask is empty iff the subpass has no attachment of any kind |
| RenderPasses.MakeDependency | include/ignis/graphics/render_pass.hxx:421-507 | there is no dependency iff none of the five producer/consumer pairs holds; a dependency links the two subpass indices, and each mask holds exactly the stages and accesses of the pairs that hold |
| RenderPasses.DependOnPointsBackwards | include/ignis/graphics/render_pass.hxx:608-621 | `depend_on` passes the current subpass as the source, so a recorded dependency runs from the later subpass to the earlier one |
| RenderPasses.ExampleDependOnRecordsNothing | include/ignis/graphics/render_pass.hxx:608-621 | a depth-only subpass that depends on an earlier colour-and-resolve subpass records no dependency |
| RenderPasses.PresentLast | include/ignis/graphics/render_pass.hxx:629-632 | all attachments but the last are kept; the last moves to `PresentSrcKHR` iff it ended in `ColorAttachmentOptimal` |
| RenderPasses.InsertByIndexMembers | include/ignis/graphics/render_pass.hxx:260-267 | an emplace into the set ordered by index keeps every info, adds only the new one, and adds it iff its index is new |
| RenderPasses.InsertByIndexIndices | include/ignis/graphics/render_pass.hxx:260-267 | after the emplace the indices are the old ones plus the new info's index |
| RenderPasses.InsertByIndexAscending | include/ignis/graphics/render_pass.hxx:260-267 | the emplace keeps the infos strictly ascending by index |
| RenderPasses.AscendingAbove | include/ignis/graphics/render_pass.hxx:260-267 | putting the smallest info in front of an ascending tail drawn from the rest keeps the sequence ascending |
| RenderPasses.IndexSetStep | include/ignis/graphics/render_pass.hxx:266-267 | the indices of the names visited grow by the index of the visited name |
| RenderPasses.UniqueIndexNotYetSeen | include/ignis/graphics/render_pass.hxx:266-267 | an index no other subpass shares is not among the indices already visited |
| RenderPasses.SortByIndex | include/ignis/graphics/render_pass.hxx:260-267 | the sorted infos are strictly ascending, all come from the map, cover exactly the map's indices, and include every info whose index is unique |
| RenderPasses.SortedStep | include/ignis/graphics/render_pass.hxx:266-267 | one emplace keeps the loop invariant of the sort |
| RenderPasses.Describe | include/ignis/graphics/render_pass.hxx:271-284 | one graphics description per sorted info, in order, carrying its input, colour, resolve and depth references |
| RenderPasses.RenderPass.constructor | include/ignis/graphics/render_pass.hxx:75-77 | the pass wraps the given handle |
| RenderPasses.RenderPass.Copy | include/ignis/graphics/render_pass.hxx:83-84 | a copy refers to the same handle |
| RenderPasses.RenderPass.MoveFrom | include/ignis/graphics/render_pass.hxx:86-88 | the new pass takes the handle and the source becomes null |
| RenderPasses.RenderPass.MoveAssign | include/ignis/graphics/render_pass.hxx:90-97 | self-assignment changes nothing; otherwise the handle moves and the source becomes null |
| RenderPasses.RenderPassFactory.constructor | include/ignis/graphics/render_pass.hxx:134-137 | a factory starts with no passes |
| RenderPasses.RenderPassFactory.MakeRenderPass | include/ignis/graphics/render_pass.hxx:115-127 | creates a fresh native pass, records it, and returns a pass referring to it |
| RenderPasses.RenderPassFactory.BuildRenderPass | include/ignis/graphics/render_pass.hxx:656-661 | a new builder for this factory with colour `B8G8R8A8Srgb`, depth `D16Unorm` and nothing collected |
| RenderPasses.RenderPassFactory.DestroyRenderPass | include/ignis/graphics/render_pass.hxx:148-156 | an invalid pass fails the debug assert and changes nothing; otherwise its handle leaves the set |
| RenderPasses.RenderPassBuilder.constructor | include/ignis/graphics/render_pass.hxx:231-241 | the builder keeps the two formats, starts with no attachments, dependencies or subpasses, and both counters at 0 |
| RenderPasses.RenderPassBuilder.BeginSubpass | include/ignis/graphics/render_pass.hxx:663-668 | the subpass builder takes the current subpass index and the next attachment index, and starts empty and not baked |
| RenderPasses.RenderPassBuilder.GetSubpassInfo | include/ignis/graphics/render_pass.hxx:300-309 | succeeds iff the name is non-empty and names an adopted subpass, and then returns that subpass's info |
| RenderPasses.RenderPassBuilder.AdoptSubpass | include/ignis/graphics/render_pass.hxx:319-336 | appends the attachments and dependencies, adds the info under a new name (an existing name keeps its info), advances both counters, and keeps every reference inside the attachments |
| RenderPasses.RenderPassBuilder.AddExternalDependencies | include/ignis/graphics/render_pass.hxx:201-229 | fails iff there is no subpass; otherwise appends the two external dependencies of the lowest- and highest-indexed subpasses |
| RenderPasses.ExternalDependencies | include/ignis/graphics/render_pass.hxx:211-228 | an incoming dependency into the first subpass with its stages, then an outgoing one from the first subpass with the last subpass's stages |
| RenderPasses.OutgoingDependencyLeavesFromFirst | include/ignis/graphics/render_pass.hxx:222-228 | with two or more subpasses the outgoing dependency does not start at the last subpass |
| RenderPasses.RenderPassBuilder.Confirm | include/ignis/graphics/render_pass.hxx:256-297 | fails iff there is no subpass; otherwise empties the map and creates one pass from the attachments, the descriptions sorted by index and the dependencies |
| RenderPasses.SubpassBuilder.constructor | include/ignis/graphics/render_pass.hxx:513-524 | the builder starts with an empty info of the given index, no attachments and not baked |
| RenderPasses.SubpassBuilder.AddColorAttachment | include/ignis/graphics/render_pass.hxx:535-551 | fails iff baked or the sample count is invalid; otherwise appends a colour attachment and a colour reference to its global index |
| RenderPasses.SubpassBuilder.AddDepthAttachment | include/ignis/graphics/render_pass.hxx:553-567 | fails iff baked, a depth is already there or the sample count is invalid; otherwise appends a depth attachment and sets the depth reference |
| RenderPasses.SubpassBuilder.AddMsaaAttachment | include/ignis/graphics/render_pass.hxx:569-583 | fails iff baked or there is no colour; otherwise appends a resolve attachment, sets the resolve reference and bakes |
| RenderPasses.SubpassBuilder.AddInputAttachment | include/ignis/graphics/render_pass.hxx:585-606 | fails iff baked; otherwise appends an input attachment in the colour or depth format as asked, and an input reference |
| RenderPasses.SubpassBuilder.DependOn | include/ignis/graphics/render_pass.hxx:608-621 | fails iff the name is empty or unknown; otherwise bakes and appends the dependency when there is one |
| RenderPasses.SubpassBuilder.EndSubpass | include/ignis/graphics/render_pass.hxx:623-641 | fails iff there is a resolve without colour or no attachment; otherwise hands the attachments, with the last one presented, the dependencies and the info to the builder |
| Core.SupportsExtensions | include/ignis/graphics/core.hxx:128-145 | true iff every required extension name is among the device's extensions |
| Core.RateType | include/ignis/graphics/core.hxx:156-176 | the type score is at least 1000 |
| Core.RateTypeRanking | include/ignis/graphics/core.hxx:156-176 | discrete > virtual > integrated > CPU > other, and no other type reaches a discrete GPU's score |
| Core.MaxBlocksIsMaximum | include/ignis/graphics/core.hxx:178-206 | the memory score bounds the weighted mebibytes of every memory type and is attained by one of them (0 with no types) |
| Core.BlocksWrap | include/ignis/graphics/core.hxx:193-199 | the `size_t` products wrap: a device-local, host-visible heap of 256 PiB is worth 0 mebibytes |
| Core.RateMemory | include/ignis/graphics/core.hxx:178-206 | the loop's result is the largest weighted heap size in mebibytes over all memory types, with local memory weighted 16 and host-visible 4, each product wrapping as a `size_t` |
| Core.CandidatesUpTo | include/ignis/graphics/core.hxx:221-235 | every candidate family of a role lies below the bound and can serve the role |
| Core.ServingFamilyIsCandidate | include/ignis/graphics/core.hxx:221-235 | every family that can serve a role is among its candidates |
| Core.CombineQueueIndices | include/ignis/graphics/core.hxx:250-254 | in a combination, graphics takes queue 0 of its family and each later role the number of earlier roles on its family |
| Core.CombineRoleCounts | include/ignis/graphics/core.hxx:250-254 | the per-family counts hold exactly the three families, each with the number of roles on it |
| Core.CombineSeparation | include/ignis/graphics/core.hxx:256 | the separation factor is the number of distinct families |
| Core.CombineCounts | include/ignis/graphics/core.hxx:250-256 | the three facts about one combination together |
| Core.BestEntry | include/ignis/graphics/core.hxx:272-275 | the first value of the map ordered by `std::greater` is the entry of the largest recorded separation factor; none iff nothing was recorded |
| Core.CombineIsAssignment | include/ignis/graphics/core.hxx:246-267 | a combination of candidate families is an assignment, with separation factor 1, 2 or 3 |
| Core.PresentPassFacts | include/ignis/graphics/core.hxx:248-270 | the present loop only adds assignments, keeps the factors within 1 to 3, and records something when there is a present family and nothing was recorded |
| Core.TransferPassFacts | include/ignis/graphics/core.hxx:247-270 | the same for the transfer loop |
| Core.GraphicsPassFacts | include/ignis/graphics/core.hxx:246-270 | the same for the graphics loop |
| Core.RecordedFactorsBounded | include/ignis/graphics/core.hxx:242-270 | starting from the empty map, only factors 1, 2 and 3 are recorded |
| Core.PickQueuesSomeIff | include/ignis/graphics/core.hxx:237-275 | `pickQueues` finds an assignment iff each of the three roles has at least one candidate family |
| Core.PickQueuesAssignment | include/ignis/graphics/core.hxx:208-276 | the result assigns a graphics-capable, a transfer-capable and a presenting family, with queue numbers counting earlier roles on the same family |
| Core.SingleQueueFamilyIsOverSubscribed | include/ignis/graphics/core.hxx:258-269 | a device whose only family has a single queue for all three roles is still assigned queues 0, 1 and 2 of that family |
| Core.CollectCandidates | include/ignis/graphics/core.hxx:221-235 | the single pass over the families yields exactly the candidates of each role |
| Core.RecordPresents | include/ignis/graphics/core.hxx:248-270 | the present loop computes the present pass |
| Core.RecordTransfers | include/ignis/graphics/core.hxx:247-270 | the transfer loop computes the transfer pass |
| Core.PickQueues | include/ignis/graphics/core.hxx:208-276 | `pickQueues` returns the assignment the specification of the three loops gives |
| Core.Rating | include/ignis/graphics/core.hxx:282-295 | a device is rated iff it passes the surface, extension and feature filters and has a queue assignment; its rating is its score and assignment |
| Core.RateDevice | include/ignis/graphics/core.hxx:280-295 | one iteration of the device loop computes the device's rating |
| Core.PickPhysicalDevice | include/ignis/graphics/core.hxx:105-306 | throws iff no device is rated; otherwise returns the first of the highest-scored devices with its own queue assignment |
| Core.BestSoFarStep | include/ignis/graphics/core.hxx:292-297 | a strictly higher score, or the first one, takes over the best entry; anything else leaves it unchanged |
| Core.Ratings | include/ignis/graphics/core.hxx:278-298 | one rating per device visited |
| Core.RatingsAt | include/ignis/graphics/core.hxx:278-298 | the i-th rating is the rating of the i-th device |
| Core.PickedDeviceIsBest | include/ignis/graphics/core.hxx:300-305 | the choice fails only when no device is suitable; the chosen device is suitable, carries its own assignment, no suitable device scores higher and every earlier one scores lower |
| Core.MakeDeviceQueueInfos | include/ignis/graphics/core.hxx:308-321 | one queue request per distinct family of the three roles, in ascending family order, each asking for as many queues as roles on it, three queues in all |
| Core.RequestsInFamilyOrder | include/ignis/graphics/core.hxx:320-321 | the loop over the count map emits one request per family, smallest first, with that family's count |
| Core.RequestsStep | include/ignis/graphics/core.hxx:320-321 | requesting the smallest remaining family keeps the loop invariant |
| Core.RequestsStepOrder | include/ignis/graphics/core.hxx:320-321 | the smallest remaining family goes after every request so far and before every family left |
| Core.RequestsStepCounts | include/ignis/graphics/core.hxx:320-321 | a request taken from the count map asks for the number of roles on its family |
| Core.AppendRequest | include/ignis/graphics/core.hxx:321 | appending a request adds its family and its count |
| Core.RemainingRolesSplit | include/ignis/graphics/core.hxx:311-315 | the roles on a set of families split into those on one family and those on the rest |
| Core.SmallestOf | include/ignis/graphics/core.hxx:320 | the flat map visits the least remaining family next |
| CoreDependent.AssertPassthroughFramesNumberAsWritten | include/ignis/detail/core_dependent.hxx:33-42 | as written: the frame count is returned iff it lies between the surface's minimum and maximum image counts; otherwise it throws |
| CoreDependent.UnlimitedSurfaceRejectsAllFrames | include/ignis/detail/core_dependent.hxx:36-39 | on a surface that reports no maximum (0), every frame count of at least 1 is rejected |
| CoreDependent.UnlimitedSurfaceRefusesThreeFrames | include/ignis/detail/core_dependent.hxx:36-39 | three frames on a surface with minimum 2 and no maximum are rejected |
| CoreDependent.AssertPassthroughFramesNumber | include/ignis/detail/core_dependent.hxx:33-42 | corrected: the count passes iff it is at least the minimum and, when a maximum is reported, at most the maximum |
| CoreDependent.CorrectedCheckAgreesOnBoundedSurfaces | include/ignis/detail/core_dependent.hxx:33-42 | the corrected check agrees with the check as written whenever a maximum is reported, and accepts every count above the minimum otherwise |
| Shaders.ShaderTypesPass | include/ignis/graphics/shader.hxx:34-47 | `ShaderType` is numbered 0 to 5 without gaps, so the range check `compile` requires admits each type |
| Shaders.ShaderKindsDistinct | include/ignis/graphics/shader.hxx:143-166 | `get_shader_kind` maps different shader types to different compiler stages and reaches every stage |
| Shaders.ShaderBinary.constructor | include/ignis/graphics/shader.hxx:77-83 | a binary holds its type and the given words |
| Shaders.ShaderBinary.Clear | include/ignis/graphics/shader.hxx:91-98 | after `clear` the binary is empty |
| Shaders.Shader.constructor | include/ignis/graphics/shader.hxx:107-109 | a shader wraps the given module handle |
| Shaders.Shader.Copy | include/ignis/graphics/shader.hxx:112-113 | a copy refers to the same module |
| Shaders.Shader.MoveFrom | include/ignis/graphics/shader.hxx:115-117 | the new shader takes the handle and the source becomes invalid |
| Shaders.Shader.MoveAssign | include/ignis/graphics/shader.hxx:119-126 | self-assignment changes nothing; otherwise the handle moves and the source becomes invalid |
| Shaders.ShaderCompiler.constructor | include/ignis/graphics/shader.hxx:168-174 | a compiler starts with no macros, no debug information and no optimisation level |
| Shaders.ShaderCompiler.PushMacro | include/ignis/graphics/shader.hxx:182-189 | an empty macro name fails the debug assert and changes nothing; otherwise the definition is added after the earlier ones |
| Shaders.ShaderCompiler.EnableDebug | include/ignis/graphics/shader.hxx:191-195 | debug information is generated from then on |
| Shaders.ShaderCompiler.Optimize | include/ignis/graphics/shader.hxx:197-214 | `size` selects the size level and `performance` the performance level |
| Shaders.ShaderCompiler.Compile | include/ignis/graphics/shader.hxx:216-235 | fails the debug assert iff the source, name or entry point is empty; otherwise throws iff compilation failed, and else yields a binary of the requested type holding the compiled words |
| Shaders.CreateInfoFor | include/ignis/graphics/shader.hxx:246-253 | the create info's code size is four bytes per word and it carries the words themselves |
| Shaders.ShaderFactory.constructor | include/ignis/graphics/shader.hxx:255-258 | a factory starts with no modules |
| Shaders.ShaderFactory.MakeShader | include/ignis/graphics/shader.hxx:266-281 | an empty binary fails the debug assert and changes nothing; otherwise a fresh module is created from the binary's words, kept, and returned as a valid shader of the binary's type |
| Shaders.ShaderFactory.DestroyShader | include/ignis/graphics/shader.hxx:283-290 | the shader's module leaves the set and every other module stays |
| InputMap.BoundListsExist | include/ignis/input/map.hxx:140-161 | when every listed axis is bound to its event, every listed axis exists, so `.at(axis)` in `apply_events` cannot fail |
| InputMap.MemberIsBound | include/ignis/input/map.hxx:140-161 | a member of an event's list is an existing axis bound to that event |
| InputMap.AddListing | include/ignis/input/map.hxx:73-76 | `emplace_back` under an event creates the list when missing, appends the axis at its end, and leaves the other lists alone |
| InputMap.RemoveAll | include/ignis/input/map.hxx:116-119 | remove-and-erase drops every occurrence of the axis and keeps everything else, without creating duplicates |
| InputMap.Step | include/ignis/input/map.hxx:152-158 | one event keeps the axis's bindings, leaves an axis bound to neither side untouched, and keeps a value in [-1, 1] |
| InputMap.StepMovesOneNotch | include/ignis/input/map.hxx:154-158 | a positive event raises an in-range value by 1 capped at 1; a negative event lowers it by 1 floored at -1 |
| InputMap.ApplyToAxes | include/ignis/input/map.hxx:148-159 | the loop over one event's axes keeps the set of axes and their bindings |
| InputMap.ApplyEvent | include/ignis/input/map.hxx:143-161 | one event keeps the set of axes and their bindings; an event with no list changes nothing |
| InputMap.ApplyAll | include/ignis/input/map.hxx:142-161 | applying the pending events keeps the set of axes and their bindings |
| InputMap.ApplyToAxesAt | include/ignis/input/map.hxx:148-159 | an axis listed once under the event is stepped once; an axis not listed is untouched |
| InputMap.ApplyEventSteps | include/ignis/input/map.hxx:143-161 | with consistent maps, one event steps every axis exactly as its own bindings say |
| InputMap.ConsistentIgnoresValues | include/ignis/input/map.hxx:140-161 | changing values alone keeps the axis data and the event lists consistent |
| InputMap.ApplyAllSteps | include/ignis/input/map.hxx:142-161 | with consistent maps, each axis's new value depends only on its old value and the event sequence |
| InputMap.StepAllFacts | include/ignis/input/map.hxx:152-158 | a run of events keeps a value in [-1, 1], and an axis bound to none of them keeps its value |
| InputMap.ApplyAllKeepsRange | include/ignis/input/map.hxx:140-161 | applying the events keeps every button value in [-1, 1] |
| InputMap.ApplyAllLeavesUnboundAxes | include/ignis/input/map.hxx:140-161 | a button axis bound to none of the pending events keeps its value |
| InputMap.Map.constructor | include/ignis/input/map.hxx:54-58 | a new map has no axes, both counters at 0, no pending events and a zero mouse state |
| InputMap.Map.MakeAxis | include/ignis/input/map.hxx:60-79 | equal positive and negative events fail the debug assert and change nothing; otherwise the next button handle gets value 0 and is listed under its events, and the maps stay consistent |
| InputMap.Map.MakeMouseAxis | include/ignis/input/map.hxx:81-91 | the next mouse handle, never used before, gets value 0 with the binding and multiplier |
| InputMap.Map.SetButtonValue | include/ignis/input/map.hxx:93-95 | an unknown axis is a range error that changes nothing; otherwise only that axis's value changes |
| InputMap.Map.SetMouseValue | include/ignis/input/map.hxx:97-99 | the same for a mouse axis |
| InputMap.Map.GetButtonValue | include/ignis/input/map.hxx:101-103 | the axis's value, or a range error iff the axis is unknown |
| InputMap.Map.GetMouseValue | include/ignis/input/map.hxx:105-107 | the same for a mouse axis |
| InputMap.Map.EraseButtonAxis | include/ignis/input/map.hxx:109-128 | an unknown axis changes nothing; otherwise the axis leaves the data and the lists of its two events; afterwards no list holds it and the maps stay consistent |
| InputMap.Map.EraseMouseAxis | include/ignis/input/map.hxx:130-132 | the mouse axis is removed and the rest stays |
| InputMap.Map.ExtractEvents | include/ignis/input/map.hxx:134-138 | the window's event buffer and the pending list trade places, and the window's mouse state is taken |
| InputMap.Map.ApplyEvents | include/ignis/input/map.hxx:140-186 | button values become the result of applying the pending events in order; each mouse value becomes its coordinate times its multiplier; the pending list is emptied; the maps stay consistent |
| InputMap.Map.ApplyEventToAxes | include/ignis/input/map.hxx:148-159 | the loop over one event's list steps its axes in list order |
| InputMap.UnknownAxisUnlisted | include/ignis/input/map.hxx:109-113 | an axis that does not exist is in no event's list |
| InputMap.NewAxisKeepsConsistency | include/ignis/input/map.hxx:60-79 | adding a fresh axis with two different events keeps the axis data and the event lists consistent |
| InputMap.AddListingKeeps | include/ignis/input/map.hxx:73-76 | appending an axis bound to the event and not yet listed keeps the lists bound and free of duplicates, and keeps every earlier listing |
| InputMap.EraseKeepsConsistency | include/ignis/input/map.hxx:109-128 | unlisting an axis from its two events and dropping its data keeps the maps consistent and lists it nowhere |
| Axes.EqualityIsIdentity | include/ignis/input/axis.hxx:18-34 | two axes of one kind are `==` exactly when they have the same handle, and `!=` is the negation of `==` |
| Axes.EqualAxesHashEqually | include/ignis/input/axis.hxx:40-51 | the hash reads the handle alone, so equal axes hash equally whatever the hash of `size_t` is |
| DebugAssert.IsEnumValidAsWritten | include/ignis/detail/debug_assert.hxx:48-85 | as written: the release build accepts every value; the debug build accepts exactly the values from `first_enum_value` to `last_enum_value` |
| DebugAssert.IsEnumValid | include/ignis/detail/debug_assert.hxx:48-85 | corrected: the release build accepts every value; the debug build accepts exactly the declared enumerators |
| DebugAssert.DeclaredEnumeratorsPass | include/ignis/detail/debug_assert.hxx:74-85 | every declared enumerator passes the corrected check in both builds |
| DebugAssert.RangeTestIntendedForContiguousEnums | include/ignis/detail/debug_assert.hxx:74-85 | when the enumerators are exactly the numbers from first to last, the range test and the corrected check agree |
| DebugAssert.DebugThrow | include/ignis/detail/debug_assert.hxx:45-72 | `debug_throw` fails with the given exception iff the build is a debug build |
| Numerics.RoundSqrtFrom | include/ignis/detail/resource_allocator.hxx:62-71 | the search upwards from a lower bound ends at the integer nearest to the square root |
| Numerics.RoundSqrt | include/ignis/detail/resource_allocator.hxx:62-71 | `std::round(std::sqrt(n))` on whole numbers: the r with r*r - r < n <= r*r + r, or 0 for 0 |
| Numerics.RoundedSqrtUnique | include/ignis/detail/resource_allocator.hxx:62-71 | only one value meets those bounds |
| Numerics.RoundSqrtMonotone | include/ignis/detail/resource_allocator.hxx:62-71 | more blocks never round to a smaller root |
| Numerics.RoundedSqrtOrdered | include/ignis/detail/resource_allocator.hxx:62-71 | a smaller input's rounded root is not larger |
| Numerics.PronicGrows | include/ignis/detail/resource_allocator.hxx:62-71 | x*x - x never decreases on the naturals, which orders the rounding bounds |
| Search.FirstAcceptedFrom | include/ignis/detail/swapchain_manager.hxx:58-61 | the position found is accepted and no earlier position from the start is; none iff no position from the start is accepted |
| Search.FirstAccepted | include/ignis/detail/swapchain_manager.hxx:84-87 | the result is the earliest accepted preference; none iff no preference is accepted |
| Search.FirstAcceptedUnique | include/ignis/detail/swapchain_manager.hxx:58-61 | the earliest accepted preference is unique |
| Search.FirstAcceptedSameFilter | include/ignis/detail/swapchain_manager.hxx:84-87 | two filters that agree on the preferences find the same entry |
| Outcomes.At | include/ignis/detail/sync_tools.hxx:65-93 | `.at(i)` yields the i-th element iff i is within the size, and the `OutOfRange` error otherwise |
| Vulkan.SharingFor | include/ignis/graphics/buffer.hxx:243 | concurrent sharing iff more than one queue family uses the resource |

## Left out

- Native calls (Vulkan, VMA, shaderc, GLFW) are not executed: their results (capability lists, surface capabilities, result codes, compiled words, memory requirements) are parameters, and object creation, fences, mapping and `memcpy` go through the `Vulkan.Device` stand-in, which hands out fresh handles and keeps memory as byte sequences.
- Locking and concurrency: mutexes, the atomics of `SchedulerBase`, `EnableMutex`, creation-thread assertions and `alignas` padding; every operation is modelled single-threaded, and the transfer-pause flag is a plain boolean.
- `CommandPools` (include/ignis/detail/scheduler.hxx:97-158): a per-thread map of command pools guarded by a shared mutex; each command buffer is modelled as allocated from the device directly.
- Floating point: the weighted branch of `estimate_suitability` is an opaque function parameter with only its 0 and 1 cases fixed; input-axis values, mouse coordinates and multipliers are exact reals, so rounding is not modelled; queue priorities are not modelled.
- `rate_memory_amount` in memory_selector.hxx is never called and is not modelled beyond the shared rounded square root.
- The window, the GLFW context and the event source: window.hxx, glfw_context.hxx, glfw_dependent.hxx and event.hxx are not part of this model; `extract_events` receives the window's event buffer and mouse state as values.
- Hashing and lock-policy glue (vulkan_functional.hxx, transparent_hash.hxx, enable_sync.hxx, sync_mocks.hxx): registries are sets or maps keyed by handle identity.
- Axes.AxisHash: the hash of `size_t` is a parameter, so only its dependence on the handle is stated.
- `Core` construction and `make_instance`, `get_vulkan_version`, and the `CoreDependent` accessors are plain native calls or field reads; the instance's application and engine information is not modelled.
- Trivial getters that only read a field are not modelled separately: `get_image_properties`, the swapchain manager's `get_swapchain`, `get_images_count`, `get_format`, `get_allocator`, `get_color_format`, `get_depth_format`, `get_core`.
- `ResourceMemoryFactory` (include/ignis/detail/resource_memory.hxx:179 writes `[[nodo]]`) does not compile and is not modelled.
- DepthManager move constructor and move assignment: the move assignment compares `this == *other` (include/ignis/detail/depth_manger.hxx:167), which does not compile; neither is modelled.
- `make_image` builds its result as `Image { *imageIter, *viewIter, allocation }` (include/ignis/graphics/image.hxx:266), three arguments for the four-parameter constructor at image.hxx:35-39, so the sizes are missing altogether; the model passes allocation, image and view in declaration order and takes the sizes from the requested width and height.
- depth_manger.hxx:98 and image.hxx name `MemoryAccess::unaccessible` and `MemoryPlacement::device`, which resource_memory.hxx does not declare; the model uses the device-local, host-inaccessible allocation they evidently mean.
- `make_buffer` calls `allocate` with a requirements record and a preference (include/ignis/graphics/buffer.hxx:291-292), while `ResourceAllocator::allocate` takes a size; the model allocates the driver's required size from the type chosen for the buffer's kind.
- `make_shader` stores modules in a map declared with a hash and an equality as its value types (include/ignis/graphics/shader.hxx:295-297); the model keeps the modules as a set.
- SubpassBuilder: the moved-from state of a builder after `end_subpass` is not modelled; each builder is ended once.
- RenderPasses.RenderPassBuilder.Confirm: when two subpasses share an index, the ordered set keeps one of them, so fewer descriptions than subpasses are passed; the contract says which descriptions are passed but not which of the clashing subpasses survives.
- Image.ImageFactory.MakeImage: the debug enum assertion uses the corrected membership check, so `r8_srgb`, `r8_uint_norm` and `r32g32b32a32_float` pass it; the range test as written (include/ignis/graphics/image.hxx:238 with 27-30) would fail them in a debug build, as `Image.ImageFormatRangeRejectsMembers` shows.
- `uint32_t` and `size_t` counters (subpass and attachment indices, axis handles, the fence and frame counters other than `get_next_frame`) are unbounded naturals; their wrap-around after 2^32 or 2^64 steps is not modelled.
- Core.PickQueues: the skip test of the queue loop is modelled as written, so an assignment can ask a family for more queues than it has (see `Core.SingleQueueFamilyIsOverSubscribed`); the contract states no bound on queue counts.

## Findings

| source | as written | input that shows it | evidently intended | confidence | as-written member | corrected member |
|---|---|---|---|---|---|---|
| include/ignis/graphics/image.hxx:27-30 | the debug `is_enum_valid` tests `ImageFormat` against the range from `r8g8b8_srgb` (29) to `r32_float` (100) | `make_image` with `r8_srgb` (15), `r8_uint_norm` (9) or `r32g32b32a32_float` (109) fails its enum assertion in a debug build | every declared image format passes | not executed | Image.ImageFormatRangeRejectsMembers | Image.EveryImageFormatPasses |
| include/ignis/graphics/render_pass.hxx:56-59 | the debug range for `DataFormat` runs from `x_float` (100) to `xyzw_uint` (107) | eight of the sixteen members fall outside it, among them `x_uint` (98), `x_int` (99), `xyzw_float` (109) and `x_double` (112); the defect is latent, since no function applies `is_enum_valid` to a `DataFormat` | every declared data format passes | not executed | RenderPasses.DataFormatRangeRejectsMembers | RenderPasses.EveryDataFormatPasses |
| include/ignis/detail/core_dependent.hxx:37 | the frame count is rejected when it exceeds `maxImageCount`, which is 0 for a surface with no maximum | 3 frames on a surface with `minImageCount` 2 and `maxImageCount` 0 throws "Unsupported frames number" | a maximum of 0 means no upper bound | not executed | CoreDependent.UnlimitedSurfaceRejectsAllFrames | CoreDependent.AssertPassthroughFramesNumber |
