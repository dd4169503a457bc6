/**
 * The slice of the Vulkan API the library relies on: handles, flag sets,
 * formats and result codes, and a `Device` object standing in for the driver
 * (it hands out fresh handles, keeps fence states, memory contents and the
 * set of mapped memory objects).
 */
module Vulkan {

  /** A dispatchable or non-dispatchable handle; `Null` is VK_NULL_HANDLE. */
  datatype Handle = Null | Live(id: nat)

  type byte = bv8

  /** `size_t` and `vk::DeviceSize` are 64 bits wide; their arithmetic wraps modulo this. */
  const SizeLimit: nat := 0x1_0000_0000_0000_0000

  datatype MemoryPropertyFlags = MemoryPropertyFlags(deviceLocal: bool, hostVisible: bool, hostCoherent: bool)

  datatype MemoryType = MemoryType(propertyFlags: MemoryPropertyFlags, heapIndex: nat)

  /** `vk::PhysicalDeviceMemoryProperties`: memory types and the sizes of their heaps. */
  datatype MemoryProperties = MemoryProperties(memoryTypes: seq<MemoryType>, heapSizes: seq<nat>)
  {
    /** Every type names an existing heap, as the driver guarantees. */
    predicate WellFormed() {
      forall i :: 0 <= i < |memoryTypes| ==> memoryTypes[i].heapIndex < |heapSizes|
    }

    function HeapSizeOf(i: nat): nat
      requires WellFormed() && i < |memoryTypes|
    {
      heapSizes[memoryTypes[i].heapIndex]
    }
  }

  datatype VkResult = Success | SuboptimalKHR | Timeout | NotReady | ErrorOutOfDateKHR | ErrorDeviceLost

  /** `vk::Format`, by its numeric value in the Vulkan registry. */
  newtype Format = x: int | 0 <= x

  const FormatUndefined: Format := 0
  const FormatR8Unorm: Format := 9
  const FormatR8Srgb: Format := 15
  const FormatR8G8B8Srgb: Format := 29
  const FormatR8G8B8A8Unorm: Format := 37
  const FormatR8G8B8A8Srgb: Format := 43
  const FormatB8G8R8A8Unorm: Format := 44
  const FormatB8G8R8A8Srgb: Format := 50
  const FormatR16Sfloat: Format := 76
  const FormatR32Uint: Format := 98
  const FormatR32Sint: Format := 99
  const FormatR32Sfloat: Format := 100
  const FormatR32G32Uint: Format := 101
  const FormatR32G32Sint: Format := 102
  const FormatR32G32Sfloat: Format := 103
  const FormatR32G32B32Uint: Format := 104
  const FormatR32G32B32Sint: Format := 105
  const FormatR32G32B32Sfloat: Format := 106
  const FormatR32G32B32A32Uint: Format := 107
  const FormatR32G32B32A32Sint: Format := 108
  const FormatR32G32B32A32Sfloat: Format := 109
  const FormatR64Sfloat: Format := 112
  const FormatR64G64Sfloat: Format := 115
  const FormatR64G64B64Sfloat: Format := 118
  const FormatR64G64B64A64Sfloat: Format := 121
  const FormatD16Unorm: Format := 124
  const FormatX8D24UnormPack32: Format := 125
  const FormatD32Sfloat: Format := 126
  const FormatD16UnormS8Uint: Format := 128
  const FormatD24UnormS8Uint: Format := 129
  const FormatD32SfloatS8Uint: Format := 130

  datatype ColorSpace = SrgbNonlinear | OtherColorSpace(code: nat)

  datatype SurfaceFormat = SurfaceFormat(format: Format, colorSpace: ColorSpace)

  datatype PresentMode = Immediate | Mailbox | Fifo | FifoRelaxed | SharedDemandRefresh | SharedContinuousRefresh

  datatype FormatFeature =
    | SampledImage | SampledImageFilterLinear | ColorAttachment | DepthStencilAttachment
    | TransferSrc | TransferDst

  datatype FormatProperties = FormatProperties(linearTilingFeatures: set<FormatFeature>, optimalTilingFeatures: set<FormatFeature>)

  datatype ImageTiling = Optimal | Linear

  datatype SharingMode = Exclusive | Concurrent

  datatype Extent2D = Extent2D(width: nat, height: nat)

  /** `vk::SurfaceCapabilitiesKHR`, the fields the library reads. */
  datatype SurfaceCapabilities = SurfaceCapabilities(minImageCount: nat, maxImageCount: nat, currentExtent: Extent2D)

  /** Sharing mode for a set of queue families: concurrent exactly when more than one family uses the resource. */
  function SharingFor(families: set<nat>): (m: SharingMode)
    ensures m == Concurrent <==> |families| > 1
  {
    if |families| > 1 then Concurrent else Exclusive
  }

  /** `vk::ImageLayout`: the layouts the library names. */
  datatype ImageLayout =
    | Undefined | TransferDstOptimal | ColorAttachmentOptimal | DepthStencilAttachmentOptimal
    | ShaderReadOnlyOptimal | PresentSrcKHR

  /** The pipeline stages the library names in waits and subpass dependencies. */
  datatype PipelineStage =
    | TopOfPipe | ColorAttachmentOutput | EarlyFragmentTests | LateFragmentTests
    | FragmentShader | Transfer | BottomOfPipe

  /** One region of `vkCmdCopyBuffer`. */
  datatype BufferCopy = BufferCopy(srcOffset: nat, dstOffset: nat, size: nat)

  /** A command recorded into a command buffer; only buffer copies are told apart. */
  datatype Command =
    | CopyBuffer(source: Handle, destination: Handle, regions: seq<BufferCopy>)
    | OtherCommand(code: nat)

  /** `vk::raii::CommandBuffer`: a handle plus the commands recorded since the last reset. */
  class CommandBuffer {
    const handle: Handle
    var commands: seq<Command>

    constructor (h: Handle)
      ensures handle == h && commands == []
    {
      handle := h;
      commands := [];
    }

    /** `vkResetCommandBuffer`: everything recorded is dropped. */
    method Reset()
      modifies this
      ensures commands == []
    {
      commands := [];
    }

    method Record(c: Command)
      modifies this
      ensures commands == old(commands) + [c]
    {
      commands := commands + [c];
    }
  }

  /** The handles of `count` objects created one after another from id `start`. */
  function FreshHandles(start: nat, count: nat): (r: seq<Handle>)
    ensures |r| == count
    ensures forall i :: 0 <= i < count ==> r[i] == Live(start + i)
  {
    seq(count, i requires 0 <= i => Live(start + i))
  }

  /** Objects created in one run are pairwise distinct, and distinct from those of a later run. */
  lemma FreshHandlesDisjoint(a: nat, m: nat, b: nat, n: nat)
    requires a + m <= b
    ensures forall i, j :: 0 <= i < j < m ==> FreshHandles(a, m)[i] != FreshHandles(a, m)[j]
    ensures forall i, j :: 0 <= i < m && 0 <= j < n ==> FreshHandles(a, m)[i] != FreshHandles(b, n)[j]
  {
  }

  /**
   * The driver side: object creation hands out handles never seen before,
   * fences carry a signaled bit, memory objects carry bytes and may be mapped.
   */
  class Device {
    var nextId: nat
    var fenceSignaled: map<Handle, bool>
    var memoryBytes: map<Handle, seq<byte>>
    var mapped: multiset<Handle>
    /** Objects destroyed so far, in order. */
    var destroyed: seq<Handle>

    /** `h` was handed out by this device. */
    ghost predicate Issued(h: Handle)
      reads this
    {
      h.Live? && h.id < nextId
    }

    constructor ()
      ensures nextId == 0 && fenceSignaled == map[] && memoryBytes == map[] && mapped == multiset{} && destroyed == []
    {
      nextId := 0;
      fenceSignaled := map[];
      memoryBytes := map[];
      mapped := multiset{};
      destroyed := [];
    }

    /** Destroys (frees) one object. */
    method Destroy(h: Handle)
      modifies this`destroyed
      ensures destroyed == old(destroyed) + [h]
    {
      destroyed := destroyed + [h];
    }

    /** Creates one object and returns its handle, distinct from every handle created before. */
    method Create() returns (h: Handle)
      modifies this`nextId
      ensures h == Live(old(nextId)) && nextId == old(nextId) + 1
    {
      h := Live(nextId);
      nextId := nextId + 1;
    }

    method CreateFence(signaled: bool) returns (h: Handle)
      modifies this`nextId, this`fenceSignaled
      ensures h == Live(old(nextId)) && nextId == old(nextId) + 1
      ensures fenceSignaled == old(fenceSignaled)[h := signaled]
    {
      h := Live(nextId);
      nextId := nextId + 1;
      fenceSignaled := fenceSignaled[h := signaled];
    }

    /** `vkAllocateMemory`: a fresh memory object of `size` bytes (their initial contents are unspecified). */
    method AllocateMemory(size: nat) returns (h: Handle)
      modifies this`nextId, this`memoryBytes
      ensures h == Live(old(nextId)) && nextId == old(nextId) + 1
      ensures h in memoryBytes && |memoryBytes[h]| == size
      ensures forall m :: m != h ==> (m in memoryBytes <==> m in old(memoryBytes)) && (m in memoryBytes ==> memoryBytes[m] == old(memoryBytes[m]))
    {
      h := Live(nextId);
      nextId := nextId + 1;
      memoryBytes := memoryBytes[h := seq(size, _ => 0)];
    }

    /** `vkResetFences` on one fence. */
    method ResetFence(fence: Handle)
      modifies this`fenceSignaled
      ensures fenceSignaled == old(fenceSignaled)[fence := false]
    {
      fenceSignaled := fenceSignaled[fence := false];
    }

    method MapMemory(memory: Handle)
      modifies this`mapped
      ensures mapped == old(mapped) + multiset{memory}
    {
      mapped := mapped + multiset{memory};
    }

    method UnmapMemory(memory: Handle)
      modifies this`mapped
      ensures mapped == old(mapped) - multiset{memory}
    {
      mapped := mapped - multiset{memory};
    }

    /** A `memcpy` of `data` to byte `offset` of a mapped memory object. */
    method WriteMemory(memory: Handle, offset: nat, data: seq<byte>)
      requires memory in memoryBytes && offset + |data| <= |memoryBytes[memory]|
      modifies this`memoryBytes
      ensures memoryBytes == old(memoryBytes)[memory := Overwrite(old(memoryBytes[memory]), offset, data)]
    {
      memoryBytes := memoryBytes[memory := Overwrite(memoryBytes[memory], offset, data)];
    }
  }

  /** `dest` with `data` written from position `offset` on. */
  function Overwrite(dest: seq<byte>, offset: nat, data: seq<byte>): (r: seq<byte>)
    requires offset + |data| <= |dest|
    ensures |r| == |dest|
    ensures r[offset..offset + |data|] == data
    ensures forall i :: 0 <= i < |dest| && !(offset <= i < offset + |data|) ==> r[i] == dest[i]
  {
    dest[..offset] + data + dest[offset + |data|..]
  }
}
