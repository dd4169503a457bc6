/**
 * Buffers: the `Buffer` value type (memory handle, buffer handle, size),
 * the registry that owns the native objects behind the handles, and the
 * factory that derives usage flags, queue families and the memory kind of a
 * new buffer.
 */
module Buffer {
  import opened Outcomes
  import opened Vulkan
  import RA = ResourceAllocator

  datatype BufferType = Immutable | Mappable | ConstantlyMapped

  datatype BufferUsage = Vertex | Index | Uniform | Storage

  /** The `vk::BufferUsageFlagBits` the factory sets. */
  datatype BufferUsageFlag =
    | VertexBufferBit | IndexBufferBit | UniformBufferBit | StorageBufferBit
    | TransferSrcBit | TransferDstBit

  /** The bits that say what a buffer is for, as opposed to the two transfer bits. */
  predicate IsUsageBit(f: BufferUsageFlag) {
    !f.TransferSrcBit? && !f.TransferDstBit?
  }

  function UsageBit(u: BufferUsage): (f: BufferUsageFlag)
    ensures IsUsageBit(f)
  {
    match u
    case Vertex => VertexBufferBit
    case Index => IndexBufferBit
    case Uniform => UniformBufferBit
    case Storage => StorageBufferBit
  }

  /** `choose_memory_type`: only immutable buffers live in the immutable memory type. */
  function ChooseMemoryType(t: BufferType): (m: RA.MemoryType)
    ensures m == RA.Immutable <==> t == Immutable
    ensures m == RA.Mappable <==> t != Immutable
  {
    if t == Immutable then RA.Immutable else RA.Mappable
  }

  /**
   * `get_usage_flags`: the one bit of the usage, plus TransferSrc when reading
   * and TransferDst when writing; a storage buffer always gets both.
   */
  function UsageFlags(u: BufferUsage, transferRead: bool, transferWrite: bool): (r: set<BufferUsageFlag>)
    ensures forall f :: f in r && IsUsageBit(f) ==> f == UsageBit(u)
    ensures UsageBit(u) in r
    ensures TransferSrcBit in r <==> (u == Storage || transferRead)
    ensures TransferDstBit in r <==> (u == Storage || transferWrite)
  {
    var read := transferRead || u == Storage;
    var write := transferWrite || u == Storage;
    {UsageBit(u)} + (if read then {TransferSrcBit} else {}) + (if write then {TransferDstBit} else {})
  }

  /** The usage is recoverable from the flags: two usages never share a flag set. */
  lemma UsageFlagsIdentifyUsage(u: BufferUsage, v: BufferUsage, r1: bool, w1: bool, r2: bool, w2: bool)
    requires UsageFlags(u, r1, w1) == UsageFlags(v, r2, w2)
    ensures u == v
  {
    assert UsageBit(u) in UsageFlags(v, r2, w2);
  }

  /**
   * `get_accessible_families`: the transfer family for storage buffers, the
   * graphics family otherwise, plus the transfer family when any transfer is
   * allowed; a set, so a shared family appears once.
   */
  function AccessibleFamilies(u: BufferUsage, graphics: nat, transfer: nat, transferRead: bool, transferWrite: bool): (r: set<nat>)
    ensures r <= {graphics, transfer}
    ensures transfer in r <==> (u == Storage || transferRead || transferWrite || graphics == transfer)
    ensures graphics in r <==> (u != Storage || graphics == transfer)
  {
    var first := if u == Storage then transfer else graphics;
    if transferRead || transferWrite then {first, transfer} else {first}
  }

  /** The sharing mode at line 243: concurrent exactly for a non-storage buffer that allows a transfer, on split families. */
  lemma BufferSharingConcurrentIff(u: BufferUsage, graphics: nat, transfer: nat, transferRead: bool, transferWrite: bool)
    ensures SharingFor(AccessibleFamilies(u, graphics, transfer, transferRead, transferWrite)) == Concurrent
            <==> u != Storage && (transferRead || transferWrite) && graphics != transfer
  {
    var r := AccessibleFamilies(u, graphics, transfer, transferRead, transferWrite);
    if u != Storage && (transferRead || transferWrite) && graphics != transfer {
      assert r == {graphics, transfer};
      assert |r| == 2;
    } else {
      assert r == {transfer} || r == {graphics};
    }
  }

  /** A storage buffer is owned by the transfer family alone, even when the graphics family differs. */
  lemma StorageBufferExclusiveToTransfer(graphics: nat, transfer: nat, transferRead: bool, transferWrite: bool)
    ensures AccessibleFamilies(Storage, graphics, transfer, transferRead, transferWrite) == {transfer}
    ensures SharingFor(AccessibleFamilies(Storage, graphics, transfer, transferRead, transferWrite)) == Exclusive
  {
  }

  /** `vk::BufferCreateInfo` as built by `create_buffer_and_memory_requirements`. */
  datatype BufferCreateInfo = BufferCreateInfo(size: nat, usage: set<BufferUsageFlag>, sharingMode: SharingMode, queueFamilies: set<nat>)

  function BufferCreateInfoFor(u: BufferUsage, size: nat, graphics: nat, transfer: nat, transferRead: bool, transferWrite: bool): (info: BufferCreateInfo)
    ensures info.size == size && info.usage == UsageFlags(u, transferRead, transferWrite)
    ensures info.queueFamilies == AccessibleFamilies(u, graphics, transfer, transferRead, transferWrite)
    ensures info.sharingMode == Concurrent <==> |info.queueFamilies| > 1
  {
    var families := AccessibleFamilies(u, graphics, transfer, transferRead, transferWrite);
    BufferCreateInfo(size, UsageFlags(u, transferRead, transferWrite), SharingFor(families), families)
  }

  /** `Buffer<Type, Usage>`: a copyable value whose moves leave the source null and empty. */
  class Buffer {
    const bufferType: BufferType
    const usage: BufferUsage
    var memory: Handle
    var buffer: Handle
    var size: nat

    /** The private constructor used by the factory. */
    constructor (bufferType: BufferType, usage: BufferUsage, memory: Handle, buffer: Handle, size: nat)
      ensures this.bufferType == bufferType && this.usage == usage
      ensures this.memory == memory && this.buffer == buffer && this.size == size
    {
      this.bufferType := bufferType;
      this.usage := usage;
      this.memory := memory;
      this.buffer := buffer;
      this.size := size;
    }

    /** The defaulted copy constructor: a second value naming the same native objects. */
    constructor Copy(other: Buffer)
      ensures bufferType == other.bufferType && usage == other.usage
      ensures memory == other.memory && buffer == other.buffer && size == other.size
    {
      bufferType := other.bufferType;
      usage := other.usage;
      memory := other.memory;
      buffer := other.buffer;
      size := other.size;
    }

    /** The move constructor: takes the source's fields and leaves it invalid. */
    constructor MoveFrom(other: Buffer)
      modifies other
      ensures bufferType == other.bufferType && usage == other.usage
      ensures memory == old(other.memory) && buffer == old(other.buffer) && size == old(other.size)
      ensures other.memory == Null && other.buffer == Null && other.size == 0
      ensures !other.IsValid() && (IsValid() <==> old(other.IsValid()))
    {
      bufferType := other.bufferType;
      usage := other.usage;
      memory := other.memory;
      buffer := other.buffer;
      size := other.size;
      new;
      other.memory, other.buffer, other.size := Null, Null, 0;
    }

    /** `is_valid`: both handles non-null and a positive size. */
    predicate IsValid()
      reads this
    {
      memory != Null && buffer != Null && size > 0
    }

    /**
     * Move assignment: a no-op on itself; otherwise takes the source's fields
     * (without releasing its own) and leaves the source invalid.
     */
    method MoveAssign(other: Buffer)
      requires other.bufferType == bufferType && other.usage == usage
      modifies this, other
      ensures other == this ==> memory == old(memory) && buffer == old(buffer) && size == old(size)
      ensures other != this ==>
        memory == old(other.memory) && buffer == old(other.buffer) && size == old(other.size)
        && other.memory == Null && other.buffer == Null && other.size == 0
      ensures other != this ==> !other.IsValid() && (IsValid() <==> old(other.IsValid()))
    {
      if other == this {
        return;
      }
      memory, buffer, size := other.memory, other.buffer, other.size;
      other.memory, other.buffer, other.size := Null, Null, 0;
    }

    /** `get_size`: the size of a valid buffer; asserting on an invalid one. */
    function GetSize(): (r: Result<nat>)
      reads this
      ensures r.Ok? <==> IsValid()
      ensures r.Ok? ==> r.value == size && r.value > 0
    {
      if IsValid() then Ok(size) else Err(DebugAssertion)
    }
  }

  /** The registry contents after `destroy(memory, buffer)`: the buffer goes only if the memory went. */
  function AfterDestroy(memories: set<Handle>, buffers: set<Handle>, memory: Handle, buffer: Handle): (r: (set<Handle>, set<Handle>))
    ensures memory !in memories ==> r == (memories, buffers)
    ensures memory in memories ==> r.0 == memories - {memory} && r.1 == buffers - {buffer}
  {
    if memory in memories then (memories - {memory}, buffers - {buffer}) else (memories, buffers)
  }

  /** Destroying the same pair twice is the same as destroying it once. */
  lemma DestroyIdempotent(memories: set<Handle>, buffers: set<Handle>, memory: Handle, buffer: Handle)
    ensures var once := AfterDestroy(memories, buffers, memory, buffer);
            AfterDestroy(once.0, once.1, memory, buffer) == once
  {
  }

  /** Destroying what was just emplaced restores the registry. */
  lemma DestroyUndoesEmplace(memories: set<Handle>, buffers: set<Handle>, memory: Handle, buffer: Handle)
    requires memory !in memories && buffer !in buffers
    ensures AfterDestroy(memories + {memory}, buffers + {buffer}, memory, buffer) == (memories, buffers)
  {
  }

  /** `BufferHandleStorage`: owns every memory object and buffer the factory created. */
  class BufferHandleStorage {
    var memories: set<Handle>
    var buffers: set<Handle>

    constructor ()
      ensures memories == {} && buffers == {}
    {
      memories := {};
      buffers := {};
    }

    /** `emplace`: takes ownership of both objects and hands back their handles. */
    method Emplace(memory: Handle, buffer: Handle) returns (memoryHandle: Handle, bufferHandle: Handle)
      modifies this
      ensures memories == old(memories) + {memory} && buffers == old(buffers) + {buffer}
      ensures memoryHandle == memory && bufferHandle == buffer
    {
      memories := memories + {memory};
      buffers := buffers + {buffer};
      memoryHandle, bufferHandle := memory, buffer;
    }

    /** `destroy`: erases the memory and, only if that erased something, the buffer. */
    method Destroy(memory: Handle, buffer: Handle)
      modifies this
      ensures (memories, buffers) == AfterDestroy(old(memories), old(buffers), memory, buffer)
    {
      if memory in memories {
        memories := memories - {memory};
        buffers := buffers - {buffer};
      }
    }
  }

  /** `BufferFactory`: creates buffers on the device and records them in its storage. */
  class BufferFactory {
    const allocator: RA.ResourceAllocatorState
    const graphicsFamily: nat
    const transferFamily: nat
    const storage: BufferHandleStorage

    constructor (allocator: RA.ResourceAllocatorState, graphicsFamily: nat, transferFamily: nat)
      ensures this.allocator == allocator && this.graphicsFamily == graphicsFamily && this.transferFamily == transferFamily
      ensures fresh(storage) && storage.memories == {} && storage.buffers == {}
    {
      this.allocator := allocator;
      this.graphicsFamily := graphicsFamily;
      this.transferFamily := transferFamily;
      storage := new BufferHandleStorage();
    }

    /**
     * `make_buffer`: a zero size, or transfer writes into an immutable buffer,
     * fail the debug assertions. Otherwise a buffer object is created, memory
     * of the driver's `requiredSize` is allocated from the type of the
     * buffer's kind, both go into the storage, and the value carries the
     * requested size.
     */
    method MakeBuffer(t: BufferType, u: BufferUsage, size: nat, transferRead: bool, transferWrite: bool, requiredSize: nat)
      returns (r: Result<Buffer>, info: Option<BufferCreateInfo>, memoryInfo: Option<RA.MemoryAllocateInfo>)
      requires storage != allocator.device as object
      modifies allocator.device`nextId, allocator.device`memoryBytes, storage
      ensures r.Err? <==> size == 0 || (t == Immutable && transferWrite)
      ensures r.Err? ==>
        r.error == DebugAssertion && info == None && memoryInfo == None
        && storage.memories == old(storage.memories) && storage.buffers == old(storage.buffers)
        && allocator.device.nextId == old(allocator.device.nextId) && allocator.device.memoryBytes == old(allocator.device.memoryBytes)
      ensures r.Ok? ==> info == Some(BufferCreateInfoFor(u, size, graphicsFamily, transferFamily, transferRead, transferWrite))
      ensures r.Ok? ==> memoryInfo == Some(RA.MemoryAllocateInfo(requiredSize, RA.IndexFor(allocator.memoryIndices, ChooseMemoryType(t))))
      ensures r.Ok? ==> allocator.device.nextId == old(allocator.device.nextId) + 2
      ensures r.Ok? ==>
        fresh(r.value) && r.value.IsValid() && r.value.size == size && r.value.bufferType == t && r.value.usage == u
      ensures r.Ok? ==>
        r.value.buffer == Live(old(allocator.device.nextId)) && r.value.memory == Live(old(allocator.device.nextId) + 1)
        && storage.memories == old(storage.memories) + {r.value.memory}
        && storage.buffers == old(storage.buffers) + {r.value.buffer}
      ensures r.Ok? ==> r.value.memory in allocator.device.memoryBytes && |allocator.device.memoryBytes[r.value.memory]| == requiredSize
      ensures r.Ok? ==> forall m :: m != r.value.memory ==>
        (m in allocator.device.memoryBytes <==> m in old(allocator.device.memoryBytes))
        && (m in allocator.device.memoryBytes ==> allocator.device.memoryBytes[m] == old(allocator.device.memoryBytes[m]))
    {
      if size == 0 || (t == Immutable && transferWrite) {
        return Err(DebugAssertion), None, None;
      }
      var createInfo := BufferCreateInfoFor(u, size, graphicsFamily, transferFamily, transferRead, transferWrite);
      var bufferObject := allocator.device.Create();
      var memoryObject, allocateInfo := allocator.Allocate(ChooseMemoryType(t), requiredSize);
      var memoryHandle, bufferHandle := storage.Emplace(memoryObject, bufferObject);
      var made := new Buffer(t, u, memoryHandle, bufferHandle, size);
      return Ok(made), Some(createInfo), Some(allocateInfo);
    }

    /** `destroy_buffer`: hands the buffer's two handles to the storage. */
    method DestroyBuffer(b: Buffer)
      modifies storage
      ensures (storage.memories, storage.buffers) == AfterDestroy(old(storage.memories), old(storage.buffers), b.memory, b.buffer)
    {
      storage.Destroy(b.memory, b.buffer);
    }
  }
}
