/**
 * The transfer manager: host-to-buffer copies through memory mappings (a
 * cached persistent one per constantly-mapped memory object, or a temporary
 * one for immutable buffers) and buffer-to-buffer copies recorded into a
 * transfer command buffer and postponed on the transfer queue.
 */
module TransferManager {
  import opened Outcomes
  import opened Vulkan
  import Buffer
  import Scheduler

  /**
   * `MemoryMapping`: a mapped range of one memory object. The pointer is
   * modelled as the byte offset into the memory it points at; `None` is the
   * null pointer.
   */
  class MemoryMapping {
    var device: Device?
    var memory: Handle
    var pointer: Option<nat>

    /** The constructor maps `size` bytes of `memory` from `offset`; the pointer addresses byte `offset`. */
    constructor (size: nat, offset: nat, device: Device, memory: Handle)
      modifies device`mapped
      ensures this.device == device && this.memory == memory && pointer == Some(offset)
      ensures device.mapped == old(device.mapped) + multiset{memory}
    {
      this.device := device;
      this.memory := memory;
      pointer := Some(offset);
      new;
      device.MapMemory(memory);
    }

    /** The move constructor: the mapping changes hands, the source owns nothing. */
    constructor MoveFrom(other: MemoryMapping)
      modifies other
      ensures device == old(other.device) && memory == old(other.memory) && pointer == old(other.pointer)
      ensures other.device == null && other.memory == Null && other.pointer == None
      ensures !other.OwnsMapping() && (OwnsMapping() <==> old(other.OwnsMapping()))
    {
      device := other.device;
      memory := other.memory;
      pointer := other.pointer;
      new;
      other.device, other.memory, other.pointer := null, Null, None;
    }

    /** Only an owning mapping has a device to unmap from. */
    ghost predicate Valid()
      reads this
    {
      pointer.Some? ==> device != null
    }

    /** `owns_mapping`: the pointer is non-null. */
    predicate OwnsMapping()
      reads this
    {
      pointer.Some?
    }

    /** `get_pointer`: the mapped address; asserting on a mapping that owns nothing. */
    function GetPointer(): (r: Result<nat>)
      reads this
      ensures r.Ok? <==> OwnsMapping()
      ensures r.Ok? ==> Some(r.value) == pointer
    {
      if pointer.Some? then Ok(pointer.value) else Err(DebugAssertion)
    }

    /** `release` (also the destructor): unmaps once if owning, then owns nothing. */
    method Release()
      requires Valid()
      modifies this`pointer, (if device == null then {} else {device})`mapped
      ensures Valid() && !OwnsMapping()
      ensures old(OwnsMapping()) ==> device.mapped == old(device.mapped) - multiset{memory}
      ensures !old(OwnsMapping()) ==> device == null || device.mapped == old(device.mapped)
    {
      if pointer.Some? {
        device.UnmapMemory(memory);
        pointer := None;
      }
    }

    /**
     * Move assignment: a no-op on itself; otherwise releases the mapping it
     * owned, then takes the source's and leaves the source owning nothing.
     */
    method MoveAssign(other: MemoryMapping)
      requires Valid() && other.Valid()
      modifies this, other, device
      ensures Valid() && other.Valid()
      ensures other == this ==> device == old(device) && memory == old(memory) && pointer == old(pointer)
      ensures other != this ==>
        device == old(other.device) && memory == old(other.memory) && pointer == old(other.pointer)
        && other.device == null && other.memory == Null && other.pointer == None
      ensures other != this && old(OwnsMapping()) ==> old(device).mapped == old(device.mapped) - multiset{old(memory)}
      ensures other != this && !old(OwnsMapping()) && old(device) != null ==> old(device).mapped == old(device.mapped)
    {
      if other == this {
        return;
      }
      Release();
      device, memory, pointer := other.device, other.memory, other.pointer;
      other.device, other.memory, other.pointer := null, Null, None;
    }
  }

  /** Releasing twice unmaps once: the second call finds nothing to release. */
  method ReleaseTwice(m: MemoryMapping)
    requires m.Valid() && m.OwnsMapping() && m.device != null
    modifies m`pointer, m.device`mapped
    ensures !m.OwnsMapping()
    ensures m.device.mapped == old(m.device.mapped) - multiset{m.memory}
  {
    m.Release();
    m.Release();
  }

  /**
   * The bytes of the destination memory after a host copy of `data`: a
   * constantly-mapped buffer is written at the start of its mapping whatever
   * the offset, an immutable one at `offset`.
   */
  function HostCopyResult(t: Buffer.BufferType, bytes: seq<byte>, data: seq<byte>, offset: nat): (r: seq<byte>)
    requires t != Buffer.Mappable
    requires offset + |data| <= |bytes|
    ensures |r| == |bytes|
  {
    if t == Buffer.ConstantlyMapped then Overwrite(bytes, 0, data) else Overwrite(bytes, offset, data)
  }

  /** An immutable copy lands exactly on `[offset, offset + size)` and nowhere else. */
  lemma ImmutableCopyWritesRange(bytes: seq<byte>, data: seq<byte>, offset: nat)
    requires offset + |data| <= |bytes|
    ensures HostCopyResult(Buffer.Immutable, bytes, data, offset)[offset..offset + |data|] == data
    ensures forall i :: 0 <= i < |bytes| && !(offset <= i < offset + |data|) ==>
      HostCopyResult(Buffer.Immutable, bytes, data, offset)[i] == bytes[i]
  {
  }

  /** A constantly-mapped copy does not depend on the offset it is given. */
  lemma ConstantlyMappedCopyIgnoresOffset(bytes: seq<byte>, data: seq<byte>, o1: nat, o2: nat)
    requires o1 + |data| <= |bytes| && o2 + |data| <= |bytes|
    ensures HostCopyResult(Buffer.ConstantlyMapped, bytes, data, o1) == HostCopyResult(Buffer.ConstantlyMapped, bytes, data, o2)
    ensures HostCopyResult(Buffer.ConstantlyMapped, bytes, data, o1)[..|data|] == data
  {
  }

  /** Writing one byte at offset 1 of a two-byte constantly-mapped buffer leaves byte 1 untouched. */
  lemma ConstantlyMappedCopyMissesOffset()
    ensures HostCopyResult(Buffer.ConstantlyMapped, [0, 0], [1], 1) == [1, 0]
    ensures HostCopyResult(Buffer.ConstantlyMapped, [0, 0], [1], 1)[1..2] != [1]
  {
    var r := HostCopyResult(Buffer.ConstantlyMapped, [0, 0], [1], 1);
    assert r == Overwrite([0, 0], 0, [1]);
    assert r[1] == 0;
    assert r[1..2][0] == 0;
  }

  /** The copy region `copy(destination, source, ...)` records. */
  function CopyCommand(destination: Handle, source: Handle, size: nat, destinationOffset: nat, sourceOffset: nat): (c: Command)
    ensures c.CopyBuffer? && c.source == source && c.destination == destination
    ensures |c.regions| == 1 && c.regions[0].srcOffset == sourceOffset && c.regions[0].dstOffset == destinationOffset
    ensures c.regions[0].size == size
  {
    CopyBuffer(source, destination, [BufferCopy(sourceOffset, destinationOffset, size)])
  }

  /** The debug assertions of the buffer-to-buffer copy, as a condition for it to go ahead. */
  predicate CopyBoundsHold(size: nat, destinationValid: bool, destinationSize: nat, destinationOffset: nat,
                           sourceValid: bool, sourceSize: nat, sourceOffset: nat) {
    size > 0 && sourceValid && destinationValid
    && sourceSize >= size + sourceOffset && destinationSize >= size + destinationOffset
  }

  /** Both copied ranges lie inside their buffers whenever the copy goes ahead. */
  lemma CopyRegionInBounds(size: nat, destinationValid: bool, destinationSize: nat, destinationOffset: nat,
                           sourceValid: bool, sourceSize: nat, sourceOffset: nat)
    requires CopyBoundsHold(size, destinationValid, destinationSize, destinationOffset, sourceValid, sourceSize, sourceOffset)
    ensures var region := CopyCommand(Null, Null, size, destinationOffset, sourceOffset).regions[0];
            region.size > 0 && region.srcOffset + region.size <= sourceSize && region.dstOffset + region.size <= destinationSize
  {
  }

  /** `TransferManager`: the cache of persistent mappings, and the copies. */
  class TransferManager {
    const scheduler: Scheduler.Scheduler
    var constantlyMappings: map<Handle, MemoryMapping>

    /** Every cached mapping maps the whole of its key's memory from byte 0 on the scheduler's device. */
    ghost predicate Valid()
      reads this, constantlyMappings.Values
    {
      forall m :: m in constantlyMappings ==>
        && constantlyMappings[m].memory == m
        && constantlyMappings[m].pointer == Some(0)
        && constantlyMappings[m].device == scheduler.device
    }

    constructor (scheduler: Scheduler.Scheduler)
      ensures Valid() && this.scheduler == scheduler && constantlyMappings == map[]
    {
      this.scheduler := scheduler;
      constantlyMappings := map[];
    }

    /** `find_constantly_mapped`: the cached mapping's pointer, or null when there is none. */
    function FindConstantlyMapped(memory: Handle): (r: Option<nat>)
      reads this, constantlyMappings.Values
      ensures Valid() ==> (r.Some? <==> memory in constantlyMappings)
      ensures Valid() && r.Some? ==> r.value == 0
    {
      if memory in constantlyMappings then constantlyMappings[memory].pointer else None
    }

    /**
     * `emplace_constantly_mapped`: maps `size` bytes of `memory` from 0 and
     * caches the mapping; an entry already there is kept as it is.
     */
    method EmplaceConstantlyMapped(memory: Handle, size: nat) returns (pointer: nat)
      requires Valid()
      modifies this`constantlyMappings, scheduler.device`mapped
      ensures Valid() && pointer == 0
      ensures memory in constantlyMappings && constantlyMappings.Keys == old(constantlyMappings.Keys) + {memory}
      ensures forall m :: m in old(constantlyMappings) ==> constantlyMappings[m] == old(constantlyMappings[m])
      ensures memory !in old(constantlyMappings) ==>
        fresh(constantlyMappings[memory]) && scheduler.device.mapped == old(scheduler.device.mapped) + multiset{memory}
      ensures memory in old(constantlyMappings) ==> scheduler.device.mapped == old(scheduler.device.mapped)
    {
      if memory !in constantlyMappings {
        var mapping := new MemoryMapping(size, 0, scheduler.device, memory);
        constantlyMappings := constantlyMappings[memory := mapping];
      }
      pointer := 0;
    }

    /**
     * The constantly-mapped branch of the host copy: finds or creates the
     * cached mapping of `memory` and writes `data` at its pointer, byte 0.
     */
    method WriteConstantlyMapped(memory: Handle, size: nat, data: seq<byte>)
      requires Valid()
      requires memory in scheduler.device.memoryBytes && |data| <= |scheduler.device.memoryBytes[memory]|
      modifies this`constantlyMappings, scheduler.device`mapped, scheduler.device`memoryBytes
      ensures Valid()
      ensures scheduler.device.memoryBytes == old(scheduler.device.memoryBytes)[memory :=
        Overwrite(old(scheduler.device.memoryBytes[memory]), 0, data)]
      ensures constantlyMappings.Keys == old(constantlyMappings.Keys) + {memory}
      ensures forall m :: m in old(constantlyMappings) ==> constantlyMappings[m] == old(constantlyMappings[m])
      ensures scheduler.device.mapped == old(scheduler.device.mapped)
        + (if memory in old(constantlyMappings) then multiset{} else multiset{memory})
    {
      var found := FindConstantlyMapped(memory);
      var pointer: nat;
      if found.None? {
        pointer := EmplaceConstantlyMapped(memory, size);
      } else {
        pointer := found.value;
      }
      scheduler.device.WriteMemory(memory, pointer, data);
    }

    /**
     * The immutable branch of the host copy: maps `[offset, offset + |data|)`
     * of `memory`, writes `data` at the mapping's pointer and unmaps again.
     */
    method WriteThroughTemporaryMapping(memory: Handle, data: seq<byte>, offset: nat)
      requires memory in scheduler.device.memoryBytes && offset + |data| <= |scheduler.device.memoryBytes[memory]|
      modifies scheduler.device`mapped, scheduler.device`memoryBytes
      ensures scheduler.device.memoryBytes == old(scheduler.device.memoryBytes)[memory :=
        Overwrite(old(scheduler.device.memoryBytes[memory]), offset, data)]
      ensures scheduler.device.mapped == old(scheduler.device.mapped)
    {
      var device := scheduler.device;
      var mapping := new MemoryMapping(|data|, offset, device, memory);
      var pointer := mapping.GetPointer();
      device.WriteMemory(memory, pointer.value, data);
      mapping.Release();
    }

    /**
     * Host-to-buffer `copy`: asserts a non-empty copy into a valid buffer that
     * holds `offset + size` bytes. A constantly-mapped buffer is written
     * through its cached mapping (created on first use), from the start of
     * the buffer; an immutable buffer through a temporary mapping of
     * `[offset, offset + size)`, unmapped again afterwards.
     */
    method CopyFromHost(destination: Buffer.Buffer, data: seq<byte>, offset: nat) returns (r: Result<()>)
      requires Valid()
      requires destination.bufferType == Buffer.ConstantlyMapped || destination.bufferType == Buffer.Immutable
      requires destination.IsValid() ==>
        (destination.memory in scheduler.device.memoryBytes && |scheduler.device.memoryBytes[destination.memory]| >= destination.size)
      modifies this`constantlyMappings, scheduler.device`mapped, scheduler.device`memoryBytes
      ensures Valid()
      ensures r.Err? <==> |data| == 0 || !destination.IsValid() || destination.size < |data| + offset
      ensures r.Err? ==>
        r.error == DebugAssertion && constantlyMappings == old(constantlyMappings)
        && scheduler.device.memoryBytes == old(scheduler.device.memoryBytes)
        && scheduler.device.mapped == old(scheduler.device.mapped)
      ensures r.Ok? ==>
        scheduler.device.memoryBytes == old(scheduler.device.memoryBytes)[destination.memory :=
          HostCopyResult(destination.bufferType, old(scheduler.device.memoryBytes[destination.memory]), data, offset)]
      ensures r.Ok? && destination.bufferType == Buffer.Immutable ==>
        constantlyMappings == old(constantlyMappings) && scheduler.device.mapped == old(scheduler.device.mapped)
      ensures r.Ok? && destination.bufferType == Buffer.ConstantlyMapped ==>
        constantlyMappings.Keys == old(constantlyMappings.Keys) + {destination.memory}
        && (forall m :: m in old(constantlyMappings) ==> constantlyMappings[m] == old(constantlyMappings[m]))
        && scheduler.device.mapped == old(scheduler.device.mapped)
          + (if destination.memory in old(constantlyMappings) then multiset{} else multiset{destination.memory})
    {
      if |data| == 0 || !destination.IsValid() || destination.size < |data| + offset {
        return Err(DebugAssertion);
      }
      if destination.bufferType == Buffer.ConstantlyMapped {
        WriteConstantlyMapped(destination.memory, destination.size, data);
      } else {
        WriteThroughTemporaryMapping(destination.memory, data, offset);
      }
      r := Ok(());
    }

    /**
     * Buffer-to-buffer `copy`: asserts a non-empty copy between valid buffers
     * within both bounds, then records one copy region into a new transfer
     * command buffer and postpones it on the transfer queue.
     */
    method CopyBuffer(destination: Buffer.Buffer, source: Buffer.Buffer, size: nat, destinationOffset: nat, sourceOffset: nat)
      returns (r: Result<CommandBuffer>)
      requires scheduler.Valid()
      modifies scheduler.device`nextId, scheduler.transferCommands
      ensures scheduler.Valid()
      ensures r.Err? <==> !CopyBoundsHold(size, destination.IsValid(), destination.size, destinationOffset,
                                         source.IsValid(), source.size, sourceOffset)
      ensures r.Err? ==>
        r.error == DebugAssertion && scheduler.transferCommands.history == old(scheduler.transferCommands.history)
        && scheduler.device.nextId == old(scheduler.device.nextId)
      ensures r.Ok? ==>
        fresh(r.value) && r.value.handle == Live(old(scheduler.device.nextId))
        && r.value.commands == [CopyCommand(destination.buffer, source.buffer, size, destinationOffset, sourceOffset)]
        && scheduler.transferCommands.buffers == old(scheduler.transferCommands.buffers) + [r.value]
        && scheduler.transferCommands.history == old(scheduler.transferCommands.history) + [Scheduler.Postponed(r.value.handle)]
    {
      if !CopyBoundsHold(size, destination.IsValid(), destination.size, destinationOffset,
                         source.IsValid(), source.size, sourceOffset) {
        return Err(DebugAssertion);
      }
      var commands := scheduler.MakeCommandBuffer();
      commands.Record(CopyCommand(destination.buffer, source.buffer, size, destinationOffset, sourceOffset));
      scheduler.PostponeTransferCommands(commands);
      r := Ok(commands);
    }
  }
}
