/**
 * The allocation requests of include/ignis/detail/resource_memory.hxx:
 * how a resource's memory access and placement become the flags and the
 * usage of a memory-allocator request.
 */
module ResourceMemory {
  import opened Vulkan

  datatype MemoryAccess = Transfer | ToTemporaryMapped | ToConstantlyMapped

  datatype MemoryPlacement = InDevice | InHost | NoMatter

  datatype AllocationCreateFlag = Mapped | HostAccessSequentialWrite | StrategyBestFit

  datatype MemoryUsage = AutoPreferDevice | AutoPreferHost | Auto

  datatype AllocationCreateInfo = AllocationCreateInfo(flags: set<AllocationCreateFlag>, usage: MemoryUsage, priority: real)

  /** What the allocation is for; the request itself does not depend on it. */
  datatype AllocationTarget = ForBuffer(buffer: Handle) | ForImage(image: Handle)

  /**
   * `make_allocation_flags`: every allocation asks for the best-fit strategy;
   * any mapped access asks for sequential host writes; only constantly mapped
   * memory asks to stay mapped.
   */
  function MakeAllocationFlags(access: MemoryAccess): (flags: set<AllocationCreateFlag>)
    ensures StrategyBestFit in flags
    ensures Mapped in flags <==> access == ToConstantlyMapped
    ensures HostAccessSequentialWrite in flags <==> access != MemoryAccess.Transfer
    ensures forall f :: f in flags ==> f in {Mapped, HostAccessSequentialWrite, StrategyBestFit}
  {
    match access
    case ToConstantlyMapped => {Mapped, HostAccessSequentialWrite, StrategyBestFit}
    case ToTemporaryMapped => {HostAccessSequentialWrite, StrategyBestFit}
    case Transfer => {StrategyBestFit}
  }

  /** More mapping never drops a flag. */
  lemma AllocationFlagsGrowWithMapping()
    ensures MakeAllocationFlags(MemoryAccess.Transfer) < MakeAllocationFlags(ToTemporaryMapped) < MakeAllocationFlags(ToConstantlyMapped)
  {
  }

  /** `make_usage_flags`: the placement picks the allocator's automatic usage preference; the map is one to one. */
  function MakeUsageFlags(placement: MemoryPlacement): (usage: MemoryUsage)
    ensures usage == AutoPreferDevice <==> placement == InDevice
    ensures usage == AutoPreferHost <==> placement == InHost
    ensures usage == Auto <==> placement == NoMatter
  {
    match placement
    case InDevice => AutoPreferDevice
    case InHost => AutoPreferHost
    case NoMatter => Auto
  }

  /** The create info of both `make_allocation` overloads, priority 1. */
  function AllocationCreateInfoFor(access: MemoryAccess, placement: MemoryPlacement): AllocationCreateInfo {
    AllocationCreateInfo(MakeAllocationFlags(access), MakeUsageFlags(placement), 1.0)
  }

  /** Different access or placement always gives a different request. */
  lemma AllocationCreateInfoInjective(a1: MemoryAccess, p1: MemoryPlacement, a2: MemoryAccess, p2: MemoryPlacement)
    ensures AllocationCreateInfoFor(a1, p1) == AllocationCreateInfoFor(a2, p2) <==> a1 == a2 && p1 == p2
  {
    if AllocationCreateInfoFor(a1, p1) == AllocationCreateInfoFor(a2, p2) {
      assert (Mapped in MakeAllocationFlags(a1)) == (Mapped in MakeAllocationFlags(a2));
      assert (HostAccessSequentialWrite in MakeAllocationFlags(a1)) == (HostAccessSequentialWrite in MakeAllocationFlags(a2));
    }
  }

  class ResourceMemoryAllocator {
    const device: Device

    constructor (device: Device)
      ensures this.device == device
    {
      this.device := device;
    }

    /**
     * `make_allocation` for a buffer or an image: one new allocation, asked
     * for with the same create info whatever the target.
     */
    method MakeAllocation(target: AllocationTarget, access: MemoryAccess, placement: MemoryPlacement)
      returns (allocation: Handle, info: AllocationCreateInfo)
      modifies device`nextId
      ensures info.flags == MakeAllocationFlags(access) && info.usage == MakeUsageFlags(placement) && info.priority == 1.0
      ensures allocation == Live(old(device.nextId)) && device.nextId == old(device.nextId) + 1
    {
      info := AllocationCreateInfoFor(access, placement);
      allocation := device.Create();
    }
  }
}
