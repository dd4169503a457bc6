/**
 * The memory-type picker of include/ignis/detail/resource_allocator.hxx:
 * one memory type index for immutable resources and one for mappable
 * ones, chosen by the rated size of their heaps, and raw allocations of
 * the picked types.
 */
module ResourceAllocator {
  import opened Outcomes
  import opened Numerics
  import opened Vulkan

  datatype MemoryType = Immutable | Mappable

  datatype MemoryIndices = MemoryIndices(immutable: nat, mappable: nat)

  /** `vk::MemoryAllocateInfo`. */
  datatype MemoryAllocateInfo = MemoryAllocateInfo(allocationSize: nat, memoryTypeIndex: nat)

  function DeviceLocalWeight(t: MemoryType): nat { 25 }

  function HostCoherentWeight(t: MemoryType): nat {
    match t
    case Immutable => 0
    case Mappable => 10
  }

  /** `retrieve_flags_weight`: device-local memory earns 25, host-coherent memory the type's coherent weight. */
  function RetrieveFlagsWeight(t: MemoryType, flags: MemoryPropertyFlags): (w: nat)
    ensures w <= DeviceLocalWeight(t) + HostCoherentWeight(t)
    ensures flags.deviceLocal <==> w >= DeviceLocalWeight(t)
    ensures t == Immutable ==> (w == 0 <==> !flags.deviceLocal)
  {
    (if flags.deviceLocal then DeviceLocalWeight(t) else 0) +
    (if flags.hostCoherent then HostCoherentWeight(t) else 0)
  }

  const BlockSize: nat := 0x10_0000

  /** `rate_memory_amount`: 100 points per rounded square root of the whole mebibytes. */
  function RateMemoryAmount(bytes: nat): (r: nat)
    ensures r % 100 == 0
    ensures IsRoundedSqrt(bytes / BlockSize, r / 100)
  {
    100 * RoundSqrt(bytes / BlockSize)
  }

  /** A larger heap never rates lower. */
  lemma RateMemoryAmountMonotone(a: nat, b: nat)
    requires a <= b
    ensures RateMemoryAmount(a) <= RateMemoryAmount(b)
  {
    assert a / BlockSize <= b / BlockSize;
    RoundSqrtMonotone(a / BlockSize, b / BlockSize);
  }

  /** The mappable kind only takes host-visible memory types. */
  predicate Admitted(t: MemoryType, flags: MemoryPropertyFlags) {
    t == Immutable || flags.hostVisible
  }

  function TypeRate(props: MemoryProperties, i: nat): nat
    requires props.WellFormed() && i < |props.memoryTypes|
  {
    RateMemoryAmount(props.HeapSizeOf(i))
  }

  /** Which memory types the kind admits, in type order. */
  function AdmittedOf(t: MemoryType, props: MemoryProperties): (r: seq<bool>)
    ensures |r| == |props.memoryTypes|
    ensures forall i :: 0 <= i < |r| ==> (r[i] <==> Admitted(t, props.memoryTypes[i].propertyFlags))
  {
    seq(|props.memoryTypes|, i requires 0 <= i < |props.memoryTypes| => Admitted(t, props.memoryTypes[i].propertyFlags))
  }

  /** The rate of every memory type, in type order. */
  function RatesOf(props: MemoryProperties): (r: seq<nat>)
    requires props.WellFormed()
    ensures |r| == |props.memoryTypes|
    ensures forall i :: 0 <= i < |r| ==> r[i] == TypeRate(props, i)
  {
    seq(|props.memoryTypes|, i requires 0 <= i < |props.memoryTypes| && props.WellFormed() => TypeRate(props, i))
  }

  /**
   * The pick among the first `n` candidates: the admitted one with the
   * highest rate, the lowest index among equal rates.
   */
  function BestUpTo(admitted: seq<bool>, rates: seq<nat>, n: nat): (r: Option<nat>)
    requires n <= |admitted| && n <= |rates|
    ensures r.Some? ==> r.value < n
  {
    if n == 0 then None
    else
      var previous := BestUpTo(admitted, rates, n - 1);
      if !admitted[n - 1] then previous
      else if previous.None? || rates[n - 1] > rates[previous.value] then Some(n - 1)
      else previous
  }

  /** The reference pick among the first `n` memory types. */
  function BestTypeUpTo(t: MemoryType, props: MemoryProperties, n: nat): (r: Option<nat>)
    requires props.WellFormed() && n <= |props.memoryTypes|
    ensures r.Some? ==> r.value < n
  {
    BestUpTo(AdmittedOf(t, props), RatesOf(props), n)
  }

  /** The pick finds nothing exactly when no candidate among the first `n` is admitted. */
  lemma {:induction false} BestFoundIffAdmitted(admitted: seq<bool>, rates: seq<nat>, n: nat)
    requires n <= |admitted| && n <= |rates|
    ensures BestUpTo(admitted, rates, n).None? <==> forall j :: 0 <= j < n ==> !admitted[j]
  {
    if n > 0 {
      BestFoundIffAdmitted(admitted, rates, n - 1);
    }
  }

  /**
   * Candidate `b` is admitted, and every admitted candidate among the first
   * `n` rates lower, or the same with an index no smaller.
   */
  predicate HighestRated(admitted: seq<bool>, rates: seq<nat>, n: nat, b: nat)
    requires n <= |admitted| && n <= |rates| && b < |admitted| && b < |rates|
  {
    && admitted[b]
    && forall j :: 0 <= j < n && admitted[j] ==> rates[j] < rates[b] || (rates[j] == rates[b] && b <= j)
  }

  /** The pick is the first highest-rated admitted candidate. */
  lemma {:induction false} BestIsHighestRated(admitted: seq<bool>, rates: seq<nat>, n: nat)
    requires n <= |admitted| && n <= |rates|
    ensures BestUpTo(admitted, rates, n).Some? ==> HighestRated(admitted, rates, n, BestUpTo(admitted, rates, n).value)
  {
    if n > 0 {
      BestIsHighestRated(admitted, rates, n - 1);
      BestFoundIffAdmitted(admitted, rates, n - 1);
      var previous := BestUpTo(admitted, rates, n - 1);
      var last := n - 1;
      if admitted[last] && (previous.None? || rates[last] > rates[previous.value]) {
        forall j | 0 <= j < n && admitted[j]
          ensures rates[j] < rates[last] || (rates[j] == rates[last] && last <= j)
        {
          if j < last {
            assert HighestRated(admitted, rates, n - 1, previous.value);
          }
        }
      }
    }
  }

  /** The pick depends on nothing but the first `n` admissions and rates. */
  lemma {:induction false} BestUpToAgrees(a1: seq<bool>, r1: seq<nat>, a2: seq<bool>, r2: seq<nat>, n: nat)
    requires n <= |a1| && n <= |r1| && n <= |a2| && n <= |r2|
    requires forall j :: 0 <= j < n ==> a1[j] == a2[j] && r1[j] == r2[j]
    ensures BestUpTo(a1, r1, n) == BestUpTo(a2, r2, n)
  {
    if n > 0 {
      BestUpToAgrees(a1, r1, a2, r2, n - 1);
    }
  }

  /** The reference pick finds nothing exactly when no type among the first `n` is admitted. */
  lemma BestTypeFoundIffAdmitted(t: MemoryType, props: MemoryProperties, n: nat)
    requires props.WellFormed() && n <= |props.memoryTypes|
    ensures BestTypeUpTo(t, props, n).None? <==> forall j :: 0 <= j < n ==> !Admitted(t, props.memoryTypes[j].propertyFlags)
  {
    BestFoundIffAdmitted(AdmittedOf(t, props), RatesOf(props), n);
  }

  /**
   * The reference pick is admitted, and every admitted type among the first
   * `n` rates lower, or the same with an index no smaller.
   */
  lemma BestTypeIsHighestRated(t: MemoryType, props: MemoryProperties, n: nat)
    requires props.WellFormed() && n <= |props.memoryTypes|
    ensures var r := BestTypeUpTo(t, props, n);
      r.Some? ==>
        Admitted(t, props.memoryTypes[r.value].propertyFlags) &&
        forall j :: 0 <= j < n && Admitted(t, props.memoryTypes[j].propertyFlags) ==>
          TypeRate(props, j) < TypeRate(props, r.value) ||
          (TypeRate(props, j) == TypeRate(props, r.value) && r.value <= j)
  {
    BestIsHighestRated(AdmittedOf(t, props), RatesOf(props), n);
  }

  /**
   * The flags weight is computed and dropped: two devices whose memory types
   * agree on host visibility and heap sizes get the same pick, however their
   * device-local and host-coherent bits differ.
   */
  lemma PickIgnoresFlagsWeight(t: MemoryType, p: MemoryProperties, q: MemoryProperties, n: nat)
    requires p.WellFormed() && q.WellFormed()
    requires n <= |p.memoryTypes| == |q.memoryTypes|
    requires forall j :: 0 <= j < n ==>
      p.memoryTypes[j].propertyFlags.hostVisible == q.memoryTypes[j].propertyFlags.hostVisible &&
      p.HeapSizeOf(j) == q.HeapSizeOf(j)
    ensures BestTypeUpTo(t, p, n) == BestTypeUpTo(t, q, n)
  {
    BestUpToAgrees(AdmittedOf(t, p), RatesOf(p), AdmittedOf(t, q), RatesOf(q), n);
  }

  /** `flat_map` lookup of a score. */
  predicate HasScore(rated: seq<(nat, nat)>, score: nat) {
    exists q :: 0 <= q < |rated| && rated[q].0 == score
  }

  /** Where a `flat_map` ordered by `std::greater` inserts a new score: before the first smaller one. */
  function FirstLess(rated: seq<(nat, nat)>, score: nat): (p: nat)
    ensures p <= |rated|
    ensures p == 0 <==> rated == [] || rated[0].0 < score
  {
    if rated == [] then 0
    else if rated[0].0 < score then 0
    else 1 + FirstLess(rated[1..], score)
  }

  /** Inserting a new score keeps the highest score in front. */
  lemma InsertRated(rated: seq<(nat, nat)>, score: nat, i: nat)
    requires forall q :: 0 <= q < |rated| ==> rated[q].0 <= rated[0].0
    requires !HasScore(rated, score)
    ensures
      var p := FirstLess(rated, score);
      var r := rated[..p] + [(score, i)] + rated[p..];
      && (p == 0 ==> r[0] == (score, i) && (rated != [] ==> score > rated[0].0))
      && (p > 0 ==> r[0] == rated[0] && score < rated[0].0)
      && forall q :: 0 <= q < |r| ==> r[q].0 <= r[0].0
  {
    var p := FirstLess(rated, score);
    var r := rated[..p] + [(score, i)] + rated[p..];
    if rated != [] {
      assert rated[0].0 != score;
    }
    forall q | 0 <= q < |r| ensures r[q].0 <= r[0].0 {
      if q < p {
        assert r[q] == rated[q];
      } else if q > p {
        assert r[q] == rated[q - 1];
      }
    }
  }

  /** The rated map after the first `i` types: its front entry is the reference pick, and it holds the highest rate. */
  predicate RatedUpTo(t: MemoryType, props: MemoryProperties, rated: seq<(nat, nat)>, i: nat)
    requires props.WellFormed() && i <= |props.memoryTypes|
  {
    && (rated == [] <==> BestTypeUpTo(t, props, i).None?)
    && (rated != [] ==> rated[0] == (TypeRate(props, BestTypeUpTo(t, props, i).value), BestTypeUpTo(t, props, i).value))
    && (forall q :: 0 <= q < |rated| ==> rated[q].0 <= rated[0].0)
  }

  /** One iteration of `pick_memory_type`'s loop keeps `RatedUpTo`. */
  lemma RatedStep(t: MemoryType, props: MemoryProperties, rated: seq<(nat, nat)>, i: nat)
    requires props.WellFormed() && i < |props.memoryTypes| && RatedUpTo(t, props, rated, i)
    ensures
      var score := TypeRate(props, i);
      var p := FirstLess(rated, score);
      RatedUpTo(t, props,
        if Admitted(t, props.memoryTypes[i].propertyFlags) && !HasScore(rated, score)
        then rated[..p] + [(score, i)] + rated[p..] else rated,
        i + 1)
  {
    var score := TypeRate(props, i);
    var previous := BestTypeUpTo(t, props, i);
    if Admitted(t, props.memoryTypes[i].propertyFlags) && !HasScore(rated, score) {
      var p := FirstLess(rated, score);
      InsertRated(rated, score, i);
      if p == 0 {
        assert BestTypeUpTo(t, props, i + 1) == Some(i);
      } else {
        assert BestTypeUpTo(t, props, i + 1) == previous;
      }
    } else if Admitted(t, props.memoryTypes[i].propertyFlags) {
      var q :| 0 <= q < |rated| && rated[q].0 == score;
      assert BestTypeUpTo(t, props, i + 1) == previous;
    } else {
      assert BestTypeUpTo(t, props, i + 1) == previous;
    }
  }

  /**
   * `pick_memory_type`: rate every admitted type by its heap size into a
   * map from rate to the first type index of that rate, highest rate
   * first; the first entry wins.
   */
  method PickMemoryType(t: MemoryType, props: MemoryProperties) returns (r: Result<nat>)
    requires props.WellFormed()
    ensures r.Err? ==> r.error == NoAcceptableMemory
    ensures r.Err? <==> BestTypeUpTo(t, props, |props.memoryTypes|).None?
    ensures r.Ok? ==> r.value == BestTypeUpTo(t, props, |props.memoryTypes|).value
  {
    var rated: seq<(nat, nat)> := [];
    var i := 0;
    while i < |props.memoryTypes|
      invariant i <= |props.memoryTypes|
      invariant RatedUpTo(t, props, rated, i)
    {
      var flags := props.memoryTypes[i].propertyFlags;
      var weight := RetrieveFlagsWeight(t, flags);
      var score := RateMemoryAmount(props.heapSizes[props.memoryTypes[i].heapIndex]);
      RatedStep(t, props, rated, i);
      if Admitted(t, flags) && !HasScore(rated, score) {
        var p := FirstLess(rated, score);
        rated := rated[..p] + [(score, i)] + rated[p..];
      }
      i := i + 1;
    }
    if rated == [] {
      return Err(NoAcceptableMemory);
    }
    return Ok(rated[0].1);
  }

  /** `pick_memory_indices`: the immutable pick, then the mappable pick. */
  method PickMemoryIndices(props: MemoryProperties) returns (r: Result<MemoryIndices>)
    requires props.WellFormed()
    ensures r.Err? ==> r.error == NoAcceptableMemory
    ensures r.Ok? <==> BestTypeUpTo(Immutable, props, |props.memoryTypes|).Some? &&
                       BestTypeUpTo(Mappable, props, |props.memoryTypes|).Some?
    ensures r.Ok? ==>
      r.value.immutable == BestTypeUpTo(Immutable, props, |props.memoryTypes|).value &&
      r.value.mappable == BestTypeUpTo(Mappable, props, |props.memoryTypes|).value
  {
    var immutable := PickMemoryType(Immutable, props);
    if immutable.Err? {
      return Err(immutable.error);
    }
    var mappable := PickMemoryType(Mappable, props);
    if mappable.Err? {
      return Err(mappable.error);
    }
    return Ok(MemoryIndices(immutable.value, mappable.value));
  }

  /** Any memory type the mappable kind accepts, the immutable kind accepts too. */
  lemma MappableImpliesImmutable(props: MemoryProperties)
    requires props.WellFormed()
    ensures BestTypeUpTo(Mappable, props, |props.memoryTypes|).Some? ==>
            BestTypeUpTo(Immutable, props, |props.memoryTypes|).Some?
  {
    var n := |props.memoryTypes|;
    BestTypeIsHighestRated(Mappable, props, n);
    BestTypeFoundIffAdmitted(Immutable, props, n);
  }

  function IndexFor(indices: MemoryIndices, t: MemoryType): nat {
    match t
    case Immutable => indices.immutable
    case Mappable => indices.mappable
  }

  class ResourceAllocatorState {
    const device: Device
    const memoryIndices: MemoryIndices

    constructor (device: Device, indices: MemoryIndices)
      ensures this.device == device && memoryIndices == indices
    {
      this.device := device;
      memoryIndices := indices;
    }

    /** The constructor: both indices picked from the device's memory properties. */
    static method Make(device: Device, props: MemoryProperties) returns (r: Result<ResourceAllocatorState>)
      requires props.WellFormed()
      ensures r.Err? <==> BestTypeUpTo(Immutable, props, |props.memoryTypes|).None? ||
                          BestTypeUpTo(Mappable, props, |props.memoryTypes|).None?
      ensures r.Ok? ==> fresh(r.value) && r.value.device == device
      ensures r.Ok? ==> r.value.memoryIndices.immutable == BestTypeUpTo(Immutable, props, |props.memoryTypes|).value
      ensures r.Ok? ==> r.value.memoryIndices.mappable == BestTypeUpTo(Mappable, props, |props.memoryTypes|).value
    {
      var indices := PickMemoryIndices(props);
      if indices.Err? {
        return Err(indices.error);
      }
      var allocator := new ResourceAllocatorState(device, indices.value);
      return Ok(allocator);
    }

    /** `allocate<Type>`: a new memory object of `size` bytes from the picked type of that kind. */
    method Allocate(t: MemoryType, size: nat) returns (memory: Handle, info: MemoryAllocateInfo)
      modifies device`nextId, device`memoryBytes
      ensures info == MemoryAllocateInfo(size, IndexFor(memoryIndices, t))
      ensures memory == Live(old(device.nextId)) && device.nextId == old(device.nextId) + 1
      ensures memory in device.memoryBytes && |device.memoryBytes[memory]| == size
      ensures forall m :: m != memory ==>
        (m in device.memoryBytes <==> m in old(device.memoryBytes)) && (m in device.memoryBytes ==> device.memoryBytes[m] == old(device.memoryBytes[m]))
      ensures device.fenceSignaled == old(device.fenceSignaled) && device.mapped == old(device.mapped)
    {
      info := MemoryAllocateInfo(size, IndexFor(memoryIndices, t));
      memory := device.AllocateMemory(size);
    }
  }
}
