/**
 * The heap selector of include/ignis/detail/memory_selector.hxx.
 *
 * Every memory type of the physical device becomes one heap record, kept in
 * two ordered multisets (one rated for fast access, one for large storage),
 * each sorted by flags score times best available size, largest first.
 * A request picks a record that can hold it, hands out its memory type
 * index and re-inserts the record with its bookkeeping updated.
 */
module MemorySelector {
  import opened Outcomes
  import opened Numerics
  import opened Vulkan

  /** A `size_t` value. */
  type SizeT = x: int | 0 <= x < SizeLimit

  datatype MemoryType = Immutable | Mappable

  datatype PreferMemory = FastAccess | LargeStorage

  datatype HeapProperties = HeapProperties(
    index: nat,
    flagsScore: nat,
    maxFlagsScore: nat,
    totalSize: SizeT,
    bestAvailableSize: SizeT,
    worstAvailableSize: SizeT,
    usersNumber: SizeT)

  /**
   * The ordering key of the heap sets (`std::greater` over it): the
   * `uint32_t` score times the `size_t` size, a `size_t` product that wraps.
   */
  function Key(h: HeapProperties): (k: SizeT)
    ensures h.flagsScore * h.bestAvailableSize < SizeLimit ==> k == h.flagsScore * h.bestAvailableSize
  {
    (h.flagsScore * h.bestAvailableSize) % SizeLimit
  }

  /** From 4 PiB up, a device-local heap's key wraps: 4096 times 2^52 bytes orders as 0. */
  lemma KeyWraps()
    ensures var size := 0x10_0000_0000_0000;
      Key(HeapProperties(0, 4096, 4096, size, size, size, 0)) == 0
  {
  }

  /** The order the `std::greater` multisets keep: keys never increase. */
  predicate SortedDesc(s: seq<HeapProperties>) {
    forall i, j :: 0 <= i < j < |s| ==> Key(s[i]) >= Key(s[j])
  }

  /** Among equal keys, records sit in the order of their memory type index. */
  predicate StableByIndex(s: seq<HeapProperties>) {
    forall i, j :: 0 <= i < j < |s| && Key(s[i]) == Key(s[j]) ==> s[i].index < s[j].index
  }

  /* ---------------------------------------------------------------- weights */

  function DeviceLocalWeight(t: MemoryType): nat {
    match t
    case Immutable => 32
    case Mappable => 16
  }

  function HostCoherentWeight(t: MemoryType): nat {
    match t
    case Immutable => 1
    case Mappable => 8
  }

  const PreferredMultiplier: nat := 8

  /**
   * `get_flags_weight`: starts at 16, scales by the host-coherent weight
   * (divided by 8 first under fast access, in integer arithmetic) and by the
   * device-local weight (times 8 under fast access); memory that is not
   * device local is divided by 8 under fast access. Never below 1.
   */
  function FlagsWeight(t: MemoryType, flags: MemoryPropertyFlags, pref: PreferMemory): (w: nat)
    ensures w >= 1
  {
    var afterCoherent :=
      if !flags.hostCoherent then 16
      else if pref == FastAccess then 16 * (HostCoherentWeight(t) / PreferredMultiplier)
      else 16 * HostCoherentWeight(t);
    var afterLocal :=
      if flags.deviceLocal then
        if pref == FastAccess then afterCoherent * (PreferredMultiplier * DeviceLocalWeight(t))
        else afterCoherent * DeviceLocalWeight(t)
      else if pref == FastAccess then afterCoherent / PreferredMultiplier
      else afterCoherent;
    if afterLocal < 1 then 1 else afterLocal
  }

  function Flags(deviceLocal: bool, hostCoherent: bool): MemoryPropertyFlags {
    MemoryPropertyFlags(deviceLocal, false, hostCoherent)
  }

  function Max(a: nat, b: nat): nat {
    if a < b then b else a
  }

  /** `get_max_flags_weight`: the largest weight of the four device-local / host-coherent combinations. */
  function MaxFlagsWeight(t: MemoryType, pref: PreferMemory): nat {
    Max(Max(FlagsWeight(t, Flags(false, false), pref), FlagsWeight(t, Flags(true, false), pref)),
        Max(FlagsWeight(t, Flags(false, true), pref), FlagsWeight(t, Flags(true, true), pref)))
  }

  /** Every memory type's weight lies between 1 and the maximum weight of its preference. */
  lemma FlagsWeightBounded(t: MemoryType, flags: MemoryPropertyFlags, pref: PreferMemory)
    ensures 1 <= FlagsWeight(t, flags, pref) <= MaxFlagsWeight(t, pref)
  {
    assert FlagsWeight(t, flags, pref) == FlagsWeight(t, Flags(flags.deviceLocal, flags.hostCoherent), pref);
  }

  /**
   * Under fast access, immutable memory that is host coherent drops to the
   * floor weight 1 even when it is device local: the host-coherent weight 1
   * divided by 8 is 0 in integer arithmetic.
   */
  lemma ImmutableCoherentFastWeightIsFloor(flags: MemoryPropertyFlags)
    requires flags.hostCoherent
    ensures FlagsWeight(Immutable, flags, FastAccess) == 1
    ensures FlagsWeight(Immutable, Flags(true, false), FastAccess) == 4096
  {
  }

  /* ------------------------------------------------------ building the sets */

  /** Heap sizes fit in `vk::DeviceSize`. */
  predicate HeapSizesFit(props: MemoryProperties) {
    forall k :: 0 <= k < |props.heapSizes| ==> props.heapSizes[k] < SizeLimit
  }

  /** The mappable selector only keeps host-visible memory types. */
  predicate Admitted(t: MemoryType, flags: MemoryPropertyFlags) {
    t == Immutable || flags.hostVisible
  }

  /** The record `make_heap_set` emplaces for memory type `i`: the whole heap free, no users. */
  function HeapEntry(t: MemoryType, props: MemoryProperties, pref: PreferMemory, i: nat): HeapProperties
    requires props.WellFormed() && HeapSizesFit(props) && i < |props.memoryTypes|
  {
    var size := props.HeapSizeOf(i);
    HeapProperties(i, FlagsWeight(t, props.memoryTypes[i].propertyFlags, pref), MaxFlagsWeight(t, pref), size, size, size, 0)
  }

  /** The records of the admitted memory types among the first `n`, in type order. */
  function HeapEntriesUpTo(t: MemoryType, props: MemoryProperties, pref: PreferMemory, n: nat): seq<HeapProperties>
    requires props.WellFormed() && HeapSizesFit(props) && n <= |props.memoryTypes|
  {
    if n == 0 then []
    else
      HeapEntriesUpTo(t, props, pref, n - 1) +
      (if Admitted(t, props.memoryTypes[n - 1].propertyFlags) then [HeapEntry(t, props, pref, n - 1)] else [])
  }

  function HeapEntries(t: MemoryType, props: MemoryProperties, pref: PreferMemory): seq<HeapProperties>
    requires props.WellFormed() && HeapSizesFit(props)
  {
    HeapEntriesUpTo(t, props, pref, |props.memoryTypes|)
  }

  /** Every record of the heap sets starts with its whole heap free and one flags score in range. */
  lemma {:induction false} HeapEntriesFresh(t: MemoryType, props: MemoryProperties, pref: PreferMemory, n: nat)
    requires props.WellFormed() && HeapSizesFit(props) && n <= |props.memoryTypes|
    ensures forall h :: h in HeapEntriesUpTo(t, props, pref, n) ==>
      h.index < n && Admitted(t, props.memoryTypes[h.index].propertyFlags) &&
      h.bestAvailableSize == h.worstAvailableSize == h.totalSize == props.HeapSizeOf(h.index) &&
      h.usersNumber == 0 && 1 <= h.flagsScore <= h.maxFlagsScore
  {
    if n > 0 {
      HeapEntriesFresh(t, props, pref, n - 1);
      FlagsWeightBounded(t, props.memoryTypes[n - 1].propertyFlags, pref);
    }
  }

  /** Position of the first record whose key is below `h`'s: where an unhinted `emplace` puts `h`. */
  function FirstBelow(s: seq<HeapProperties>, h: HeapProperties): (p: nat)
    ensures p <= |s|
    ensures forall k :: 0 <= k < p ==> Key(s[k]) >= Key(h)
    ensures p < |s| ==> Key(s[p]) < Key(h)
  {
    if s == [] then 0
    else if Key(h) > Key(s[0]) then 0
    else 1 + FirstBelow(s[1..], h)
  }

  /** Position of the first record at or after `from` whose key is not above `h`'s. */
  function FirstAtMostFrom(s: seq<HeapProperties>, from: nat, h: HeapProperties): (p: nat)
    requires from <= |s|
    ensures from <= p <= |s|
    ensures forall k :: from <= k < p ==> Key(s[k]) > Key(h)
    ensures p < |s| ==> Key(s[p]) <= Key(h)
    decreases |s| - from
  {
    if from == |s| then from
    else if Key(s[from]) <= Key(h) then from
    else FirstAtMostFrom(s, from + 1, h)
  }

  function InsertAt(s: seq<HeapProperties>, p: nat, h: HeapProperties): seq<HeapProperties>
    requires p <= |s|
  {
    s[..p] + [h] + s[p..]
  }

  /** `flat_multiset::emplace` without a hint: after every record of an equal key. */
  function InsertEqual(s: seq<HeapProperties>, h: HeapProperties): seq<HeapProperties> {
    InsertAt(s, FirstBelow(s, h), h)
  }

  lemma InsertAtIndex(s: seq<HeapProperties>, p: nat, h: HeapProperties)
    requires p <= |s|
    ensures |InsertAt(s, p, h)| == |s| + 1
    ensures forall k :: 0 <= k < p ==> InsertAt(s, p, h)[k] == s[k]
    ensures InsertAt(s, p, h)[p] == h
    ensures forall k :: p < k <= |s| ==> InsertAt(s, p, h)[k] == s[k - 1]
    ensures multiset(InsertAt(s, p, h)) == multiset(s) + multiset{h}
  {
    assert s == s[..p] + s[p..];
  }

  lemma InsertAtSorted(s: seq<HeapProperties>, p: nat, h: HeapProperties)
    requires SortedDesc(s) && p <= |s|
    requires p > 0 ==> Key(s[p - 1]) >= Key(h)
    requires p < |s| ==> Key(s[p]) <= Key(h)
    ensures SortedDesc(InsertAt(s, p, h))
    ensures multiset(InsertAt(s, p, h)) == multiset(s) + multiset{h}
    ensures |InsertAt(s, p, h)| == |s| + 1
  {
    var r := InsertAt(s, p, h);
    InsertAtIndex(s, p, h);
    forall i, j | 0 <= i < j < |r| ensures Key(r[i]) >= Key(r[j]) {
      var ki := if i < p then Key(s[i]) else if i == p then Key(h) else Key(s[i - 1]);
      var kj := if j < p then Key(s[j]) else if j == p then Key(h) else Key(s[j - 1]);
      assert Key(r[i]) == ki && Key(r[j]) == kj;
      if i < p && j > p {
        assert Key(s[i]) >= Key(s[p - 1]);
      }
    }
  }

  /** Unhinted insertion keeps the set ordered and adds exactly one record. */
  lemma InsertEqualPreserves(s: seq<HeapProperties>, h: HeapProperties)
    requires SortedDesc(s)
    ensures SortedDesc(InsertEqual(s, h))
    ensures multiset(InsertEqual(s, h)) == multiset(s) + multiset{h}
  {
    InsertAtSorted(s, FirstBelow(s, h), h);
  }

  predicate IndicesBelow(s: seq<HeapProperties>, n: nat) {
    forall k :: 0 <= k < |s| ==> s[k].index < n
  }

  /** A record with a larger index than all present lands after every record of an equal key. */
  lemma InsertEqualStable(s: seq<HeapProperties>, h: HeapProperties)
    requires SortedDesc(s) && StableByIndex(s) && IndicesBelow(s, h.index)
    ensures StableByIndex(InsertEqual(s, h))
    ensures IndicesBelow(InsertEqual(s, h), h.index + 1)
  {
    var p := FirstBelow(s, h);
    var r := InsertEqual(s, h);
    InsertAtIndex(s, p, h);
    forall i, j | 0 <= i < j < |r| && Key(r[i]) == Key(r[j]) ensures r[i].index < r[j].index {
      if j < p {
        assert r[i] == s[i] && r[j] == s[j];
      } else if j == p {
        assert r[i] == s[i];
      } else if i > p {
        assert r[i] == s[i - 1] && r[j] == s[j - 1];
      } else if i < p {
        assert r[i] == s[i] && r[j] == s[j - 1];
      }
    }
  }

  /** The loop invariant of `make_heap_set` after the first `n` memory types. */
  predicate HeapSetBuiltUpTo(t: MemoryType, props: MemoryProperties, pref: PreferMemory, n: nat, heaps: seq<HeapProperties>)
    requires props.WellFormed() && HeapSizesFit(props) && n <= |props.memoryTypes|
  {
    SortedDesc(heaps) && StableByIndex(heaps) && IndicesBelow(heaps, n) &&
    multiset(heaps) == multiset(HeapEntriesUpTo(t, props, pref, n))
  }

  lemma HeapSetStep(t: MemoryType, props: MemoryProperties, pref: PreferMemory, n: nat, heaps: seq<HeapProperties>)
    requires props.WellFormed() && HeapSizesFit(props) && n < |props.memoryTypes|
    requires HeapSetBuiltUpTo(t, props, pref, n, heaps)
    ensures Admitted(t, props.memoryTypes[n].propertyFlags) ==>
      HeapSetBuiltUpTo(t, props, pref, n + 1, InsertEqual(heaps, HeapEntry(t, props, pref, n)))
    ensures !Admitted(t, props.memoryTypes[n].propertyFlags) ==> HeapSetBuiltUpTo(t, props, pref, n + 1, heaps)
  {
    var entry := HeapEntry(t, props, pref, n);
    if Admitted(t, props.memoryTypes[n].propertyFlags) {
      assert HeapEntriesUpTo(t, props, pref, n + 1) == HeapEntriesUpTo(t, props, pref, n) + [entry];
      InsertEqualPreserves(heaps, entry);
      InsertEqualStable(heaps, entry);
    } else {
      assert HeapEntriesUpTo(t, props, pref, n + 1) == HeapEntriesUpTo(t, props, pref, n);
    }
  }

  /** One iteration of `make_heap_set`: the record of memory type `i`, emplaced when the type is admitted. */
  method EmplaceHeap(t: MemoryType, props: MemoryProperties, pref: PreferMemory, i: nat, heaps: seq<HeapProperties>)
    returns (next: seq<HeapProperties>)
    requires props.WellFormed() && HeapSizesFit(props) && i < |props.memoryTypes|
    requires HeapSetBuiltUpTo(t, props, pref, i, heaps)
    ensures HeapSetBuiltUpTo(t, props, pref, i + 1, next)
  {
    var typeFlags := props.memoryTypes[i].propertyFlags;
    var size := props.heapSizes[props.memoryTypes[i].heapIndex];
    var flagsScore := FlagsWeight(t, typeFlags, pref);
    var maxFlagsScore := MaxFlagsWeight(t, pref);
    HeapSetStep(t, props, pref, i, heaps);
    next := heaps;
    if Admitted(t, typeFlags) {
      next := InsertEqual(heaps, HeapProperties(i, flagsScore, maxFlagsScore, size, size, size, 0));
    }
  }

  /**
   * `make_heap_set`: one record per admitted memory type, emplaced in type
   * order; no admitted type at all is an error.
   */
  method MakeHeapSet(t: MemoryType, props: MemoryProperties, pref: PreferMemory) returns (r: Result<seq<HeapProperties>>)
    requires props.WellFormed() && HeapSizesFit(props)
    ensures r.Ok? <==> |HeapEntries(t, props, pref)| > 0
    ensures r.Err? ==> r.error == NoAcceptableMemory
    ensures r.Ok? ==> SortedDesc(r.value) && StableByIndex(r.value)
    ensures r.Ok? ==> multiset(r.value) == multiset(HeapEntries(t, props, pref))
  {
    var heaps: seq<HeapProperties> := [];
    var i := 0;
    while i < |props.memoryTypes|
      invariant i <= |props.memoryTypes|
      invariant HeapSetBuiltUpTo(t, props, pref, i, heaps)
    {
      heaps := EmplaceHeap(t, props, pref, i, heaps);
      i := i + 1;
    }
    assert |multiset(heaps)| == |heaps|;
    if |heaps| == 0 {
      return Err(NoAcceptableMemory);
    }
    return Ok(heaps);
  }

  /* ------------------------------------------------------ using the sets */

  /** The weighted score `estimate_suitability` computes in floating point, left abstract. */
  type Weigher = (HeapProperties, nat) -> real

  /** `size_t` subtraction. */
  function WrapSub(a: SizeT, b: SizeT): SizeT {
    (a - b) % SizeLimit
  }

  /**
   * `estimate_suitability`: 0 when the request does not fit the best
   * estimate or the type is not allowed by the mask; 1 when the best and
   * worst estimates agree; otherwise the weighted score.
   */
  function Suitability(h: HeapProperties, size: SizeT, memoryTypeBits: nat, weigh: Weigher): (score: real)
    ensures score != 0.0 ==> size <= h.bestAvailableSize && BitSet(memoryTypeBits, h.index)
    ensures size <= h.bestAvailableSize && BitSet(memoryTypeBits, h.index) && h.bestAvailableSize == h.worstAvailableSize
      ==> score == 1.0
  {
    if size > h.bestAvailableSize || !BitSet(memoryTypeBits, h.index) then 0.0
    else if WrapSub(h.bestAvailableSize, h.worstAvailableSize) == 0 then 1.0
    else weigh(h, size)
  }

  /**
   * `std::ranges::upper_bound` with `std::greater` over the best available
   * sizes, as libstdc++ runs it: halve the range, keep the left half when the
   * request exceeds the middle record's best size, else the right half.
   */
  function UpperBoundFrom(s: seq<HeapProperties>, size: SizeT, first: nat, len: nat): (r: nat)
    requires first + len <= |s|
    ensures first <= r <= first + len
    decreases len
  {
    if len == 0 then first
    else
      var half := len / 2;
      var middle := first + half;
      if size > s[middle].bestAvailableSize then UpperBoundFrom(s, size, first, half)
      else UpperBoundFrom(s, size, middle + 1, len - half - 1)
  }

  function UpperBound(s: seq<HeapProperties>, size: SizeT): (r: nat)
    ensures r <= |s|
  {
    UpperBoundFrom(s, size, 0, |s|)
  }

  /** On a partitioned range, everything before the search's cut fits when everything before `first` does. */
  lemma {:induction false} UpperBoundFromKeepsFits(s: seq<HeapProperties>, size: SizeT, first: nat, len: nat)
    requires first + len <= |s| && PartitionedByFit(s, size)
    requires forall k :: 0 <= k < first ==> s[k].bestAvailableSize >= size
    ensures forall k :: 0 <= k < UpperBoundFrom(s, size, first, len) ==> s[k].bestAvailableSize >= size
    decreases len
  {
    if len > 0 {
      var half := len / 2;
      var middle := first + half;
      if size > s[middle].bestAvailableSize {
        UpperBoundFromKeepsFits(s, size, first, half);
      } else {
        UpperBoundFromKeepsFits(s, size, middle + 1, len - half - 1);
      }
    }
  }

  /** On a partitioned range, nothing from the search's cut on fits when nothing after the range does. */
  lemma {:induction false} UpperBoundFromKeepsMisses(s: seq<HeapProperties>, size: SizeT, first: nat, len: nat)
    requires first + len <= |s| && PartitionedByFit(s, size)
    requires forall k :: first + len <= k < |s| ==> s[k].bestAvailableSize < size
    ensures forall k :: UpperBoundFrom(s, size, first, len) <= k < |s| ==> s[k].bestAvailableSize < size
    decreases len
  {
    if len > 0 {
      var half := len / 2;
      var middle := first + half;
      if size > s[middle].bestAvailableSize {
        UpperBoundFromKeepsMisses(s, size, first, half);
      } else {
        UpperBoundFromKeepsMisses(s, size, middle + 1, len - half - 1);
      }
    }
  }

  /** Every record that can hold the request comes before every record that cannot. */
  predicate PartitionedByFit(s: seq<HeapProperties>, size: SizeT) {
    forall i, j :: 0 <= i < j < |s| && s[j].bestAvailableSize >= size ==> s[i].bestAvailableSize >= size
  }

  /** When the sizes happen to be partitioned, the cut is exactly the number of records that fit. */
  lemma UpperBoundCountsFits(s: seq<HeapProperties>, size: SizeT)
    requires PartitionedByFit(s, size)
    ensures forall k :: 0 <= k < UpperBound(s, size) ==> s[k].bestAvailableSize >= size
    ensures forall k :: UpperBound(s, size) <= k < |s| ==> s[k].bestAvailableSize < size
  {
    UpperBoundFromKeepsFits(s, size, 0, |s|);
    UpperBoundFromKeepsMisses(s, size, 0, |s|);
  }

  /**
   * The sets are ordered by key, not by best size, so the binary search can
   * stop before a record that fits: here the third record holds 50 bytes,
   * enough for a request of 10, but the search cuts after the first record.
   */
  lemma UpperBoundCanSkipFittingHeap()
    ensures var s := [HeapProperties(0, 1, 1, 100, 100, 100, 0),
                      HeapProperties(1, 90, 90, 100, 1, 1, 0),
                      HeapProperties(2, 1, 1, 100, 50, 50, 0)];
            SortedDesc(s) && UpperBound(s, 10) == 1 && s[2].bestAvailableSize >= 10
  {
    var s := [HeapProperties(0, 1, 1, 100, 100, 100, 0),
              HeapProperties(1, 90, 90, 100, 1, 1, 0),
              HeapProperties(2, 1, 1, 100, 50, 50, 0)];
    assert UpperBoundFrom(s, 10, 1, 0) == 1;
    assert UpperBoundFrom(s, 10, 0, 1) == 1;
    assert UpperBoundFrom(s, 10, 0, 3) == 1;
  }

  /**
   * The reference choice among the first `n` records: the smallest positive
   * score, the earliest record among equal scores.
   */
  function SelectionUpTo(s: seq<HeapProperties>, size: SizeT, memoryTypeBits: nat, weigh: Weigher, n: nat): (r: Option<nat>)
    requires n <= |s|
    ensures r.Some? ==> r.value < n
  {
    if n == 0 then None
    else
      var previous := SelectionUpTo(s, size, memoryTypeBits, weigh, n - 1);
      var score := Suitability(s[n - 1], size, memoryTypeBits, weigh);
      if score <= 0.0 then previous
      else if previous.None? then Some(n - 1)
      else if score < Suitability(s[previous.value], size, memoryTypeBits, weigh) then Some(n - 1)
      else previous
  }

  /** The record `find_suitable_memory` returns: the choice among the records before the binary-search cut. */
  function Selection(s: seq<HeapProperties>, size: SizeT, memoryTypeBits: nat, weigh: Weigher): (r: Option<nat>)
    ensures r.Some? ==> r.value < |s|
  {
    SelectionUpTo(s, size, memoryTypeBits, weigh, UpperBound(s, size))
  }

  /** `k` has the least positive score among the first `n` records, and no earlier record ties with it. */
  predicate LeastPositive(s: seq<HeapProperties>, size: SizeT, memoryTypeBits: nat, weigh: Weigher, n: nat, k: nat)
    requires n <= |s|
  {
    k < n &&
    Suitability(s[k], size, memoryTypeBits, weigh) > 0.0 &&
    forall j :: 0 <= j < n && Suitability(s[j], size, memoryTypeBits, weigh) > 0.0 ==>
      Suitability(s[k], size, memoryTypeBits, weigh) < Suitability(s[j], size, memoryTypeBits, weigh) ||
      (Suitability(s[k], size, memoryTypeBits, weigh) == Suitability(s[j], size, memoryTypeBits, weigh) && k <= j)
  }

  lemma {:induction false} SelectionUpToIsLeast(s: seq<HeapProperties>, size: SizeT, memoryTypeBits: nat, weigh: Weigher, n: nat)
    requires n <= |s|
    ensures var r := SelectionUpTo(s, size, memoryTypeBits, weigh, n);
      (r.None? <==> forall j :: 0 <= j < n ==> Suitability(s[j], size, memoryTypeBits, weigh) <= 0.0) &&
      (r.Some? ==> LeastPositive(s, size, memoryTypeBits, weigh, n, r.value))
  {
    if n > 0 {
      SelectionUpToIsLeast(s, size, memoryTypeBits, weigh, n - 1);
    }
  }

  /**
   * What a request is handed: a record that holds at least the requested
   * size, whose memory type the request allows, with the least positive
   * score before the cut; nothing only when no record before the cut scores.
   */
  lemma SelectionIsLeastFitting(s: seq<HeapProperties>, size: SizeT, memoryTypeBits: nat, weigh: Weigher)
    ensures var r := Selection(s, size, memoryTypeBits, weigh);
      (r.None? <==> forall j :: 0 <= j < UpperBound(s, size) ==> Suitability(s[j], size, memoryTypeBits, weigh) <= 0.0) &&
      (r.Some? ==> LeastPositive(s, size, memoryTypeBits, weigh, UpperBound(s, size), r.value) &&
                   s[r.value].bestAvailableSize >= size && BitSet(memoryTypeBits, s[r.value].index))
  {
    SelectionUpToIsLeast(s, size, memoryTypeBits, weigh, UpperBound(s, size));
  }

  /** On a set where no record was used yet, the choice is the first record before the cut that fits and is allowed. */
  lemma {:induction false} FreshSelectionIsFirstFit(s: seq<HeapProperties>, size: SizeT, memoryTypeBits: nat, weigh: Weigher, n: nat)
    requires n <= |s|
    requires forall k :: 0 <= k < n ==> s[k].bestAvailableSize == s[k].worstAvailableSize
    ensures var r := SelectionUpTo(s, size, memoryTypeBits, weigh, n);
      (r.None? <==> forall j :: 0 <= j < n ==> !(size <= s[j].bestAvailableSize && BitSet(memoryTypeBits, s[j].index))) &&
      (r.Some? ==> size <= s[r.value].bestAvailableSize && BitSet(memoryTypeBits, s[r.value].index) &&
                   forall j :: 0 <= j < r.value ==> !(size <= s[j].bestAvailableSize && BitSet(memoryTypeBits, s[j].index)))
  {
    if n > 0 {
      FreshSelectionIsFirstFit(s, size, memoryTypeBits, weigh, n - 1);
    }
  }

  /**
   * The multimap from score to record, ascending: `emplace` puts an entry
   * after every entry of an equal score.
   */
  function ScoreUpperBound(m: seq<(real, nat)>, score: real): (p: nat)
    ensures p <= |m|
    ensures p == 0 <==> m == [] || m[0].0 > score
  {
    if m == [] then 0
    else if m[0].0 > score then 0
    else 1 + ScoreUpperBound(m[1..], score)
  }

  /** `find_suitable_memory`: collect the positive scores before the cut in a multimap and take its first entry. */
  method FindSuitableMemory(heaps: seq<HeapProperties>, size: SizeT, memoryTypeBits: nat, weigh: Weigher) returns (r: Option<nat>)
    ensures r == Selection(heaps, size, memoryTypeBits, weigh)
  {
    var firstNonSuitable := UpperBound(heaps, size);
    var suitableHeaps: seq<(real, nat)> := [];
    var i := 0;
    while i < firstNonSuitable
      invariant i <= firstNonSuitable
      invariant suitableHeaps == [] <==> SelectionUpTo(heaps, size, memoryTypeBits, weigh, i).None?
      invariant suitableHeaps != [] ==>
        var k := SelectionUpTo(heaps, size, memoryTypeBits, weigh, i).value;
        suitableHeaps[0] == (Suitability(heaps[k], size, memoryTypeBits, weigh), k)
    {
      var suitability := Suitability(heaps[i], size, memoryTypeBits, weigh);
      if suitability > 0.0 {
        var p := ScoreUpperBound(suitableHeaps, suitability);
        suitableHeaps := suitableHeaps[..p] + [(suitability, i)] + suitableHeaps[p..];
      }
      i := i + 1;
    }
    if suitableHeaps == [] {
      r := None;
    } else {
      r := Some(suitableHeaps[0].1);
    }
  }

  /** Which set a request is served from, and the position of the record in it. */
  datatype Chosen = Chosen(fromFast: bool, position: nat)

  /** The reference of `choose_memory_heap`: the preferred set first, the other set only when the preferred one has no choice. */
  function Choice(fast: seq<HeapProperties>, large: seq<HeapProperties>, size: SizeT, memoryTypeBits: nat,
                  pref: PreferMemory, weigh: Weigher): Option<Chosen>
  {
    var preferFast := pref == FastAccess;
    var preferred := if preferFast then fast else large;
    var fallback := if preferFast then large else fast;
    match Selection(preferred, size, memoryTypeBits, weigh)
    case Some(k) => Some(Chosen(preferFast, k))
    case None =>
      match Selection(fallback, size, memoryTypeBits, weigh)
      case Some(k) => Some(Chosen(!preferFast, k))
      case None => None
  }

  /**
   * A request is served from the set its preference names whenever that set
   * has a record for it; the record chosen always fits and is allowed; the
   * request fails only when neither set has one.
   */
  lemma ChoiceFitsPreferredFirst(fast: seq<HeapProperties>, large: seq<HeapProperties>, size: SizeT,
                                 memoryTypeBits: nat, pref: PreferMemory, weigh: Weigher)
    ensures var c := Choice(fast, large, size, memoryTypeBits, pref, weigh);
      var preferred := if pref == FastAccess then fast else large;
      var fallback := if pref == FastAccess then large else fast;
      (c.None? <==> Selection(preferred, size, memoryTypeBits, weigh).None? && Selection(fallback, size, memoryTypeBits, weigh).None?) &&
      (c.Some? ==>
        var s := if c.value.fromFast then fast else large;
        c.value.position < |s| &&
        s[c.value.position].bestAvailableSize >= size && BitSet(memoryTypeBits, s[c.value.position].index) &&
        (c.value.fromFast != (pref == FastAccess) ==> Selection(preferred, size, memoryTypeBits, weigh).None?))
  {
    SelectionIsLeastFitting(fast, size, memoryTypeBits, weigh);
    SelectionIsLeastFitting(large, size, memoryTypeBits, weigh);
  }

  /* ------------------------------------------------------ updating a record */

  /**
   * `make_properties_after_emplace`, in `size_t` arithmetic: the best
   * estimate loses the request, the worst estimate loses it and is halved,
   * one more user.
   */
  function AfterEmplace(h: HeapProperties, size: SizeT): (r: HeapProperties)
    ensures r.index == h.index && r.flagsScore == h.flagsScore && r.maxFlagsScore == h.maxFlagsScore && r.totalSize == h.totalSize
    ensures size <= h.bestAvailableSize ==> r.bestAvailableSize + size == h.bestAvailableSize
    ensures size <= h.worstAvailableSize ==> r.worstAvailableSize == (h.worstAvailableSize - size) / 2
    ensures h.usersNumber + 1 < SizeLimit ==> r.usersNumber == h.usersNumber + 1
  {
    HeapProperties(
      h.index, h.flagsScore, h.maxFlagsScore, h.totalSize,
      WrapSub(h.bestAvailableSize, size),
      WrapSub(h.worstAvailableSize, size) / 2,
      (h.usersNumber + 1) % SizeLimit)
  }

  /** While a request fits the worst estimate, the worst estimate stays at or below the best one. */
  lemma WorstStaysBelowBest(h: HeapProperties, size: SizeT)
    requires h.worstAvailableSize <= h.bestAvailableSize && size <= h.worstAvailableSize
    ensures AfterEmplace(h, size).worstAvailableSize <= AfterEmplace(h, size).bestAvailableSize
  {
  }

  /**
   * A request that fits the best estimate but exceeds the worst one makes
   * the `size_t` subtraction wrap: the worst estimate jumps near 2^63, far
   * above the best one.
   */
  lemma WorstEstimateWraps()
    ensures var h := AfterEmplace(HeapProperties(0, 1, 1, 100, 100, 20, 1), 30);
      h.bestAvailableSize == 70 && h.worstAvailableSize == (SizeLimit - 10) / 2
  {
  }

  function Remove(s: seq<HeapProperties>, k: nat): seq<HeapProperties>
    requires k < |s|
  {
    s[..k] + s[k + 1..]
  }

  /**
   * `flat_multiset::emplace_hint`, as boost implements it: insert at the hint
   * when that keeps the order; otherwise search before the hint (upper bound)
   * or after it (lower bound).
   */
  function EmplaceHint(s: seq<HeapProperties>, hint: nat, h: HeapProperties): seq<HeapProperties>
    requires hint <= |s|
  {
    if hint == |s| || !(Key(s[hint]) > Key(h)) then
      if hint == 0 || !(Key(h) > Key(s[hint - 1])) then InsertAt(s, hint, h)
      else InsertAt(s, FirstBelow(s[..hint], h), h)
    else InsertAt(s, FirstAtMostFrom(s, hint, h), h)
  }

  /** `erase` then `emplace_hint` at the position `erase` returned. */
  function Reinsert(s: seq<HeapProperties>, k: nat, h: HeapProperties): seq<HeapProperties>
    requires k < |s|
  {
    EmplaceHint(Remove(s, k), k, h)
  }

  lemma RemoveSorted(s: seq<HeapProperties>, k: nat)
    requires SortedDesc(s) && k < |s|
    ensures SortedDesc(Remove(s, k))
    ensures multiset(Remove(s, k)) == multiset(s) - multiset{s[k]}
  {
    var r := Remove(s, k);
    assert s == s[..k] + [s[k]] + s[k + 1..];
    forall i, j | 0 <= i < j < |r| ensures Key(r[i]) >= Key(r[j]) {
      var i' := if i < k then i else i + 1;
      var j' := if j < k then j else j + 1;
      assert r[i] == s[i'] && r[j] == s[j'];
    }
  }

  /** The hinted insertion keeps the order and adds exactly the one record, wherever the hint points. */
  lemma EmplaceHintPreserves(s: seq<HeapProperties>, hint: nat, h: HeapProperties)
    requires SortedDesc(s) && hint <= |s|
    ensures SortedDesc(EmplaceHint(s, hint, h))
    ensures multiset(EmplaceHint(s, hint, h)) == multiset(s) + multiset{h}
  {
    if hint == |s| || !(Key(s[hint]) > Key(h)) {
      if hint == 0 || !(Key(h) > Key(s[hint - 1])) {
        InsertAtSorted(s, hint, h);
      } else {
        var p := FirstBelow(s[..hint], h);
        assert p < hint;
        InsertAtSorted(s, p, h);
      }
    } else {
      var p := FirstAtMostFrom(s, hint, h);
      assert p > hint;
      InsertAtSorted(s, p, h);
    }
  }

  /** Serving a request keeps a set ordered and of the same size, and swaps exactly the one record. */
  lemma ReinsertPreserves(s: seq<HeapProperties>, k: nat, h: HeapProperties)
    requires SortedDesc(s) && k < |s|
    ensures SortedDesc(Reinsert(s, k, h))
    ensures |Reinsert(s, k, h)| == |s|
    ensures multiset(Reinsert(s, k, h)) == multiset(s) - multiset{s[k]} + multiset{h}
  {
    RemoveSorted(s, k);
    EmplaceHintPreserves(Remove(s, k), k, h);
    assert |multiset(Reinsert(s, k, h))| == |s|;
  }

  /* ------------------------------------------------------ the selector */

  /** Records keep their best estimate within the heap and a positive flags score. */
  predicate HeapSetValid(s: seq<HeapProperties>) {
    |s| > 0 && SortedDesc(s) &&
    forall h :: h in s ==> h.bestAvailableSize <= h.totalSize && h.flagsScore >= 1
  }

  class OptimalMemorySelector {
    const memoryType: MemoryType
    var fastHeaps: seq<HeapProperties>
    var largeHeaps: seq<HeapProperties>

    ghost predicate Valid()
      reads this
    {
      HeapSetValid(fastHeaps) && HeapSetValid(largeHeaps)
    }

    constructor FromSets(t: MemoryType, fast: seq<HeapProperties>, large: seq<HeapProperties>)
      requires HeapSetValid(fast) && HeapSetValid(large)
      ensures Valid() && memoryType == t && fastHeaps == fast && largeHeaps == large
    {
      memoryType := t;
      fastHeaps := fast;
      largeHeaps := large;
    }

    /** The constructor: both sets built from the device's memory properties. */
    static method Make(t: MemoryType, props: MemoryProperties) returns (r: Result<OptimalMemorySelector>)
      requires props.WellFormed() && HeapSizesFit(props)
      ensures r.Err? <==> |HeapEntries(t, props, FastAccess)| == 0
      ensures r.Err? ==> r.error == NoAcceptableMemory
      ensures r.Ok? ==> fresh(r.value) && r.value.Valid() && r.value.memoryType == t
      ensures r.Ok? ==> multiset(r.value.fastHeaps) == multiset(HeapEntries(t, props, FastAccess))
      ensures r.Ok? ==> multiset(r.value.largeHeaps) == multiset(HeapEntries(t, props, LargeStorage))
    {
      var fast := MakeHeapSet(t, props, FastAccess);
      if fast.Err? {
        return Err(fast.error);
      }
      var large := MakeHeapSet(t, props, LargeStorage);
      AdmittedSameForBothPreferences(t, props, |props.memoryTypes|);
      BuiltSetValid(t, props, FastAccess, fast.value);
      BuiltSetValid(t, props, LargeStorage, large.value);
      var selector := new OptimalMemorySelector.FromSets(t, fast.value, large.value);
      return Ok(selector);
    }

    /** `choose_memory_heap`. */
    method ChooseMemoryHeap(size: SizeT, memoryTypeBits: nat, pref: PreferMemory, weigh: Weigher) returns (r: Result<Chosen>)
      ensures r.Err? ==> r.error == NoSuitableHeaps
      ensures r.Ok? <==> Choice(fastHeaps, largeHeaps, size, memoryTypeBits, pref, weigh).Some?
      ensures r.Ok? ==> r.value == Choice(fastHeaps, largeHeaps, size, memoryTypeBits, pref, weigh).value
    {
      var preferFast := pref == FastAccess;
      var preferred := if preferFast then fastHeaps else largeHeaps;
      var fallback := if preferFast then largeHeaps else fastHeaps;
      var suitable := FindSuitableMemory(preferred, size, memoryTypeBits, weigh);
      if suitable.Some? {
        return Ok(Chosen(preferFast, suitable.value));
      }
      suitable := FindSuitableMemory(fallback, size, memoryTypeBits, weigh);
      if suitable.Some? {
        return Ok(Chosen(!preferFast, suitable.value));
      }
      return Err(NoSuitableHeaps);
    }

    /**
     * `request_memory_heap`: choose a record, hand out its memory type index,
     * and put the updated record back with the erase position as hint.
     */
    method RequestMemoryHeap(size: SizeT, memoryTypeBits: nat, pref: PreferMemory, weigh: Weigher) returns (r: Result<nat>)
      requires Valid()
      modifies this
      ensures Valid()
      ensures match Choice(old(fastHeaps), old(largeHeaps), size, memoryTypeBits, pref, weigh)
        case None =>
          r == Err(NoSuitableHeaps) && fastHeaps == old(fastHeaps) && largeHeaps == old(largeHeaps)
        case Some(c) =>
          var before := if c.fromFast then old(fastHeaps) else old(largeHeaps);
          var after := if c.fromFast then fastHeaps else largeHeaps;
          c.position < |before| &&
          r == Ok(before[c.position].index) &&
          after == Reinsert(before, c.position, AfterEmplace(before[c.position], size)) &&
          (if c.fromFast then largeHeaps == old(largeHeaps) else fastHeaps == old(fastHeaps))
    {
      ChoiceFitsPreferredFirst(fastHeaps, largeHeaps, size, memoryTypeBits, pref, weigh);
      var chosen := ChooseMemoryHeap(size, memoryTypeBits, pref, weigh);
      if chosen.Err? {
        return Err(chosen.error);
      }
      var heaps := if chosen.value.fromFast then fastHeaps else largeHeaps;
      var k := chosen.value.position;
      var oldHeap := heaps[k];
      var newHeap := AfterEmplace(oldHeap, size);
      ReinsertPreserves(heaps, k, newHeap);
      var updated := Reinsert(heaps, k, newHeap);
      forall h | h in updated ensures h.bestAvailableSize <= h.totalSize && h.flagsScore >= 1 {
        assert h in multiset(updated);
        if h != newHeap {
          assert h in multiset(heaps);
        }
      }
      if chosen.value.fromFast {
        fastHeaps := updated;
      } else {
        largeHeaps := updated;
      }
      return Ok(oldHeap.index);
    }
  }

  /** A set built by `make_heap_set` meets the selector's invariant. */
  lemma BuiltSetValid(t: MemoryType, props: MemoryProperties, pref: PreferMemory, s: seq<HeapProperties>)
    requires props.WellFormed() && HeapSizesFit(props)
    requires |s| > 0 && SortedDesc(s) && multiset(s) == multiset(HeapEntries(t, props, pref))
    ensures HeapSetValid(s)
  {
    HeapEntriesFresh(t, props, pref, |props.memoryTypes|);
    forall h | h in s ensures h.bestAvailableSize <= h.totalSize && h.flagsScore >= 1 {
      assert h in multiset(HeapEntries(t, props, pref));
    }
  }

  /** Whether a memory type is admitted does not depend on the preference. */
  lemma {:induction false} AdmittedSameForBothPreferences(t: MemoryType, props: MemoryProperties, n: nat)
    requires props.WellFormed() && HeapSizesFit(props) && n <= |props.memoryTypes|
    ensures |HeapEntriesUpTo(t, props, FastAccess, n)| == |HeapEntriesUpTo(t, props, LargeStorage, n)|
  {
    if n > 0 {
      AdmittedSameForBothPreferences(t, props, n - 1);
    }
  }

  /** The unused `rate_memory_amount` of this header: 16 points per rounded square root of whole mebibytes. */
  function RateMemoryAmount(bytes: SizeT): (r: nat)
    ensures r % 16 == 0
    ensures IsRoundedSqrt(bytes / 0x10_0000, r / 16)
  {
    16 * RoundSqrt(bytes / 0x10_0000)
  }
}
