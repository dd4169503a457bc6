/**
 * `Core`: choosing the physical device and its queues. Each device is
 * filtered (surface, extensions, features), its queue families are assigned
 * to the graphics, transfer and present roles, it is scored by type and by
 * memory, and the best-scored device wins; `make_device` then asks for one
 * queue per role, grouped by family.
 */
module Core {
  import opened Outcomes
  import opened Vulkan

  /** `Detail::FamilyType`. */
  datatype FamilyType = GraphicsFamily | TransferFamily | PresentFamily

  /** `Detail::QueueIndices`: one number per role. */
  datatype QueueIndices = QueueIndices(graphics: nat, transfer: nat, present: nat)

  /** `Detail::FamilyAndQueueIndices`: the family of each role and the queue taken in it. */
  datatype FamilyAndQueueIndices = FamilyAndQueueIndices(families: QueueIndices, queues: QueueIndices)

  datatype PhysicalDeviceType = OtherGpu | IntegratedGpu | DiscreteGpu | VirtualGpu | CpuDevice

  /** The parts of `vk::QueueFamilyProperties` the selection reads. */
  datatype QueueFamilyProperties = QueueFamilyProperties(graphics: bool, transfer: bool, queueCount: nat)

  /**
   * What the selection asks of one physical device: its type, memory, extension
   * names, the two features, the surface's formats and present modes, its queue
   * families and, per family, whether it can present to the surface.
   */
  datatype PhysicalDevice = PhysicalDevice(
    deviceType: PhysicalDeviceType,
    memory: MemoryProperties,
    extensions: seq<string>,
    sampleRateShading: bool,
    samplerAnisotropy: bool,
    surfaceFormats: seq<SurfaceFormat>,
    presentModes: seq<PresentMode>,
    queueFamilies: seq<QueueFamilyProperties>,
    surfaceSupport: seq<bool>)

  /** `required_extensions`: only the swapchain extension. */
  const RequiredExtensions: seq<string> := ["VK_KHR_swapchain"]

  // ---------------------------------------------------------------------------
  // The filters.

  /** `supportsSurface`: at least one surface format and one present mode. */
  predicate SupportsSurface(d: PhysicalDevice) {
    |d.surfaceFormats| > 0 && |d.presentModes| > 0
  }

  /** Every required extension is among the device's. */
  predicate HasExtensions(required: seq<string>, available: seq<string>) {
    forall e :: e in required ==> e in available
  }

  /**
   * `supportsExtensions`: a map from each required name to `false`, set to
   * `true` for every device extension found in it, then all of it must be true.
   */
  method SupportsExtensions(required: seq<string>, available: seq<string>) returns (r: bool)
    ensures r <==> HasExtensions(required, available)
  {
    var supports: map<string, bool> := map[];
    var i := 0;
    while i < |required|
      invariant 0 <= i <= |required|
      invariant forall e :: e in supports <==> e in required[..i]
      invariant forall e :: e in supports ==> !supports[e]
    {
      if required[i] !in supports {
        supports := supports[required[i] := false];
      }
      i := i + 1;
    }
    assert required[..i] == required;
    var j := 0;
    while j < |available|
      invariant 0 <= j <= |available|
      invariant forall e :: e in supports <==> e in required
      invariant forall e :: e in supports ==> (supports[e] <==> e in available[..j])
    {
      if available[j] in supports {
        supports := supports[available[j] := true];
      }
      assert available[..j + 1] == available[..j] + [available[j]];
      j := j + 1;
    }
    assert available[..j] == available;
    r := forall e :: e in supports ==> supports[e];
  }

  /** `supportsFeatures`: sample-rate shading and sampler anisotropy. */
  predicate SupportsFeatures(d: PhysicalDevice) {
    d.sampleRateShading && d.samplerAnisotropy
  }

  // ---------------------------------------------------------------------------
  // The score.

  /** `rateType`: the score of the device type. */
  function RateType(t: PhysicalDeviceType): (r: nat)
    ensures r >= 1000
  {
    match t
    case DiscreteGpu => 100000
    case VirtualGpu => 30000
    case IntegratedGpu => 10000
    case CpuDevice => 5000
    case OtherGpu => 1000
  }

  /** The type ranking: discrete, virtual, integrated, CPU, anything else. */
  lemma RateTypeRanking()
    ensures RateType(DiscreteGpu) > RateType(VirtualGpu) > RateType(IntegratedGpu) > RateType(CpuDevice) > RateType(OtherGpu)
    ensures forall t :: t != DiscreteGpu ==> RateType(t) < RateType(DiscreteGpu)
  {
  }

  const RatingBlockSize: nat := 1024 * 1024
  const LocalMemoryWeight: nat := 16
  const VisibleMemoryWeight: nat := 4

  /**
   * The mebibytes memory type `i` is worth: its heap, weighted up when
   * device-local and when host-visible, each product a wrapping `size_t` one.
   */
  function Blocks(m: MemoryProperties, i: nat): nat
    requires m.WellFormed() && i < |m.memoryTypes|
  {
    var flags := m.memoryTypes[i].propertyFlags;
    var local := if flags.deviceLocal then (m.HeapSizeOf(i) * LocalMemoryWeight) % SizeLimit else m.HeapSizeOf(i);
    var visible := if flags.hostVisible then (local * VisibleMemoryWeight) % SizeLimit else local;
    visible / RatingBlockSize
  }

  /** A device-local, host-visible heap of 256 PiB wraps to a worth of 0 mebibytes. */
  lemma BlocksWrap()
    ensures var m := MemoryProperties([MemoryType(MemoryPropertyFlags(true, true, false), 0)], [0x400_0000_0000_0000]);
      m.WellFormed() && Blocks(m, 0) == 0
  {
  }

  function MaxNat(a: nat, b: nat): nat {
    if a < b then b else a
  }

  /** The largest `Blocks` among the first `n` memory types, 0 for none. */
  function MaxBlocks(m: MemoryProperties, n: nat): nat
    requires m.WellFormed() && n <= |m.memoryTypes|
  {
    if n == 0 then 0 else MaxNat(MaxBlocks(m, n - 1), Blocks(m, n - 1))
  }

  function MemoryScore(m: MemoryProperties): nat
    requires m.WellFormed()
  {
    MaxBlocks(m, |m.memoryTypes|)
  }

  /** The memory score is the best memory type's worth. */
  lemma {:induction false} MaxBlocksIsMaximum(m: MemoryProperties, n: nat)
    requires m.WellFormed() && n <= |m.memoryTypes|
    ensures forall i :: 0 <= i < n ==> Blocks(m, i) <= MaxBlocks(m, n)
    ensures n > 0 ==> exists i :: 0 <= i < n && MaxBlocks(m, n) == Blocks(m, i)
    ensures n == 0 ==> MaxBlocks(m, n) == 0
  {
    if n > 0 {
      MaxBlocksIsMaximum(m, n - 1);
      if n - 1 > 0 && MaxBlocks(m, n - 1) >= Blocks(m, n - 1) {
        var i :| 0 <= i < n - 1 && MaxBlocks(m, n - 1) == Blocks(m, i);
        assert MaxBlocks(m, n) == Blocks(m, i);
      } else {
        assert MaxBlocks(m, n) == Blocks(m, n - 1);
      }
    }
  }

  /** `rateMemory`: the running maximum over the memory types. */
  method RateMemory(m: MemoryProperties) returns (score: nat)
    requires m.WellFormed()
    ensures score == MemoryScore(m)
    ensures forall i :: 0 <= i < |m.memoryTypes| ==> Blocks(m, i) <= score
    ensures |m.memoryTypes| > 0 ==> exists i :: 0 <= i < |m.memoryTypes| && score == Blocks(m, i)
  {
    score := 0;
    var i := 0;
    while i < |m.memoryTypes|
      invariant 0 <= i <= |m.memoryTypes|
      invariant score == MaxBlocks(m, i)
    {
      var flags := m.memoryTypes[i].propertyFlags;
      var memory := m.heapSizes[m.memoryTypes[i].heapIndex];
      if flags.deviceLocal {
        memory := (memory * LocalMemoryWeight) % SizeLimit;
      }
      if flags.hostVisible {
        memory := (memory * VisibleMemoryWeight) % SizeLimit;
      }
      var blocks := memory / RatingBlockSize;
      score := MaxNat(score, blocks);
      i := i + 1;
    }
    MaxBlocksIsMaximum(m, |m.memoryTypes|);
  }

  /** The whole score of a device. */
  function Score(d: PhysicalDevice): nat
    requires d.memory.WellFormed()
  {
    RateType(d.deviceType) + MemoryScore(d.memory)
  }

  // ---------------------------------------------------------------------------
  // The queue assignment.

  /** Whether family `i` can serve role `role`. */
  predicate Serves(d: PhysicalDevice, role: FamilyType, i: nat)
    requires i < |d.queueFamilies|
  {
    match role
    case GraphicsFamily => d.queueFamilies[i].graphics
    case TransferFamily => d.queueFamilies[i].transfer
    case PresentFamily => i < |d.surfaceSupport| && d.surfaceSupport[i]
  }

  /** The families among the first `n` that serve `role`, in ascending order. */
  function CandidatesUpTo(d: PhysicalDevice, role: FamilyType, n: nat): (r: seq<nat>)
    requires n <= |d.queueFamilies|
    ensures forall k :: 0 <= k < |r| ==> r[k] < n && Serves(d, role, r[k])
  {
    if n == 0 then []
    else CandidatesUpTo(d, role, n - 1) + (if Serves(d, role, n - 1) then [n - 1] else [])
  }

  function Candidates(d: PhysicalDevice, role: FamilyType): seq<nat> {
    CandidatesUpTo(d, role, |d.queueFamilies|)
  }

  /** A family serving a role is among that role's candidates. */
  lemma {:induction false} ServingFamilyIsCandidate(d: PhysicalDevice, role: FamilyType, n: nat, i: nat)
    requires i < n <= |d.queueFamilies| && Serves(d, role, i)
    ensures i in CandidatesUpTo(d, role, n)
  {
    if i < n - 1 {
      ServingFamilyIsCandidate(d, role, n - 1, i);
    }
  }

  /** `familyToCount[f]++` on a small map: the count before the increment, and the new map. */
  function Bump(counts: map<nat, nat>, f: nat): (map<nat, nat>, nat) {
    var before := if f in counts then counts[f] else 0;
    (counts[f := before + 1], before)
  }

  /** One combination of the triple loop: the per-family counts and the indices it would record. */
  datatype Combination = Combination(counts: map<nat, nat>, indices: FamilyAndQueueIndices)

  function Combine(g: nat, t: nat, p: nat): Combination {
    var (c1, graphicsQueue) := Bump(map[], g);
    var (c2, transferQueue) := Bump(c1, t);
    var (c3, presentQueue) := Bump(c2, p);
    Combination(c3, FamilyAndQueueIndices(QueueIndices(g, t, p), QueueIndices(graphicsQueue, transferQueue, presentQueue)))
  }

  /** How many of the three roles sit on family `f`. */
  function RolesOn(families: QueueIndices, f: nat): nat {
    (if families.graphics == f then 1 else 0)
    + (if families.transfer == f then 1 else 0)
    + (if families.present == f then 1 else 0)
  }

  /** How many distinct families the three roles use. */
  function DistinctFamilies(families: QueueIndices): nat {
    1 + (if families.transfer != families.graphics then 1 else 0)
    + (if families.present != families.graphics && families.present != families.transfer then 1 else 0)
  }

  /** Each role's queue index is the number of earlier roles on its family. */
  lemma CombineQueueIndices(g: nat, t: nat, p: nat)
    ensures var c := Combine(g, t, p);
      && c.indices.families == QueueIndices(g, t, p)
      && c.indices.queues.graphics == 0
      && c.indices.queues.transfer == (if t == g then 1 else 0)
      && c.indices.queues.present == (if p == g then 1 else 0) + (if p == t then 1 else 0)
  {
  }

  /** The counts hold exactly the three families, each with the number of roles on it. */
  lemma CombineRoleCounts(g: nat, t: nat, p: nat)
    ensures var c := Combine(g, t, p);
      && c.counts.Keys == {g, t, p}
      && (forall f :: f in c.counts ==> c.counts[f] == RolesOn(QueueIndices(g, t, p), f))
  {
    var c3 := map[g := 1][t := (if t == g then 2 else 1)][p := (if p == g && p == t then 3 else if p == g || p == t then 2 else 1)];
    assert Combine(g, t, p).counts == c3;
  }

  /** The separation factor is the number of distinct families. */
  lemma CombineSeparation(g: nat, t: nat, p: nat)
    ensures |Combine(g, t, p).counts| == DistinctFamilies(QueueIndices(g, t, p))
  {
    var keys := Combine(g, t, p).counts.Keys;
    CombineRoleCounts(g, t, p);
    if g == t && t == p {
      assert keys == {g};
    } else if g == t {
      assert keys == {g} + {p};
    } else if g == p || t == p {
      assert keys == {g} + {t};
    } else {
      assert keys == {g} + {t} + {p};
      assert |{g} + {t}| == 2;
    }
  }

  /** The three facts about one combination together. */
  lemma CombineCounts(g: nat, t: nat, p: nat)
    ensures var c := Combine(g, t, p);
      && c.indices.families == QueueIndices(g, t, p)
      && c.indices.queues.graphics == 0
      && c.indices.queues.transfer == (if t == g then 1 else 0)
      && c.indices.queues.present == (if p == g then 1 else 0) + (if p == t then 1 else 0)
      && c.counts.Keys == {g, t, p}
      && (forall f :: f in c.counts ==> c.counts[f] == RolesOn(QueueIndices(g, t, p), f))
      && |c.counts| == DistinctFamilies(QueueIndices(g, t, p))
  {
    CombineQueueIndices(g, t, p);
    CombineRoleCounts(g, t, p);
    CombineSeparation(g, t, p);
  }

  function QueueCountOf(d: PhysicalDevice, f: nat): nat {
    if f < |d.queueFamilies| then d.queueFamilies[f].queueCount else 0
  }

  /** Every family of the combination is asked for more queues than it has. */
  predicate OverSubscribed(d: PhysicalDevice, c: Combination) {
    forall f :: f in c.counts ==> c.counts[f] > QueueCountOf(d, f)
  }

  /** Separation factor to the first indices recorded for it. */
  type Recorded = map<nat, FamilyAndQueueIndices>

  /**
   * The innermost loop over present families for one graphics and one transfer
   * family: a combination is skipped only when its separation factor is already
   * recorded and every family it uses is over-subscribed; the first one not
   * skipped is recorded (`emplace` keeps an existing entry) and ends the loop.
   */
  function PresentPass(d: PhysicalDevice, recorded: Recorded, g: nat, t: nat, presents: seq<nat>): Recorded
    decreases |presents|
  {
    if |presents| == 0 then recorded
    else
      var c := Combine(g, t, presents[0]);
      var factor := |c.counts|;
      if factor in recorded && OverSubscribed(d, c) then PresentPass(d, recorded, g, t, presents[1..])
      else if factor in recorded then recorded
      else recorded[factor := c.indices]
  }

  /** The middle loop: every transfer family in turn. */
  function TransferPass(d: PhysicalDevice, recorded: Recorded, g: nat, transfers: seq<nat>, presents: seq<nat>): Recorded
    decreases |transfers|
  {
    if |transfers| == 0 then recorded
    else TransferPass(d, PresentPass(d, recorded, g, transfers[0], presents), g, transfers[1..], presents)
  }

  /** The outer loop: every graphics family in turn. */
  function GraphicsPass(d: PhysicalDevice, recorded: Recorded, graphics: seq<nat>, transfers: seq<nat>, presents: seq<nat>): Recorded
    decreases |graphics|
  {
    if |graphics| == 0 then recorded
    else GraphicsPass(d, TransferPass(d, recorded, graphics[0], transfers, presents), graphics[1..], transfers, presents)
  }

  /**
   * The first value of the map ordered by `std::greater`: the entry with the
   * largest separation factor. Factors are 1, 2 or 3.
   */
  function BestEntry(recorded: Recorded): (r: Option<FamilyAndQueueIndices>)
    requires recorded.Keys <= {1, 2, 3}
    ensures r.None? <==> |recorded| == 0
    ensures r.Some? ==> exists k :: k in recorded && recorded[k] == r.value && (forall j :: j in recorded ==> j <= k)
  {
    if 3 in recorded then Some(recorded[3])
    else if 2 in recorded then Some(recorded[2])
    else if 1 in recorded then Some(recorded[1])
    else
      assert recorded.Keys == {};
      None
  }

  /** `pickQueues` as a function of the device. */
  function PickQueuesSpec(d: PhysicalDevice): Option<FamilyAndQueueIndices> {
    var graphics := Candidates(d, GraphicsFamily);
    var transfers := Candidates(d, TransferFamily);
    var presents := Candidates(d, PresentFamily);
    if |graphics| == 0 || |transfers| == 0 || |presents| == 0 then None
    else
      var recorded := GraphicsPass(d, map[], graphics, transfers, presents);
      RecordedFactorsBounded(d, map[], graphics, transfers, presents);
      BestEntry(recorded)
  }

  /** An entry the loops can record: candidate families with the queue indices their combination gives. */
  predicate IsAssignment(x: FamilyAndQueueIndices, graphics: seq<nat>, transfers: seq<nat>, presents: seq<nat>) {
    && x.families.graphics in graphics
    && x.families.transfer in transfers
    && x.families.present in presents
    && x == Combine(x.families.graphics, x.families.transfer, x.families.present).indices
  }

  predicate AllAssignments(recorded: Recorded, graphics: seq<nat>, transfers: seq<nat>, presents: seq<nat>) {
    forall k :: k in recorded ==> IsAssignment(recorded[k], graphics, transfers, presents)
  }

  /** A combination of candidate families is an assignment with factor 1, 2 or 3. */
  lemma CombineIsAssignment(g: nat, t: nat, p: nat, graphics: seq<nat>, transfers: seq<nat>, presents: seq<nat>)
    requires g in graphics && t in transfers && p in presents
    ensures IsAssignment(Combine(g, t, p).indices, graphics, transfers, presents)
    ensures |Combine(g, t, p).counts| in {1, 2, 3}
  {
    CombineQueueIndices(g, t, p);
    CombineSeparation(g, t, p);
  }

  lemma {:induction false} PresentPassFacts(d: PhysicalDevice, recorded: Recorded, g: nat, t: nat, presents: seq<nat>,
                                           graphics: seq<nat>, transfers: seq<nat>, allPresents: seq<nat>)
    requires g in graphics && t in transfers && (forall p :: p in presents ==> p in allPresents)
    requires recorded.Keys <= {1, 2, 3} && AllAssignments(recorded, graphics, transfers, allPresents)
    ensures var r := PresentPass(d, recorded, g, t, presents);
      && recorded.Keys <= r.Keys && r.Keys <= {1, 2, 3}
      && AllAssignments(r, graphics, transfers, allPresents)
      && (|presents| > 0 && |recorded| == 0 ==> |r| > 0)
    decreases |presents|
  {
    if |presents| > 0 {
      var c := Combine(g, t, presents[0]);
      var factor := |c.counts|;
      if factor in recorded && OverSubscribed(d, c) {
        PresentPassFacts(d, recorded, g, t, presents[1..], graphics, transfers, allPresents);
      } else if factor !in recorded {
        assert presents[0] in allPresents;
        CombineIsAssignment(g, t, presents[0], graphics, transfers, allPresents);
        var r := recorded[factor := c.indices];
        assert factor in r;
      }
    }
  }

  lemma {:induction false} TransferPassFacts(d: PhysicalDevice, recorded: Recorded, g: nat, transfers: seq<nat>, presents: seq<nat>,
                                            graphics: seq<nat>, allTransfers: seq<nat>)
    requires g in graphics && (forall t :: t in transfers ==> t in allTransfers)
    requires recorded.Keys <= {1, 2, 3} && AllAssignments(recorded, graphics, allTransfers, presents)
    ensures var r := TransferPass(d, recorded, g, transfers, presents);
      && recorded.Keys <= r.Keys && r.Keys <= {1, 2, 3}
      && AllAssignments(r, graphics, allTransfers, presents)
      && (|transfers| > 0 && |presents| > 0 && |recorded| == 0 ==> |r| > 0)
    decreases |transfers|
  {
    if |transfers| > 0 {
      assert transfers[0] in allTransfers;
      var next := PresentPass(d, recorded, g, transfers[0], presents);
      PresentPassFacts(d, recorded, g, transfers[0], presents, graphics, allTransfers, presents);
      TransferPassFacts(d, next, g, transfers[1..], presents, graphics, allTransfers);
      if |presents| > 0 && |recorded| == 0 {
        assert |next| > 0;
        var k :| k in next;
        assert k in TransferPass(d, recorded, g, transfers, presents);
      }
    }
  }

  lemma {:induction false} GraphicsPassFacts(d: PhysicalDevice, recorded: Recorded, graphics: seq<nat>, transfers: seq<nat>, presents: seq<nat>,
                                            allGraphics: seq<nat>)
    requires forall g :: g in graphics ==> g in allGraphics
    requires recorded.Keys <= {1, 2, 3} && AllAssignments(recorded, allGraphics, transfers, presents)
    ensures var r := GraphicsPass(d, recorded, graphics, transfers, presents);
      && recorded.Keys <= r.Keys && r.Keys <= {1, 2, 3}
      && AllAssignments(r, allGraphics, transfers, presents)
      && (|graphics| > 0 && |transfers| > 0 && |presents| > 0 && |recorded| == 0 ==> |r| > 0)
    decreases |graphics|
  {
    if |graphics| > 0 {
      assert graphics[0] in allGraphics;
      var next := TransferPass(d, recorded, graphics[0], transfers, presents);
      TransferPassFacts(d, recorded, graphics[0], transfers, presents, allGraphics, transfers);
      GraphicsPassFacts(d, next, graphics[1..], transfers, presents, allGraphics);
      if |transfers| > 0 && |presents| > 0 && |recorded| == 0 {
        var k :| k in next;
        assert k in GraphicsPass(d, recorded, graphics, transfers, presents);
      }
    }
  }

  lemma RecordedFactorsBounded(d: PhysicalDevice, recorded: Recorded, graphics: seq<nat>, transfers: seq<nat>, presents: seq<nat>)
    requires recorded == map[]
    ensures GraphicsPass(d, recorded, graphics, transfers, presents).Keys <= {1, 2, 3}
  {
    GraphicsPassFacts(d, recorded, graphics, transfers, presents, graphics);
  }

  /** `pickQueues` finds an assignment exactly when every role has at least one family. */
  lemma PickQueuesSomeIff(d: PhysicalDevice)
    ensures PickQueuesSpec(d).Some? <==>
      |Candidates(d, GraphicsFamily)| > 0 && |Candidates(d, TransferFamily)| > 0 && |Candidates(d, PresentFamily)| > 0
  {
    var graphics := Candidates(d, GraphicsFamily);
    var transfers := Candidates(d, TransferFamily);
    var presents := Candidates(d, PresentFamily);
    GraphicsPassFacts(d, map[], graphics, transfers, presents, graphics);
  }

  /**
   * What `pickQueues` returns: a graphics-capable, a transfer-capable and a
   * presenting family, and in each the queue numbered by the earlier roles
   * already on that family.
   */
  lemma PickQueuesAssignment(d: PhysicalDevice)
    requires PickQueuesSpec(d).Some?
    ensures var x := PickQueuesSpec(d).value;
      && x.families.graphics < |d.queueFamilies| && d.queueFamilies[x.families.graphics].graphics
      && x.families.transfer < |d.queueFamilies| && d.queueFamilies[x.families.transfer].transfer
      && x.families.present < |d.surfaceSupport| && d.surfaceSupport[x.families.present]
      && x.queues.graphics == 0
      && x.queues.transfer == (if x.families.transfer == x.families.graphics then 1 else 0)
      && x.queues.present == (if x.families.present == x.families.graphics then 1 else 0)
                             + (if x.families.present == x.families.transfer then 1 else 0)
  {
    var graphics := Candidates(d, GraphicsFamily);
    var transfers := Candidates(d, TransferFamily);
    var presents := Candidates(d, PresentFamily);
    GraphicsPassFacts(d, map[], graphics, transfers, presents, graphics);
    var x := PickQueuesSpec(d).value;
    assert IsAssignment(x, graphics, transfers, presents);
    CombineCounts(x.families.graphics, x.families.transfer, x.families.present);
  }

  /**
   * The first combination is recorded even when its family has too few
   * queues: a device whose only family serves all three roles with a single
   * queue is assigned queues 0, 1 and 2 of it.
   */
  lemma SingleQueueFamilyIsOverSubscribed()
    ensures var d := PhysicalDevice(DiscreteGpu, MemoryProperties([], []), RequiredExtensions, true, true,
                                    [], [], [QueueFamilyProperties(true, true, 1)], [true]);
      PickQueuesSpec(d) == Some(FamilyAndQueueIndices(QueueIndices(0, 0, 0), QueueIndices(0, 1, 2)))
  {
    var d := PhysicalDevice(DiscreteGpu, MemoryProperties([], []), RequiredExtensions, true, true,
                            [], [], [QueueFamilyProperties(true, true, 1)], [true]);
    assert Candidates(d, GraphicsFamily) == [0];
    assert Candidates(d, TransferFamily) == [0];
    assert Candidates(d, PresentFamily) == [0];
    CombineCounts(0, 0, 0);
    var c := Combine(0, 0, 0);
    assert PresentPass(d, map[], 0, 0, [0]) == map[1 := c.indices];
  }

  /** The three candidate lists, collected in one pass over the families. */
  method CollectCandidates(d: PhysicalDevice) returns (graphics: seq<nat>, transfers: seq<nat>, presents: seq<nat>)
    ensures graphics == Candidates(d, GraphicsFamily)
    ensures transfers == Candidates(d, TransferFamily)
    ensures presents == Candidates(d, PresentFamily)
  {
    graphics, transfers, presents := [], [], [];
    var i := 0;
    while i < |d.queueFamilies|
      invariant 0 <= i <= |d.queueFamilies|
      invariant graphics == CandidatesUpTo(d, GraphicsFamily, i)
      invariant transfers == CandidatesUpTo(d, TransferFamily, i)
      invariant presents == CandidatesUpTo(d, PresentFamily, i)
    {
      if d.queueFamilies[i].graphics {
        graphics := graphics + [i];
      }
      if d.queueFamilies[i].transfer {
        transfers := transfers + [i];
      }
      if i < |d.surfaceSupport| && d.surfaceSupport[i] {
        presents := presents + [i];
      }
      i := i + 1;
    }
  }

  /**
   * The innermost loop for one graphics and one transfer family: `continue`
   * past skipped combinations, record the first other one and `break`.
   */
  method RecordPresents(d: PhysicalDevice, recorded: Recorded, g: nat, t: nat, presents: seq<nat>) returns (r: Recorded)
    ensures r == PresentPass(d, recorded, g, t, presents)
  {
    r := recorded;
    var c := 0;
    while c < |presents|
      invariant 0 <= c <= |presents|
      invariant PresentPass(d, recorded, g, t, presents) == PresentPass(d, r, g, t, presents[c..])
    {
      var combo := Combine(g, t, presents[c]);
      var factor := |combo.counts|;
      if factor in r && OverSubscribed(d, combo) {
        assert presents[c..][1..] == presents[c + 1..];
        c := c + 1;
        continue;
      }
      if factor !in r {
        r := r[factor := combo.indices];
      }
      return;
    }
  }

  /** The middle loop: every transfer family for one graphics family. */
  method RecordTransfers(d: PhysicalDevice, recorded: Recorded, g: nat, transfers: seq<nat>, presents: seq<nat>) returns (r: Recorded)
    ensures r == TransferPass(d, recorded, g, transfers, presents)
  {
    r := recorded;
    var b := 0;
    while b < |transfers|
      invariant 0 <= b <= |transfers|
      invariant TransferPass(d, recorded, g, transfers, presents) == TransferPass(d, r, g, transfers[b..], presents)
    {
      r := RecordPresents(d, r, g, transfers[b], presents);
      assert transfers[b..][1..] == transfers[b + 1..];
      b := b + 1;
    }
  }

  /** `pickQueues`: the candidate lists, the triple loop, then the first entry of the map. */
  method PickQueues(d: PhysicalDevice) returns (r: Option<FamilyAndQueueIndices>)
    ensures r == PickQueuesSpec(d)
  {
    var graphics, transfers, presents := CollectCandidates(d);
    if |graphics| == 0 || |transfers| == 0 || |presents| == 0 {
      return None;
    }
    var recorded: Recorded := map[];
    var a := 0;
    while a < |graphics|
      invariant 0 <= a <= |graphics|
      invariant GraphicsPass(d, map[], graphics, transfers, presents) == GraphicsPass(d, recorded, graphics[a..], transfers, presents)
    {
      recorded := RecordTransfers(d, recorded, graphics[a], transfers, presents);
      assert graphics[a..][1..] == graphics[a + 1..];
      a := a + 1;
    }
    RecordedFactorsBounded(d, map[], graphics, transfers, presents);
    r := BestEntry(recorded);
  }

  // ---------------------------------------------------------------------------
  // The device choice.

  /** A device the selection keeps. */
  predicate Suitable(d: PhysicalDevice) {
    SupportsSurface(d) && HasExtensions(RequiredExtensions, d.extensions) && SupportsFeatures(d) && PickQueuesSpec(d).Some?
  }

  /** What one device contributes: its score and its queues when suitable. */
  function Rating(d: PhysicalDevice): (r: Option<(nat, FamilyAndQueueIndices)>)
    requires d.memory.WellFormed()
    ensures r.Some? <==> Suitable(d)
    ensures r.Some? ==> r.value == (Score(d), PickQueuesSpec(d).value)
  {
    if Suitable(d) then Some((Score(d), PickQueuesSpec(d).value)) else None
  }

  /**
   * One iteration of the device loop: the three filters, the queue
   * assignment, then the score; `None` where the loop moves on.
   */
  method RateDevice(d: PhysicalDevice) returns (r: Option<(nat, FamilyAndQueueIndices)>)
    requires d.memory.WellFormed()
    ensures r == Rating(d)
  {
    var extensions := SupportsExtensions(RequiredExtensions, d.extensions);
    if !SupportsSurface(d) || !extensions || !SupportsFeatures(d) {
      return None;
    }
    var families := PickQueues(d);
    if families.None? {
      return None;
    }
    var memoryScore := RateMemory(d.memory);
    return Some((RateType(d.deviceType) + memoryScore, families.value));
  }

  /**
   * `pick_physical_device`: of the suitable devices, the highest score; among
   * equal scores the first, as the multimap ordered by `std::greater` keeps
   * equal keys in insertion order. Throws when no device is suitable.
   */
  method PickPhysicalDevice(devices: seq<PhysicalDevice>) returns (r: Result<(nat, FamilyAndQueueIndices)>)
    requires forall i :: 0 <= i < |devices| ==> devices[i].memory.WellFormed()
    ensures var ratings := Ratings(devices, |devices|);
      && (r.Err? <==> forall i :: 0 <= i < |ratings| ==> ratings[i].None?)
      && (r.Err? ==> r.error == NoSuitableDevice)
      && (r.Ok? ==> IsBestRated(ratings, r.value.0) && r.value.1 == ratings[r.value.0].value.1)
  {
    ghost var ratings: seq<Option<(nat, FamilyAndQueueIndices)>> := [];
    var hasAtLeastOne := false;
    var best := 0;
    var bestScore := 0;
    var bestIndices := FamilyAndQueueIndices(QueueIndices(0, 0, 0), QueueIndices(0, 0, 0));
    var i := 0;
    while i < |devices|
      invariant 0 <= i <= |devices| && ratings == Ratings(devices, i)
      invariant BestSoFar(ratings, hasAtLeastOne, best, (bestScore, bestIndices))
    {
      var rated := RateDevice(devices[i]);
      BestSoFarStep(ratings, rated, hasAtLeastOne, best, (bestScore, bestIndices));
      ratings := ratings + [rated];
      if rated.Some? {
        var (score, families) := rated.value;
        if !hasAtLeastOne || score > bestScore {
          best, bestScore, bestIndices := i, score, families;
        }
        hasAtLeastOne := true;
      }
      i := i + 1;
    }
    if !hasAtLeastOne {
      return Err(NoSuitableDevice);
    }
    return Ok((best, bestIndices));
  }

  /**
   * The invariant of the device loop: with nothing suitable yet every rating
   * so far is empty; otherwise `best` holds the first highest-scored rating.
   */
  predicate BestSoFar(ratings: seq<Option<(nat, FamilyAndQueueIndices)>>, hasAtLeastOne: bool, best: nat,
                      entry: (nat, FamilyAndQueueIndices)) {
    && (!hasAtLeastOne ==> forall j :: 0 <= j < |ratings| ==> ratings[j].None?)
    && (hasAtLeastOne ==> IsBestRated(ratings, best) && ratings[best] == Some(entry))
  }

  /** One more rating: a strictly higher score (or the first one) takes over, anything else leaves the best alone. */
  lemma BestSoFarStep(ratings: seq<Option<(nat, FamilyAndQueueIndices)>>, rated: Option<(nat, FamilyAndQueueIndices)>,
                      hasAtLeastOne: bool, best: nat, entry: (nat, FamilyAndQueueIndices))
    requires BestSoFar(ratings, hasAtLeastOne, best, entry)
    ensures rated.None? ==> BestSoFar(ratings + [rated], hasAtLeastOne, best, entry)
    ensures rated.Some? && (!hasAtLeastOne || rated.value.0 > entry.0) ==>
      BestSoFar(ratings + [rated], true, |ratings|, rated.value)
    ensures rated.Some? && hasAtLeastOne && rated.value.0 <= entry.0 ==>
      BestSoFar(ratings + [rated], true, best, entry)
  {
    var next := ratings + [rated];
    assert forall j :: 0 <= j < |ratings| ==> next[j] == ratings[j];
  }

  /** The rating of each of the first `n` devices, in order. */
  function Ratings(devices: seq<PhysicalDevice>, n: nat): (r: seq<Option<(nat, FamilyAndQueueIndices)>>)
    requires n <= |devices| && forall i :: 0 <= i < |devices| ==> devices[i].memory.WellFormed()
    ensures |r| == n
  {
    if n == 0 then [] else Ratings(devices, n - 1) + [Rating(devices[n - 1])]
  }

  lemma {:induction false} RatingsAt(devices: seq<PhysicalDevice>, n: nat, i: nat)
    requires n <= |devices| && forall i :: 0 <= i < |devices| ==> devices[i].memory.WellFormed()
    requires i < n
    ensures Ratings(devices, n)[i] == Rating(devices[i])
  {
    if i < n - 1 {
      RatingsAt(devices, n - 1, i);
    }
  }

  /**
   * The multimap's first element: a rated entry with the highest score and,
   * among equal scores, the first inserted.
   */
  predicate IsBestRated(ratings: seq<Option<(nat, FamilyAndQueueIndices)>>, best: nat) {
    && best < |ratings| && ratings[best].Some?
    && (forall i :: 0 <= i < |ratings| && ratings[i].Some? ==> ratings[i].value.0 <= ratings[best].value.0)
    && (forall i :: 0 <= i < best && ratings[i].Some? ==> ratings[i].value.0 < ratings[best].value.0)
  }

  /**
   * What the choice means for the devices: the chosen one passes every filter
   * and carries its own queue assignment, no suitable device scores higher,
   * every earlier suitable device scores lower; and the choice fails only when
   * no device is suitable.
   */
  lemma PickedDeviceIsBest(devices: seq<PhysicalDevice>, best: nat)
    requires forall i :: 0 <= i < |devices| ==> devices[i].memory.WellFormed()
    ensures (forall i :: 0 <= i < |devices| ==> Ratings(devices, |devices|)[i].None?) <==>
      (forall i :: 0 <= i < |devices| ==> !Suitable(devices[i]))
    ensures IsBestRated(Ratings(devices, |devices|), best) ==>
      && Suitable(devices[best])
      && Ratings(devices, |devices|)[best].value == (Score(devices[best]), PickQueuesSpec(devices[best]).value)
      && (forall i :: 0 <= i < |devices| && Suitable(devices[i]) ==> Score(devices[i]) <= Score(devices[best]))
      && (forall i :: 0 <= i < best && Suitable(devices[i]) ==> Score(devices[i]) < Score(devices[best]))
  {
    var ratings := Ratings(devices, |devices|);
    forall i | 0 <= i < |devices|
      ensures ratings[i] == Rating(devices[i])
    {
      RatingsAt(devices, |devices|, i);
    }
  }

  // ---------------------------------------------------------------------------
  // The logical device.

  /** `vk::DeviceQueueCreateInfo`: a family and how many of its queues to create. */
  datatype DeviceQueueCreateInfo = DeviceQueueCreateInfo(family: nat, count: nat)

  function TotalCount(infos: seq<DeviceQueueCreateInfo>): nat {
    if |infos| == 0 then 0 else TotalCount(infos[..|infos| - 1]) + infos[|infos| - 1].count
  }

  /**
   * `make_device`'s queue requests: the roles counted per family, then one
   * request per family in ascending family order (the order of the flat map),
   * asking for as many queues as roles on it.
   */
  method MakeDeviceQueueInfos(families: QueueIndices) returns (infos: seq<DeviceQueueCreateInfo>)
    ensures forall i, j :: 0 <= i < j < |infos| ==> infos[i].family < infos[j].family
    ensures forall i :: 0 <= i < |infos| ==>
      infos[i].family in {families.graphics, families.transfer, families.present}
      && infos[i].count == RolesOn(families, infos[i].family)
    ensures FamiliesOf(infos) == {families.graphics, families.transfer, families.present}
    ensures TotalCount(infos) == 3
  {
    var familyToCount := Combine(families.graphics, families.transfer, families.present).counts;
    CombineCounts(families.graphics, families.transfer, families.present);
    infos := RequestsInFamilyOrder(families, familyToCount);
  }

  /** The loop over the flat map of counts: one request per family, smallest family first. */
  method RequestsInFamilyOrder(families: QueueIndices, familyToCount: map<nat, nat>) returns (infos: seq<DeviceQueueCreateInfo>)
    requires familyToCount.Keys == {families.graphics, families.transfer, families.present}
    requires forall f :: f in familyToCount ==> familyToCount[f] == RolesOn(families, f)
    ensures forall i, j :: 0 <= i < j < |infos| ==> infos[i].family < infos[j].family
    ensures forall i :: 0 <= i < |infos| ==>
      infos[i].family in familyToCount && infos[i].count == RolesOn(families, infos[i].family)
    ensures FamiliesOf(infos) == familyToCount.Keys
    ensures TotalCount(infos) == 3
  {
    infos := [];
    var remaining := familyToCount.Keys;
    while remaining != {}
      invariant RequestsSoFar(families, familyToCount, infos, remaining)
      decreases remaining
    {
      var f := SmallestOf(remaining);
      RequestsStep(families, familyToCount, infos, remaining, f);
      infos := infos + [DeviceQueueCreateInfo(f, familyToCount[f])];
      remaining := remaining - {f};
    }
  }

  /** The invariant of the request loop: the families done so far, in order, with the roles left over. */
  ghost predicate RequestsSoFar(families: QueueIndices, familyToCount: map<nat, nat>, infos: seq<DeviceQueueCreateInfo>, remaining: set<nat>) {
    && remaining <= familyToCount.Keys
    && (forall i, j :: 0 <= i < j < |infos| ==> infos[i].family < infos[j].family)
    && (forall i, f :: 0 <= i < |infos| && f in remaining ==> infos[i].family < f)
    && (forall i :: 0 <= i < |infos| ==>
         infos[i].family in familyToCount && infos[i].count == RolesOn(families, infos[i].family))
    && FamiliesOf(infos) == familyToCount.Keys - remaining
    && TotalCount(infos) + RemainingRoles(families, remaining) == 3
  }

  /** Requesting the smallest remaining family keeps the loop invariant. */
  lemma RequestsStep(families: QueueIndices, familyToCount: map<nat, nat>, infos: seq<DeviceQueueCreateInfo>, remaining: set<nat>, f: nat)
    requires forall x :: x in familyToCount ==> familyToCount[x] == RolesOn(families, x)
    requires RequestsSoFar(families, familyToCount, infos, remaining)
    requires f in remaining && forall x :: x in remaining ==> f <= x
    ensures RequestsSoFar(families, familyToCount, infos + [DeviceQueueCreateInfo(f, familyToCount[f])], remaining - {f})
  {
    var info := DeviceQueueCreateInfo(f, familyToCount[f]);
    RequestsStepOrder(infos, remaining, info);
    RequestsStepCounts(families, familyToCount, infos, info);
    RemainingRolesSplit(families, remaining, f);
    AppendRequest(infos, info);
    assert FamiliesOf(infos) + {f} == familyToCount.Keys - (remaining - {f});
  }

  /** The smallest remaining family goes after every request so far and before every family left. */
  lemma RequestsStepOrder(infos: seq<DeviceQueueCreateInfo>, remaining: set<nat>, info: DeviceQueueCreateInfo)
    requires forall i, j :: 0 <= i < j < |infos| ==> infos[i].family < infos[j].family
    requires forall i, f :: 0 <= i < |infos| && f in remaining ==> infos[i].family < f
    requires info.family in remaining && forall x :: x in remaining ==> info.family <= x
    ensures var next := infos + [info];
      && (forall i, j :: 0 <= i < j < |next| ==> next[i].family < next[j].family)
      && (forall i, x :: 0 <= i < |next| && x in remaining - {info.family} ==> next[i].family < x)
  {
    var next := infos + [info];
    forall i, j | 0 <= i < j < |next|
      ensures next[i].family < next[j].family
    {
      if j == |infos| {
        assert next[i] == infos[i];
      }
    }
    forall i, x | 0 <= i < |next| && x in remaining - {info.family}
      ensures next[i].family < x
    {
      if i < |infos| {
        assert next[i] == infos[i];
      }
    }
  }

  /** A request taken from the map asks for as many queues as roles on its family. */
  lemma RequestsStepCounts(families: QueueIndices, familyToCount: map<nat, nat>, infos: seq<DeviceQueueCreateInfo>, info: DeviceQueueCreateInfo)
    requires forall x :: x in familyToCount ==> familyToCount[x] == RolesOn(families, x)
    requires forall i :: 0 <= i < |infos| ==>
      infos[i].family in familyToCount && infos[i].count == RolesOn(families, infos[i].family)
    requires info.family in familyToCount && info.count == familyToCount[info.family]
    ensures var next := infos + [info];
      forall i :: 0 <= i < |next| ==> next[i].family in familyToCount && next[i].count == RolesOn(families, next[i].family)
  {
    var next := infos + [info];
    forall i | 0 <= i < |next|
      ensures next[i].family in familyToCount && next[i].count == RolesOn(families, next[i].family)
    {
      if i < |infos| {
        assert next[i] == infos[i];
      }
    }
  }

  /** Appending a request adds its family and its count. */
  lemma AppendRequest(infos: seq<DeviceQueueCreateInfo>, info: DeviceQueueCreateInfo)
    ensures FamiliesOf(infos + [info]) == FamiliesOf(infos) + {info.family}
    ensures TotalCount(infos + [info]) == TotalCount(infos) + info.count
  {
    assert (infos + [info])[..|infos|] == infos;
  }

  /** The families the requests are for. */
  function FamiliesOf(infos: seq<DeviceQueueCreateInfo>): set<nat> {
    if |infos| == 0 then {} else FamiliesOf(infos[..|infos| - 1]) + {infos[|infos| - 1].family}
  }

  /** The roles whose family is in `s`. */
  function RemainingRoles(families: QueueIndices, s: set<nat>): nat {
    (if families.graphics in s then 1 else 0)
    + (if families.transfer in s then 1 else 0)
    + (if families.present in s then 1 else 0)
  }

  lemma RemainingRolesSplit(families: QueueIndices, s: set<nat>, f: nat)
    requires f in s
    ensures RemainingRoles(families, s) == RemainingRoles(families, s - {f}) + RolesOn(families, f)
  {
  }

  /** The least element of a non-empty set of family indices. */
  method SmallestOf(s: set<nat>) returns (m: nat)
    requires s != {}
    ensures m in s && forall x :: x in s ==> m <= x
  {
    m :| m in s;
    var rest := s - {m};
    while rest != {}
      invariant rest <= s && m in s
      invariant forall x :: x in s && x !in rest ==> m <= x
      decreases rest
    {
      var x :| x in rest;
      if x < m {
        m := x;
      }
      rest := rest - {x};
    }
  }
}
