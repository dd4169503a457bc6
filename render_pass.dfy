/**
 * Render passes: the builder that collects attachments, subpasses and
 * subpass dependencies, the per-subpass builder that adds attachments with
 * consecutive global indices, and the factory that keeps the created passes.
 */
module RenderPasses {
  import opened Outcomes
  import opened Vulkan
  import DebugAssert

  // ---------------------------------------------------------------------------
  // Enumerations.

  /** `DataFormat`: vertex data formats, each the value of a `vk::Format`. */
  datatype DataFormat =
    | XFloat | XDouble | XInt | XUint
    | XyFloat | XyDouble | XyInt | XyUint
    | XyzFloat | XyzDouble | XyzInt | XyzUint
    | XyzwFloat | XyzwDouble | XyzwInt | XyzwUint

  function DataFormatOf(f: DataFormat): Format {
    match f
    case XFloat => FormatR32Sfloat
    case XDouble => FormatR64Sfloat
    case XInt => FormatR32Sint
    case XUint => FormatR32Uint
    case XyFloat => FormatR32G32Sfloat
    case XyDouble => FormatR64G64Sfloat
    case XyInt => FormatR32G32Sint
    case XyUint => FormatR32G32Uint
    case XyzFloat => FormatR32G32B32Sfloat
    case XyzDouble => FormatR64G64B64Sfloat
    case XyzInt => FormatR32G32B32Sint
    case XyzUint => FormatR32G32B32Uint
    case XyzwFloat => FormatR32G32B32A32Sfloat
    case XyzwDouble => FormatR64G64B64A64Sfloat
    case XyzwInt => FormatR32G32B32A32Sint
    case XyzwUint => FormatR32G32B32A32Uint
  }

  /** The numeric values of the declared data formats. */
  const DataFormatValues: set<int> := {100, 112, 99, 98, 103, 115, 102, 101, 106, 118, 105, 104, 109, 121, 108, 107}

  /** `first_enum_value` (`x_float`) and `last_enum_value` (`xyzw_uint`) of the debug build. */
  const FirstDataFormat: int := FormatR32Sfloat as int
  const LastDataFormat: int := FormatR32G32B32A32Uint as int

  lemma DataFormatValuesAreDeclared(f: DataFormat)
    ensures DataFormatOf(f) as int in DataFormatValues
  {
  }

  /**
   * The range check of the debug build rejects half of the declared data
   * formats: the enumerators are not numbered from `x_float` up to
   * `xyzw_uint`. Exactly the eight formats numbered 100 to 107 pass.
   */
  lemma DataFormatRangeRejectsMembers(f: DataFormat)
    ensures DebugAssert.IsEnumValidAsWritten(DebugAssert.Debug, DataFormatOf(f) as int, FirstDataFormat, LastDataFormat) <==>
      f in {XFloat, XyUint, XyInt, XyFloat, XyzUint, XyzInt, XyzFloat, XyzwUint}
    ensures !DebugAssert.IsEnumValidAsWritten(DebugAssert.Debug, DataFormatOf(XUint) as int, FirstDataFormat, LastDataFormat)
    ensures !DebugAssert.IsEnumValidAsWritten(DebugAssert.Debug, DataFormatOf(XInt) as int, FirstDataFormat, LastDataFormat)
    ensures !DebugAssert.IsEnumValidAsWritten(DebugAssert.Debug, DataFormatOf(XDouble) as int, FirstDataFormat, LastDataFormat)
    ensures !DebugAssert.IsEnumValidAsWritten(DebugAssert.Debug, DataFormatOf(XyzwFloat) as int, FirstDataFormat, LastDataFormat)
  {
  }

  /** With the membership check every declared data format passes. */
  lemma EveryDataFormatPasses(build: DebugAssert.Build, f: DataFormat)
    ensures DebugAssert.IsEnumValid(build, DataFormatOf(f) as int, DataFormatValues)
  {
    DataFormatValuesAreDeclared(f);
  }

  /** `InputAttachmentFormat`: an input attachment in the colour or in the depth format. */
  datatype InputAttachmentFormat = ColorInput | DepthInput

  function InputAttachmentFormatValue(f: InputAttachmentFormat): int {
    match f
    case ColorInput => 0
    case DepthInput => 1
  }

  /** Its enumerators are numbered 0 and 1 without gaps, so its range check is exact. */
  lemma InputAttachmentFormatsPass(build: DebugAssert.Build, f: InputAttachmentFormat)
    ensures DebugAssert.IsEnumValidAsWritten(build, InputAttachmentFormatValue(f), 0, 1)
  {
    DebugAssert.RangeTestIntendedForContiguousEnums(build, 0, 1, {0, 1}, InputAttachmentFormatValue(f));
  }

  /** `std::has_single_bit`. */
  predicate HasSingleBit(n: nat) {
    n == 1 || (n >= 2 && n % 2 == 0 && HasSingleBit(n / 2))
  }

  /** The sample counts the attachment calls accept: a power of two not above 64. */
  predicate IsSampleCount(n: nat) {
    HasSingleBit(n) && n <= 64
  }

  /** These are exactly the counts `vk::SampleCountFlagBits` names. */
  lemma SampleCountsAreFlagBits(n: nat)
    ensures IsSampleCount(n) <==> n in {1, 2, 4, 8, 16, 32, 64}
  {
    if IsSampleCount(n) && n != 1 {
      var m := n / 2;
      assert HasSingleBit(m) && m <= 32;
      if m != 1 {
        var k := m / 2;
        assert HasSingleBit(k) && k <= 16;
        if k != 1 {
          var j := k / 2;
          assert HasSingleBit(j) && j <= 8;
          if j != 1 {
            var i := j / 2;
            assert HasSingleBit(i) && i <= 4;
            if i != 1 {
              assert HasSingleBit(i / 2) && i / 2 <= 2;
              assert i / 2 == 1 || (i / 2 == 2 && HasSingleBit(1));
            }
          }
        }
      }
    }
    if n in {1, 2, 4, 8, 16, 32, 64} {
      assert HasSingleBit(1) && HasSingleBit(2) && HasSingleBit(4) && HasSingleBit(8);
      assert HasSingleBit(16) && HasSingleBit(32) && HasSingleBit(64);
    }
  }

  // ---------------------------------------------------------------------------
  // Descriptions.

  datatype AttachmentReference = AttachmentReference(attachment: nat, layout: ImageLayout)

  /** `Detail::SubpassInfo`. */
  datatype SubpassInfo = SubpassInfo(
    index: nat,
    color: seq<AttachmentReference>,
    input: seq<AttachmentReference>,
    depth: Option<AttachmentReference>,
    msaa: Option<AttachmentReference>)

  datatype LoadOp = LoadClear | LoadKeep | LoadDontCare
  datatype StoreOp = StoreKeep | StoreDontCare

  /** `vk::AttachmentDescription`. */
  datatype AttachmentDescription = AttachmentDescription(
    format: Format, samples: nat,
    loadOp: LoadOp, storeOp: StoreOp, stencilLoadOp: LoadOp, stencilStoreOp: StoreOp,
    initialLayout: ImageLayout, finalLayout: ImageLayout)

  function ColorAttachmentDescription(format: Format, samples: nat): AttachmentDescription {
    AttachmentDescription(format, samples, LoadClear, StoreKeep, LoadDontCare, StoreDontCare, Undefined, ColorAttachmentOptimal)
  }

  function DepthAttachmentDescription(format: Format, samples: nat): AttachmentDescription {
    AttachmentDescription(format, samples, LoadClear, StoreKeep, LoadDontCare, StoreDontCare, Undefined, DepthStencilAttachmentOptimal)
  }

  function InputAttachmentDescription(format: Format): AttachmentDescription {
    AttachmentDescription(format, 1, LoadKeep, StoreDontCare, LoadDontCare, StoreDontCare, ShaderReadOnlyOptimal, ShaderReadOnlyOptimal)
  }

  function MsaaAttachmentDescription(format: Format): AttachmentDescription {
    AttachmentDescription(format, 1, LoadDontCare, StoreKeep, LoadDontCare, StoreDontCare, Undefined, PresentSrcKHR)
  }

  /** Of the four kinds of attachment, only a colour attachment ends in `ColorAttachmentOptimal`. */
  lemma OnlyColorAttachmentsEndInColorLayout(format: Format, samples: nat)
    ensures ColorAttachmentDescription(format, samples).finalLayout == ColorAttachmentOptimal
    ensures DepthAttachmentDescription(format, samples).finalLayout != ColorAttachmentOptimal
    ensures InputAttachmentDescription(format).finalLayout != ColorAttachmentOptimal
    ensures MsaaAttachmentDescription(format).finalLayout == PresentSrcKHR
  {
  }

  datatype Access = ColorAttachmentWrite | DepthStencilAttachmentWrite | InputAttachmentRead

  /** `VK_SUBPASS_EXTERNAL` or a subpass index. */
  datatype SubpassRef = External | SubpassAt(index: nat)

  /** `vk::SubpassDependency`. */
  datatype SubpassDependency = SubpassDependency(
    src: SubpassRef, dst: SubpassRef,
    srcStages: set<PipelineStage>, dstStages: set<PipelineStage>,
    srcAccess: set<Access>, dstAccess: set<Access>)

  /** `vk::SubpassDescription` of a graphics subpass. */
  datatype SubpassDescription = SubpassDescription(
    input: seq<AttachmentReference>, color: seq<AttachmentReference>,
    resolve: Option<AttachmentReference>, depth: Option<AttachmentReference>)

  function DescriptionOf(info: SubpassInfo): SubpassDescription {
    SubpassDescription(info.input, info.color, info.msaa, info.depth)
  }

  /** `vk::RenderPassCreateInfo`. */
  datatype RenderPassCreateInfo = RenderPassCreateInfo(
    attachments: seq<AttachmentDescription>, subpasses: seq<SubpassDescription>, dependencies: seq<SubpassDependency>)

  // ---------------------------------------------------------------------------
  // Stages and dependencies.

  /** `make_stages_access_flags`: the stages and accesses a subpass's attachments use. */
  function MakeStagesAccessFlags(info: SubpassInfo): (r: (set<PipelineStage>, set<Access>))
    ensures ColorAttachmentOutput in r.0 <==> |info.color| > 0 || info.msaa.Some?
    ensures EarlyFragmentTests in r.0 <==> info.depth.Some?
    ensures LateFragmentTests in r.0 <==> info.depth.Some?
    ensures FragmentShader in r.0 <==> |info.input| > 0
    ensures r.0 <= {ColorAttachmentOutput, EarlyFragmentTests, LateFragmentTests, FragmentShader}
    ensures ColorAttachmentWrite in r.1 <==> |info.color| > 0 || info.msaa.Some?
    ensures DepthStencilAttachmentWrite in r.1 <==> info.depth.Some?
    ensures InputAttachmentRead in r.1 <==> |info.input| > 0
  {
    var (stages, access) := ({}, {});
    var (stages, access) := if |info.color| > 0 then (stages + {ColorAttachmentOutput}, access + {ColorAttachmentWrite}) else (stages, access);
    var (stages, access) := if info.depth.Some? then (stages + {EarlyFragmentTests, LateFragmentTests}, access + {DepthStencilAttachmentWrite}) else (stages, access);
    var (stages, access) := if |info.input| > 0 then (stages + {FragmentShader}, access + {InputAttachmentRead}) else (stages, access);
    var (stages, access) := if info.msaa.Some? then (stages + {ColorAttachmentOutput}, access + {ColorAttachmentWrite}) else (stages, access);
    (stages, access)
  }

  /** A subpass with no attachment at all uses no stage and no access. */
  lemma NoAttachmentsNoStages(info: SubpassInfo)
    ensures MakeStagesAccessFlags(info).0 == {} <==>
      |info.color| == 0 && |info.input| == 0 && info.depth.None? && info.msaa.None?
  {
    var r := MakeStagesAccessFlags(info);
    if |info.color| > 0 || info.msaa.Some? {
      assert ColorAttachmentOutput in r.0;
    } else if info.depth.Some? {
      assert EarlyFragmentTests in r.0;
    } else if |info.input| > 0 {
      assert FragmentShader in r.0;
    }
  }

  /** The stage and access masks of a dependency under construction. */
  datatype Masks = Masks(srcStages: set<PipelineStage>, srcAccess: set<Access>,
                         dstStages: set<PipelineStage>, dstAccess: set<Access>, found: bool)

  function AddMasks(m: Masks, srcStages: set<PipelineStage>, srcAccess: set<Access>,
                    dstStages: set<PipelineStage>, dstAccess: set<Access>): Masks {
    Masks(m.srcStages + srcStages, m.srcAccess + srcAccess, m.dstStages + dstStages, m.dstAccess + dstAccess, true)
  }

  /** Colour output of `src` read as input by `dst`. */
  predicate ColorToInput(src: SubpassInfo, dst: SubpassInfo) { |src.color| > 0 && |dst.input| > 0 }
  /** Depth output of `src` read as input by `dst`. */
  predicate DepthToInput(src: SubpassInfo, dst: SubpassInfo) { src.depth.Some? && |dst.input| > 0 }
  /** The resolve target of `src` read as input by `dst`. */
  predicate MsaaToInput(src: SubpassInfo, dst: SubpassInfo) { src.msaa.Some? && |dst.input| > 0 }
  /** Both write colour. */
  predicate ColorToColor(src: SubpassInfo, dst: SubpassInfo) { |src.color| > 0 && |dst.color| > 0 }
  /** Both write depth. */
  predicate DepthToDepth(src: SubpassInfo, dst: SubpassInfo) { src.depth.Some? && dst.depth.Some? }

  /**
   * `make_dependency`: accumulates the masks of each of the five hazards
   * between `src` and `dst`; none when there is no hazard.
   */
  function MakeDependency(src: SubpassInfo, dst: SubpassInfo): (r: Option<SubpassDependency>)
    ensures r.None? <==>
      !ColorToInput(src, dst) && !DepthToInput(src, dst) && !MsaaToInput(src, dst)
      && !ColorToColor(src, dst) && !DepthToDepth(src, dst)
    ensures r.Some? ==> r.value.src == SubpassAt(src.index) && r.value.dst == SubpassAt(dst.index)
    ensures r.Some? ==> (FragmentShader in r.value.dstStages <==> |dst.input| > 0)
    ensures r.Some? ==> (InputAttachmentRead in r.value.dstAccess <==> |dst.input| > 0)
    ensures r.Some? ==> (ColorAttachmentOutput in r.value.srcStages <==>
      ColorToInput(src, dst) || MsaaToInput(src, dst) || ColorToColor(src, dst))
    ensures r.Some? ==> (EarlyFragmentTests in r.value.srcStages <==> DepthToInput(src, dst) || DepthToDepth(src, dst))
    ensures r.Some? ==> (DepthStencilAttachmentWrite in r.value.dstAccess <==> DepthToDepth(src, dst))
    ensures r.Some? ==> (ColorAttachmentOutput in r.value.dstStages <==> ColorToColor(src, dst))
  {
    var m := Masks({}, {}, {}, {}, false);
    var m := if ColorToInput(src, dst) then AddMasks(m, {ColorAttachmentOutput}, {ColorAttachmentWrite}, {FragmentShader}, {InputAttachmentRead}) else m;
    var m := if DepthToInput(src, dst) then AddMasks(m, {EarlyFragmentTests, LateFragmentTests}, {DepthStencilAttachmentWrite}, {FragmentShader}, {InputAttachmentRead}) else m;
    var m := if MsaaToInput(src, dst) then AddMasks(m, {ColorAttachmentOutput}, {ColorAttachmentWrite}, {FragmentShader}, {InputAttachmentRead}) else m;
    var m := if ColorToColor(src, dst) then AddMasks(m, {ColorAttachmentOutput}, {ColorAttachmentWrite}, {ColorAttachmentOutput}, {ColorAttachmentWrite}) else m;
    var m := if DepthToDepth(src, dst) then AddMasks(m, {EarlyFragmentTests, LateFragmentTests}, {DepthStencilAttachmentWrite}, {EarlyFragmentTests, LateFragmentTests}, {DepthStencilAttachmentWrite}) else m;
    if !m.found then None
    else Some(SubpassDependency(SubpassAt(src.index), SubpassAt(dst.index), m.srcStages, m.dstStages, m.srcAccess, m.dstAccess))
  }

  /**
   * `depend_on` hands the current subpass to `make_dependency` as the source
   * and the named, earlier subpass as the destination, so the dependency it
   * records runs from a later subpass to an earlier one.
   */
  lemma DependOnPointsBackwards(current: SubpassInfo, earlier: SubpassInfo)
    requires earlier.index < current.index && MakeDependency(current, earlier).Some?
    ensures MakeDependency(current, earlier).value.src.index > MakeDependency(current, earlier).value.dst.index
  {
  }

  /**
   * The example application's passes: "Default" with a colour and a resolve
   * attachment, then "Depth" with a depth attachment depending on "Default".
   * The two share no hazard, so `depend_on` records nothing.
   */
  lemma ExampleDependOnRecordsNothing()
    ensures MakeDependency(
      SubpassInfo(1, [], [], Some(AttachmentReference(2, DepthStencilAttachmentOptimal)), None),
      SubpassInfo(0, [AttachmentReference(0, ColorAttachmentOptimal)], [], None, Some(AttachmentReference(1, ColorAttachmentOptimal))))
      == None
  {
  }

  /** Every attachment reference of a subpass lies in `[low, high)`. */
  predicate RefIn(r: AttachmentReference, low: nat, high: nat) {
    low <= r.attachment < high
  }

  predicate RefsWithin(info: SubpassInfo, low: nat, high: nat) {
    && (forall i :: 0 <= i < |info.color| ==> RefIn(info.color[i], low, high))
    && (forall i :: 0 <= i < |info.input| ==> RefIn(info.input[i], low, high))
    && (info.depth.Some? ==> RefIn(info.depth.value, low, high))
    && (info.msaa.Some? ==> RefIn(info.msaa.value, low, high))
  }

  /** `end_subpass`: a last attachment that ends in `ColorAttachmentOptimal` is presented instead. */
  function PresentLast(attachments: seq<AttachmentDescription>): (r: seq<AttachmentDescription>)
    requires |attachments| > 0
    ensures |r| == |attachments| && r[..|r| - 1] == attachments[..|attachments| - 1]
    ensures r[|r| - 1] == (if attachments[|attachments| - 1].finalLayout == ColorAttachmentOptimal
                           then attachments[|attachments| - 1].(finalLayout := PresentSrcKHR)
                           else attachments[|attachments| - 1])
  {
    var last := attachments[|attachments| - 1];
    if last.finalLayout == ColorAttachmentOptimal then attachments[..|attachments| - 1] + [last.(finalLayout := PresentSrcKHR)]
    else attachments
  }

  // ---------------------------------------------------------------------------
  // Sorting in `confirm`.

  predicate StrictlyAscending(s: seq<SubpassInfo>) {
    forall i, j :: 0 <= i < j < |s| ==> s[i].index < s[j].index
  }

  function IndicesOf(s: seq<SubpassInfo>): set<nat> {
    if |s| == 0 then {} else {s[0].index} + IndicesOf(s[1..])
  }

  /** `flat_set::emplace` ordered by index: an info whose index is already present is dropped. */
  function InsertByIndex(sorted: seq<SubpassInfo>, x: SubpassInfo): seq<SubpassInfo> {
    if |sorted| == 0 then [x]
    else if x.index < sorted[0].index then [x] + sorted
    else if x.index == sorted[0].index then sorted
    else [sorted[0]] + InsertByIndex(sorted[1..], x)
  }

  /** The emplace keeps every info already there and adds nothing but `x`, which it adds when its index is new. */
  lemma {:induction false} InsertByIndexMembers(sorted: seq<SubpassInfo>, x: SubpassInfo)
    ensures var r := InsertByIndex(sorted, x);
      && (forall i :: 0 <= i < |r| ==> r[i] in sorted || r[i] == x)
      && (forall i :: 0 <= i < |sorted| ==> sorted[i] in r)
      && (x.index !in IndicesOf(sorted) ==> x in r)
  {
    if |sorted| > 0 && x.index > sorted[0].index {
      var rest := InsertByIndex(sorted[1..], x);
      InsertByIndexMembers(sorted[1..], x);
      var r := [sorted[0]] + rest;
      assert r[1..] == rest;
      forall i | 0 <= i < |r| ensures r[i] in sorted || r[i] == x {
        if i > 0 && r[i] != x {
          var k :| 0 <= k < |sorted[1..]| && sorted[1..][k] == r[i];
          assert sorted[k + 1] == r[i];
        }
      }
      forall i | 0 <= i < |sorted| ensures sorted[i] in r {
        if i > 0 { assert sorted[1..][i - 1] == sorted[i]; }
      }
    }
  }

  /** The emplace adds `x`'s index to the set's indices. */
  lemma {:induction false} InsertByIndexIndices(sorted: seq<SubpassInfo>, x: SubpassInfo)
    ensures IndicesOf(InsertByIndex(sorted, x)) == IndicesOf(sorted) + {x.index}
  {
    if |sorted| == 0 {
      assert [x][1..] == [];
    } else if x.index < sorted[0].index {
      assert ([x] + sorted)[1..] == sorted;
    } else if x.index > sorted[0].index {
      var rest := InsertByIndex(sorted[1..], x);
      InsertByIndexIndices(sorted[1..], x);
      assert ([sorted[0]] + rest)[1..] == rest;
    }
  }

  /** The emplace keeps the set strictly ascending by index. */
  lemma {:induction false} InsertByIndexAscending(sorted: seq<SubpassInfo>, x: SubpassInfo)
    requires StrictlyAscending(sorted)
    ensures StrictlyAscending(InsertByIndex(sorted, x))
  {
    if |sorted| > 0 && x.index > sorted[0].index {
      var rest := InsertByIndex(sorted[1..], x);
      InsertByIndexAscending(sorted[1..], x);
      InsertByIndexMembers(sorted[1..], x);
      AscendingAbove(sorted, rest, x);
    }
  }

  /** Putting the head of an ascending sequence before an ascending tail drawn from it and a larger info. */
  lemma AscendingAbove(sorted: seq<SubpassInfo>, rest: seq<SubpassInfo>, x: SubpassInfo)
    requires |sorted| > 0 && StrictlyAscending(sorted) && StrictlyAscending(rest)
    requires sorted[0].index < x.index
    requires forall i :: 0 <= i < |rest| ==> rest[i] in sorted[1..] || rest[i] == x
    ensures StrictlyAscending([sorted[0]] + rest)
  {
    forall i | 0 <= i < |rest| ensures sorted[0].index < rest[i].index {
      if rest[i] in sorted[1..] {
        var k :| 0 <= k < |sorted[1..]| && sorted[1..][k] == rest[i];
        assert sorted[k + 1] == rest[i];
      }
    }
    var s := [sorted[0]] + rest;
    forall i, j | 0 <= i < j < |s| ensures s[i].index < s[j].index {
      if i > 0 {
        assert s[i] == rest[i - 1] && s[j] == rest[j - 1];
      } else {
        assert s[j] == rest[j - 1];
      }
    }
  }

  /** The indices of the named subpasses. */
  function IndexSet(subpasses: map<string, SubpassInfo>, names: set<string>): set<nat> {
    set name | name in names && name in subpasses :: subpasses[name].index
  }

  lemma IndexSetStep(subpasses: map<string, SubpassInfo>, names: set<string>, name: string)
    requires name in subpasses
    ensures IndexSet(subpasses, names + {name}) == IndexSet(subpasses, names) + {subpasses[name].index}
  {
  }

  lemma UniqueIndexNotYetSeen(subpasses: map<string, SubpassInfo>, names: set<string>, name: string)
    requires name in subpasses && name !in names && UniqueIndex(subpasses, name)
    ensures subpasses[name].index !in IndexSet(subpasses, names)
  {
  }

  /** The infos `confirm` describes, given the builder's map: ascending, one per index, all from the map. */
  predicate IsSortedSubpasses(subpasses: map<string, SubpassInfo>, sorted: seq<SubpassInfo>) {
    && StrictlyAscending(sorted)
    && (forall i :: 0 <= i < |sorted| ==> sorted[i] in subpasses.Values)
    && IndicesOf(sorted) == IndexSet(subpasses, subpasses.Keys)
  }

  /**
   * The first loop of `confirm`: each info of the map, in whatever order the
   * map yields them, goes into the set ordered by index.
   */
  method SortByIndex(subpasses: map<string, SubpassInfo>) returns (sorted: seq<SubpassInfo>)
    ensures IsSortedSubpasses(subpasses, sorted)
    ensures forall name :: name in subpasses && UniqueIndex(subpasses, name) ==> subpasses[name] in sorted
  {
    sorted := [];
    var remaining := subpasses.Keys;
    ghost var done: set<string> := {};
    while remaining != {}
      invariant remaining <= subpasses.Keys && done == subpasses.Keys - remaining
      invariant SortedSoFar(subpasses, done, sorted)
      decreases remaining
    {
      var name :| name in remaining;
      SortedStep(subpasses, done, sorted, name);
      sorted := InsertByIndex(sorted, subpasses[name]);
      remaining := remaining - {name};
      done := done + {name};
    }
  }

  /** The invariant of the sorting loop: the infos of the names done so far, ascending, one per index. */
  predicate SortedSoFar(subpasses: map<string, SubpassInfo>, done: set<string>, sorted: seq<SubpassInfo>) {
    && StrictlyAscending(sorted)
    && (forall i :: 0 <= i < |sorted| ==> sorted[i] in subpasses.Values)
    && IndicesOf(sorted) == IndexSet(subpasses, done)
    && (forall name :: name in done && name in subpasses && UniqueIndex(subpasses, name) ==> subpasses[name] in sorted)
  }

  /** Emplacing the info of one more name keeps the loop invariant. */
  lemma SortedStep(subpasses: map<string, SubpassInfo>, done: set<string>, sorted: seq<SubpassInfo>, name: string)
    requires done <= subpasses.Keys && name in subpasses && name !in done
    requires SortedSoFar(subpasses, done, sorted)
    ensures SortedSoFar(subpasses, done + {name}, InsertByIndex(sorted, subpasses[name]))
  {
    var x := subpasses[name];
    var next := InsertByIndex(sorted, x);
    InsertByIndexMembers(sorted, x);
    InsertByIndexIndices(sorted, x);
    InsertByIndexAscending(sorted, x);
    IndexSetStep(subpasses, done, name);
    if UniqueIndex(subpasses, name) {
      UniqueIndexNotYetSeen(subpasses, done, name);
    }
    assert x in subpasses.Values;
    forall other | other in done + {name} && other in subpasses && UniqueIndex(subpasses, other)
      ensures subpasses[other] in next
    {
      if other != name {
        var k :| 0 <= k < |sorted| && sorted[k] == subpasses[other];
      }
    }
  }

  /** No other subpass of the map shares this one's index. */
  predicate UniqueIndex(subpasses: map<string, SubpassInfo>, name: string)
    requires name in subpasses
  {
    forall other :: other in subpasses && other != name ==> subpasses[other].index != subpasses[name].index
  }

  /** The second loop of `confirm`: one description per sorted info. */
  method Describe(sorted: seq<SubpassInfo>) returns (descriptions: seq<SubpassDescription>)
    ensures |descriptions| == |sorted|
    ensures forall i :: 0 <= i < |sorted| ==> descriptions[i] == DescriptionOf(sorted[i])
  {
    descriptions := [];
    var i := 0;
    while i < |sorted|
      invariant 0 <= i <= |sorted| && |descriptions| == i
      invariant forall k :: 0 <= k < i ==> descriptions[k] == DescriptionOf(sorted[k])
    {
      descriptions := descriptions + [DescriptionOf(sorted[i])];
      i := i + 1;
    }
  }

  /** The descriptions `confirm` passes: those of some sorted arrangement of the map. */
  ghost predicate DescribesSorted(subpasses: map<string, SubpassInfo>, descriptions: seq<SubpassDescription>) {
    exists sorted :: IsSortedSubpasses(subpasses, sorted)
      && |descriptions| == |sorted|
      && forall i :: 0 <= i < |sorted| ==> descriptions[i] == DescriptionOf(sorted[i])
  }

  // ---------------------------------------------------------------------------
  // Objects.

  /** `RenderPass`: a non-owning handle, copyable and movable. */
  class RenderPass {
    var renderPass: Handle

    constructor (renderPass: Handle)
      ensures this.renderPass == renderPass
    {
      this.renderPass := renderPass;
    }

    constructor Copy(other: RenderPass)
      ensures renderPass == other.renderPass
    {
      renderPass := other.renderPass;
    }

    /** The move constructor leaves `other` null. */
    constructor MoveFrom(other: RenderPass)
      modifies other
      ensures renderPass == old(other.renderPass) && other.renderPass == Null
    {
      renderPass := other.renderPass;
      other.renderPass := Null;
    }

    /** Move assignment: a no-op onto itself, otherwise takes `other`'s handle and nulls it. */
    method MoveAssign(other: RenderPass)
      modifies this, other
      ensures other == this ==> renderPass == old(renderPass)
      ensures other != this ==> renderPass == old(other.renderPass) && other.renderPass == Null
    {
      if other == this {
        return;
      }
      renderPass := other.renderPass;
      other.renderPass := Null;
    }

    predicate IsValid()
      reads this
    {
      renderPass != Null
    }
  }

  /** `RenderPassFactory`: creates render passes and keeps them until destroyed. */
  class RenderPassFactory {
    const device: Device
    var renderPasses: set<Handle>

    constructor (device: Device)
      ensures this.device == device && renderPasses == {}
    {
      this.device := device;
      renderPasses := {};
    }

    /** `make_render_pass`: a new pass, kept in the set. */
    method MakeRenderPass(info: RenderPassCreateInfo) returns (pass: RenderPass)
      modifies device`nextId, this`renderPasses
      ensures fresh(pass) && pass.renderPass == Live(old(device.nextId))
      ensures renderPasses == old(renderPasses) + {pass.renderPass}
      ensures device.nextId == old(device.nextId) + 1
    {
      var h := device.Create();
      renderPasses := renderPasses + {h};
      pass := new RenderPass(h);
    }

    /** `build_render_pass`: a builder with the B8G8R8A8 sRGB colour format and the D16 depth format. */
    method BuildRenderPass() returns (builder: RenderPassBuilder)
      ensures fresh(builder) && builder.factory == this && builder.Valid()
      ensures builder.colorFormat == FormatB8G8R8A8Srgb && builder.depthFormat == FormatD16Unorm
      ensures builder.attachments == [] && builder.dependencies == [] && builder.subpasses == map[]
      ensures builder.subpassIndex == 0 && builder.baseAttachmentIndex == 0
    {
      builder := new RenderPassBuilder(this, FormatB8G8R8A8Srgb, FormatD16Unorm);
    }

    /** `destroy_render_pass`: asserts the pass is valid, then forgets it. */
    method DestroyRenderPass(pass: RenderPass) returns (r: Result<()>)
      modifies this`renderPasses
      ensures r.Err? <==> !pass.IsValid()
      ensures r.Err? ==> r.error == DebugAssertion && renderPasses == old(renderPasses)
      ensures r.Ok? ==> renderPasses == old(renderPasses) - {pass.renderPass}
    {
      if !pass.IsValid() {
        return Err(DebugAssertion);
      }
      renderPasses := renderPasses - {pass.renderPass};
      return Ok(());
    }
  }

  /** `RenderPassBuilder`: what the ended subpasses have contributed so far. */
  class RenderPassBuilder {
    const factory: RenderPassFactory
    const colorFormat: Format
    const depthFormat: Format
    var attachments: seq<AttachmentDescription>
    var dependencies: seq<SubpassDependency>
    var subpassIndex: nat
    var baseAttachmentIndex: nat
    var subpasses: map<string, SubpassInfo>

    /**
     * Subpasses ended one after another: the next attachment index is the
     * number of attachments, every reference points at an existing attachment,
     * and the recorded subpasses have distinct indices below the next one.
     */
    ghost predicate Valid()
      reads this
    {
      && baseAttachmentIndex == |attachments|
      && (forall name :: name in subpasses ==> RefsWithin(subpasses[name], 0, |attachments|))
      && (forall name :: name in subpasses ==> subpasses[name].index < subpassIndex)
      && (forall name :: name in subpasses ==> UniqueIndex(subpasses, name))
    }

    constructor (factory: RenderPassFactory, color: Format, depth: Format)
      ensures this.factory == factory && colorFormat == color && depthFormat == depth
      ensures attachments == [] && dependencies == [] && subpasses == map[]
      ensures subpassIndex == 0 && baseAttachmentIndex == 0
      ensures Valid()
    {
      this.factory := factory;
      colorFormat := color;
      depthFormat := depth;
      attachments := [];
      dependencies := [];
      subpassIndex := 0;
      baseAttachmentIndex := 0;
      subpasses := map[];
    }

    /** `begin_subpass`: a subpass builder numbered by the subpasses ended so far, its attachments starting at the base index. */
    method BeginSubpass(name: string) returns (builder: SubpassBuilder)
      ensures fresh(builder) && builder.top == this && builder.name == name
      ensures builder.attachmentsBaseIndex == baseAttachmentIndex
      ensures builder.info == SubpassInfo(subpassIndex, [], [], None, None)
      ensures builder.attachments == [] && builder.dependencies == [] && !builder.baked
      ensures builder.Valid()
    {
      builder := new SubpassBuilder(this, subpassIndex, baseAttachmentIndex, name);
    }

    /** `get_subpass_info`: asserts the name is non-empty and known. */
    function GetSubpassInfo(name: string): (r: Result<SubpassInfo>)
      reads this
      ensures r.Ok? <==> |name| > 0 && name in subpasses
      ensures r.Ok? ==> r.value == subpasses[name]
      ensures r.Err? ==> r.error == DebugAssertion
    {
      if |name| == 0 || name !in subpasses then Err(DebugAssertion) else Ok(subpasses[name])
    }

    /**
     * `adopt_subpass`: appends the subpass's attachments and dependencies,
     * records its info under its name unless the name is taken (`emplace`),
     * and advances the subpass and attachment counters.
     */
    method AdoptSubpass(name: string, info: SubpassInfo, newAttachments: seq<AttachmentDescription>, newDependencies: seq<SubpassDependency>)
      modifies this`attachments, this`dependencies, this`subpasses, this`subpassIndex, this`baseAttachmentIndex
      ensures attachments == old(attachments) + newAttachments
      ensures dependencies == old(dependencies) + newDependencies
      ensures subpasses == if name in old(subpasses) then old(subpasses) else old(subpasses)[name := info]
      ensures subpassIndex == old(subpassIndex) + 1
      ensures baseAttachmentIndex == old(baseAttachmentIndex) + |newAttachments|
      ensures old(Valid()) && info.index == old(subpassIndex) && RefsWithin(info, 0, |attachments|) ==> Valid()
    {
      attachments := attachments + newAttachments;
      dependencies := dependencies + newDependencies;
      if name !in subpasses {
        subpasses := subpasses[name := info];
      }
      subpassIndex := subpassIndex + 1;
      baseAttachmentIndex := baseAttachmentIndex + |newAttachments|;
    }

    /**
     * `add_external_dependencies` (never called by the library): a
     * dependency from outside into the lowest-numbered subpass and one out to
     * outside whose source is again the lowest-numbered subpass, carrying the
     * highest-numbered subpass's masks.
     */
    method AddExternalDependencies() returns (r: Result<()>)
      modifies this`dependencies
      ensures r.Err? <==> |subpasses| == 0
      ensures r.Err? ==> r.error == DebugAssertion && dependencies == old(dependencies)
      ensures r.Ok? ==> exists first, last ::
        && first in subpasses && last in subpasses
        && (forall n :: n in subpasses ==> subpasses[first].index <= subpasses[n].index <= subpasses[last].index)
        && dependencies == old(dependencies) + ExternalDependencies(subpasses[first], subpasses[last])
    {
      if |subpasses| == 0 {
        return Err(DebugAssertion);
      }
      var first :| first in subpasses;
      var last := first;
      var remaining := subpasses.Keys - {first};
      while remaining != {}
        invariant remaining <= subpasses.Keys && first in subpasses && last in subpasses
        invariant forall n :: n in subpasses && n !in remaining ==> subpasses[first].index <= subpasses[n].index <= subpasses[last].index
        decreases remaining
      {
        var n :| n in remaining;
        if subpasses[n].index < subpasses[first].index {
          first := n;
        }
        if subpasses[n].index >= subpasses[last].index {
          last := n;
        }
        remaining := remaining - {n};
      }
      dependencies := dependencies + ExternalDependencies(subpasses[first], subpasses[last]);
      return Ok(());
    }

    /**
     * `confirm`: asserts there is a subpass, sorts the infos by index,
     * empties the map, and creates the pass from the accumulated attachments,
     * the descriptions and the accumulated dependencies.
     */
    method Confirm() returns (r: Result<RenderPass>, info: Option<RenderPassCreateInfo>)
      modifies this`subpasses, factory`renderPasses, factory.device`nextId
      ensures r.Err? <==> |old(subpasses)| == 0
      ensures r.Err? ==>
        && r.error == DebugAssertion && info == None && subpasses == old(subpasses)
        && factory.renderPasses == old(factory.renderPasses) && factory.device.nextId == old(factory.device.nextId)
      ensures r.Ok? ==>
        && subpasses == map[]
        && fresh(r.value) && r.value.renderPass == Live(old(factory.device.nextId))
        && factory.renderPasses == old(factory.renderPasses) + {r.value.renderPass}
        && info.Some? && info.value.attachments == attachments && info.value.dependencies == dependencies
        && DescribesSorted(old(subpasses), info.value.subpasses)
    {
      if |subpasses| == 0 {
        return Err(DebugAssertion), None;
      }
      var sorted := SortByIndex(subpasses);
      subpasses := map[];
      var descriptions := Describe(sorted);
      var createInfo := RenderPassCreateInfo(attachments, descriptions, dependencies);
      var pass := factory.MakeRenderPass(createInfo);
      return Ok(pass), Some(createInfo);
    }
  }

  /** The two dependencies `add_external_dependencies` appends. */
  function ExternalDependencies(first: SubpassInfo, last: SubpassInfo): (r: seq<SubpassDependency>)
    ensures |r| == 2
    ensures r[0].src == External && r[0].dst == SubpassAt(first.index)
    ensures r[1].src == SubpassAt(first.index) && r[1].dst == External
    ensures r[0].dstStages == MakeStagesAccessFlags(first).0 && r[1].srcStages == MakeStagesAccessFlags(last).0
  {
    var (firstStage, firstAccess) := MakeStagesAccessFlags(first);
    var (lastStage, lastAccess) := MakeStagesAccessFlags(last);
    [SubpassDependency(External, SubpassAt(first.index), {BottomOfPipe}, firstStage, {}, firstAccess),
     SubpassDependency(SubpassAt(first.index), External, lastStage, {BottomOfPipe}, lastAccess, {})]
  }

  /** With two or more subpasses the outgoing dependency starts at the first subpass, not the last. */
  lemma OutgoingDependencyLeavesFromFirst(first: SubpassInfo, last: SubpassInfo)
    requires first.index < last.index
    ensures ExternalDependencies(first, last)[1].src != SubpassAt(last.index)
  {
  }

  /** `SubpassBuilder`: one subpass under construction. */
  class SubpassBuilder {
    const top: RenderPassBuilder
    const attachmentsBaseIndex: nat
    var attachments: seq<AttachmentDescription>
    var dependencies: seq<SubpassDependency>
    var info: SubpassInfo
    const name: string
    var baked: bool

    /** Every reference of the subpass points at one of its own attachments. */
    ghost predicate Valid()
      reads this
    {
      RefsWithin(info, attachmentsBaseIndex, attachmentsBaseIndex + |attachments|)
    }

    constructor (top: RenderPassBuilder, subpassIndex: nat, attachmentBaseIndex: nat, name: string)
      ensures this.top == top && attachmentsBaseIndex == attachmentBaseIndex && this.name == name
      ensures info == SubpassInfo(subpassIndex, [], [], None, None)
      ensures attachments == [] && dependencies == [] && !baked
      ensures Valid()
    {
      this.top := top;
      attachmentsBaseIndex := attachmentBaseIndex;
      this.name := name;
      info := SubpassInfo(subpassIndex, [], [], None, None);
      attachments := [];
      dependencies := [];
      baked := false;
    }

    /** The global index the next attachment gets. */
    function NextIndex(): nat
      reads this
    {
      attachmentsBaseIndex + |attachments|
    }

    /** `color_attachment`: asserts not baked and a valid sample count. */
    method AddColorAttachment(samples: nat) returns (r: Result<()>)
      requires Valid()
      modifies this`attachments, this`info
      ensures Valid()
      ensures r.Err? <==> baked || !IsSampleCount(samples)
      ensures r.Err? ==> r.error == DebugAssertion && attachments == old(attachments) && info == old(info)
      ensures r.Ok? ==>
        && attachments == old(attachments) + [ColorAttachmentDescription(top.colorFormat, samples)]
        && info == old(info).(color := old(info).color + [AttachmentReference(old(NextIndex()), ColorAttachmentOptimal)])
    {
      if baked || !IsSampleCount(samples) {
        return Err(DebugAssertion);
      }
      var index := NextIndex();
      info := info.(color := info.color + [AttachmentReference(index, ColorAttachmentOptimal)]);
      attachments := attachments + [ColorAttachmentDescription(top.colorFormat, samples)];
      return Ok(());
    }

    /** `depth_attachment`: asserts not baked, no depth yet and a valid sample count. */
    method AddDepthAttachment(samples: nat) returns (r: Result<()>)
      requires Valid()
      modifies this`attachments, this`info
      ensures Valid()
      ensures r.Err? <==> baked || old(info).depth.Some? || !IsSampleCount(samples)
      ensures r.Err? ==> r.error == DebugAssertion && attachments == old(attachments) && info == old(info)
      ensures r.Ok? ==>
        && attachments == old(attachments) + [DepthAttachmentDescription(top.depthFormat, samples)]
        && info == old(info).(depth := Some(AttachmentReference(old(NextIndex()), DepthStencilAttachmentOptimal)))
    {
      if baked || info.depth.Some? || !IsSampleCount(samples) {
        return Err(DebugAssertion);
      }
      var index := NextIndex();
      attachments := attachments + [DepthAttachmentDescription(top.depthFormat, samples)];
      info := info.(depth := Some(AttachmentReference(index, DepthStencilAttachmentOptimal)));
      return Ok(());
    }

    /** `msaa_attachment`: asserts not baked and a colour attachment present; bakes. */
    method AddMsaaAttachment() returns (r: Result<()>)
      requires Valid()
      modifies this`attachments, this`info, this`baked
      ensures Valid()
      ensures r.Err? <==> old(baked) || |old(info).color| == 0
      ensures r.Err? ==> r.error == DebugAssertion && attachments == old(attachments) && info == old(info) && baked == old(baked)
      ensures r.Ok? ==>
        && attachments == old(attachments) + [MsaaAttachmentDescription(top.colorFormat)]
        && info == old(info).(msaa := Some(AttachmentReference(old(NextIndex()), ColorAttachmentOptimal)))
        && baked
    {
      if baked || |info.color| == 0 {
        return Err(DebugAssertion);
      }
      var index := NextIndex();
      attachments := attachments + [MsaaAttachmentDescription(top.colorFormat)];
      info := info.(msaa := Some(AttachmentReference(index, ColorAttachmentOptimal)));
      baked := true;
      return Ok(());
    }

    /** `input_attachment`: asserts not baked; the colour or depth format as asked. */
    method AddInputAttachment(format: InputAttachmentFormat) returns (r: Result<()>)
      requires Valid()
      modifies this`attachments, this`info
      ensures Valid()
      ensures r.Err? <==> baked
      ensures r.Err? ==> r.error == DebugAssertion && attachments == old(attachments) && info == old(info)
      ensures r.Ok? ==>
        && attachments == old(attachments) + [InputAttachmentDescription(if format == ColorInput then top.colorFormat else top.depthFormat)]
        && info == old(info).(input := old(info).input + [AttachmentReference(old(NextIndex()), ShaderReadOnlyOptimal)])
    {
      if baked {
        return Err(DebugAssertion);
      }
      var sourceFormat := if format == ColorInput then top.colorFormat else top.depthFormat;
      var index := NextIndex();
      info := info.(input := info.input + [AttachmentReference(index, ShaderReadOnlyOptimal)]);
      attachments := attachments + [InputAttachmentDescription(sourceFormat)];
      return Ok(());
    }

    /**
     * `depend_on`: asserts the name is non-empty and names an ended subpass;
     * appends the dependency `make_dependency(current, named)` when there is
     * one, and bakes.
     */
    method DependOn(waitSubpass: string) returns (r: Result<()>)
      modifies this`dependencies, this`baked
      ensures r.Err? <==> top.GetSubpassInfo(waitSubpass).Err?
      ensures r.Err? ==> r.error == DebugAssertion && dependencies == old(dependencies) && baked == old(baked)
      ensures r.Ok? ==> baked
      ensures r.Ok? ==>
        match MakeDependency(info, top.subpasses[waitSubpass])
        case Some(d) => dependencies == old(dependencies) + [d]
        case None => dependencies == old(dependencies)
    {
      var source := top.GetSubpassInfo(waitSubpass);
      if source.Err? {
        return Err(DebugAssertion);
      }
      var dependency := MakeDependency(info, source.value);
      if dependency.Some? {
        dependencies := dependencies + [dependency.value];
      }
      baked := true;
      return Ok(());
    }

    /**
     * `end_subpass`: asserts that a resolve attachment comes with colour and
     * that there is an attachment, presents the last attachment if it ends in
     * `ColorAttachmentOptimal`, and hands everything to the render-pass builder.
     */
    method EndSubpass() returns (r: Result<RenderPassBuilder>)
      requires Valid()
      modifies top`attachments, top`dependencies, top`subpasses, top`subpassIndex, top`baseAttachmentIndex
      ensures r.Err? <==> (info.msaa.Some? && |info.color| == 0) || |attachments| == 0
      ensures r.Err? ==> r.error == DebugAssertion && unchanged(top)
      ensures r.Ok? ==>
        && r.value == top
        && top.attachments == old(top.attachments) + PresentLast(attachments)
        && top.dependencies == old(top.dependencies) + dependencies
        && top.subpasses == (if name in old(top.subpasses) then old(top.subpasses) else old(top.subpasses)[name := info])
        && top.subpassIndex == old(top.subpassIndex) + 1
        && top.baseAttachmentIndex == old(top.baseAttachmentIndex) + |attachments|
      ensures r.Ok? && old(top.Valid()) && attachmentsBaseIndex == old(top.baseAttachmentIndex) && info.index == old(top.subpassIndex) ==>
        top.Valid()
    {
      if (info.msaa.Some? && |info.color| == 0) || |attachments| == 0 {
        return Err(DebugAssertion);
      }
      var presented := PresentLast(attachments);
      top.AdoptSubpass(name, info, presented, dependencies);
      return Ok(top);
    }
  }
}
