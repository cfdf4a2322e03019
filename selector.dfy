// Physical-device selection and logical-device creation (dv::Selector).
// The capability checks defined here are also the ones the two Device
// variants use; each of those source files carries its own copy of them.

module Selector {
  import opened Common
  import opened Vk

  /** Number of VkBool32 members of VkPhysicalDeviceFeatures and of the Vulkan 1.1/1.2/1.3 feature structs. */
  const CORE_FEATURE_COUNT: nat := 55
  const VK11_FEATURE_COUNT: nat := 12
  const VK12_FEATURE_COUNT: nat := 47
  const VK13_FEATURE_COUNT: nat := 15

  /** `1ull << 63`, added to the score of a device of the preferred type. */
  const PREFERRED_BONUS: nat := 0x8000_0000_0000_0000

  datatype DeviceType = OtherDevice | IntegratedGpu | DiscreteGpu | VirtualGpu | CpuDevice

  datatype QueueBit = GraphicsBit | ComputeBit | TransferBit | SparseBindingBit | ProtectedBit | OtherQueueBit(bit: nat)
  type QueueFlags = set<QueueBit>

  /** A queue family: its capability flags and whether it can present to the window surface. */
  datatype QueueFamily = QueueFamily(flags: QueueFlags, presentSupport: bool)
  datatype MemoryHeap = MemoryHeap(size: u64, deviceLocal: bool)

  /** The VkBool32 members of the four feature structs, in declaration order. */
  datatype FeatureSet = FeatureSet(core: seq<bool>, vk11: seq<bool>, vk12: seq<bool>, vk13: seq<bool>)

  /** What the engine queries of one enumerated physical device. */
  datatype PhysicalDevice = PhysicalDevice(
    apiVersion: u32, deviceType: DeviceType, extensions: seq<string>,
    features: FeatureSet, families: seq<QueueFamily>, heaps: seq<MemoryHeap>)

  // ---- API version ----

  /** VK_API_VERSION_MAJOR: bits 22..28. */
  function ApiMajor(v: u32): nat { (v / 0x40_0000) % 0x80 }
  /** VK_API_VERSION_MINOR: bits 12..21. */
  function ApiMinor(v: u32): nat { (v / 0x1000) % 0x400 }

  /** VK_MAKE_API_VERSION(0, major, minor, patch). */
  function MakeApiVersion(major: nat, minor: nat, patch: nat): u32
    requires major < 0x80 && minor < 0x400 && patch < 0x1000
  {
    major * 0x40_0000 + minor * 0x1000 + patch
  }

  lemma ApiVersionFields(major: nat, minor: nat, patch: nat)
    requires major < 0x80 && minor < 0x400 && patch < 0x1000
    ensures ApiMajor(MakeApiVersion(major, minor, patch)) == major
    ensures ApiMinor(MakeApiVersion(major, minor, patch)) == minor
  {
    var v := MakeApiVersion(major, minor, patch);
    assert v / 0x40_0000 == major by {
      assert major * 0x40_0000 <= v < (major + 1) * 0x40_0000;
    }
    assert v / 0x1000 == major * 0x400 + minor by {
      assert (major * 0x400 + minor) * 0x1000 <= v < (major * 0x400 + minor + 1) * 0x1000;
    }
  }

  /** check_api_ver: the major and the minor number are each compared on their own. */
  predicate ApiVersionSufficient(requiredMajor: nat, requiredMinor: nat, v: u32)
  {
    ApiMajor(v) >= requiredMajor && ApiMinor(v) >= requiredMinor
  }

  /** The check is component-wise, not lexicographic: a 2.0 device fails a 1.3 requirement. */
  lemma ApiCheckIsComponentwise()
    ensures !ApiVersionSufficient(1, 3, MakeApiVersion(2, 0, 0))
    ensures ApiVersionSufficient(1, 3, MakeApiVersion(1, 3, 0))
  {
    assert MakeApiVersion(2, 0, 0) == 0x80_0000;
    assert ApiMinor(0x80_0000) == 0;
    assert MakeApiVersion(1, 3, 0) == 0x40_3000;
    assert ApiMajor(0x40_3000) == 1 && ApiMinor(0x40_3000) == 3;
  }

  // ---- extensions ----

  /** check_extensions: erases every available name from a copy of the required set and passes
      when nothing is left. The caller's set is a value and is not affected. */
  method CheckExtensions(required: set<string>, available: seq<string>) returns (passed: bool)
    ensures passed <==> forall e :: e in required ==> e in available
  {
    var missing := required;
    for i := 0 to |available|
      invariant missing <= required
      invariant forall e :: e in required ==> (e in missing <==> e !in available[..i])
    {
      if available[i] in missing {
        missing := missing - {available[i]};
      }
    }
    assert available[..|available|] == available;
    passed := |missing| == 0;
  }

  /** check_extension: a linear search of the available names. */
  method CheckExtension(available: seq<string>, name: string) returns (found: bool)
    ensures found <==> name in available
  {
    for i := 0 to |available|
      invariant name !in available[..i]
    {
      if available[i] == name {
        return true;
      }
    }
    assert available[..|available|] == available;
    return false;
  }

  /** The optional names that the device reports, in their original order. */
  function AvailableOnly(names: seq<string>, available: seq<string>): (r: seq<string>)
    ensures forall e :: e in r <==> e in names && e in available
    ensures |r| <= |names|
  {
    if names == [] then []
    else
      var init := AvailableOnly(names[..|names| - 1], available);
      assert forall e :: e in names <==> e in names[..|names| - 1] || e == names[|names| - 1];
      if names[|names| - 1] in available then init + [names[|names| - 1]] else init
  }

  /** The loop that appends each available optional extension, in the order the caller listed them. */
  method AppendAvailable(base: seq<string>, optional: seq<string>, available: seq<string>) returns (r: seq<string>)
    ensures r == base + AvailableOnly(optional, available)
  {
    r := base;
    for i := 0 to |optional|
      invariant r == base + AvailableOnly(optional[..i], available)
    {
      assert optional[..i + 1][..i] == optional[..i];
      var found := CheckExtension(available, optional[i]);
      if found {
        r := r + [optional[i]];
      }
    }
    assert optional[..|optional|] == optional;
  }

  // ---- features ----

  predicate WellFormed(f: FeatureSet)
  {
    |f.core| == CORE_FEATURE_COUNT && |f.vk11| == VK11_FEATURE_COUNT &&
    |f.vk12| == VK12_FEATURE_COUNT && |f.vk13| == VK13_FEATURE_COUNT
  }

  /** Value-initialised feature structs: nothing required. */
  function NoFeatures(): (f: FeatureSet)
    ensures WellFormed(f)
  {
    FeatureSet(seq(CORE_FEATURE_COUNT, _ => false), seq(VK11_FEATURE_COUNT, _ => false),
               seq(VK12_FEATURE_COUNT, _ => false), seq(VK13_FEATURE_COUNT, _ => false))
  }

  /** Every feature that is required is available. */
  predicate Covers(available: seq<bool>, required: seq<bool>)
    requires |available| == |required|
  {
    forall i :: 0 <= i < |available| ==> required[i] ==> available[i]
  }

  predicate CoversAll(available: FeatureSet, required: FeatureSet)
    requires WellFormed(available) && WellFormed(required)
  {
    Covers(available.core, required.core) && Covers(available.vk11, required.vk11) &&
    Covers(available.vk12, required.vk12) && Covers(available.vk13, required.vk13)
  }

  /** check_features<T>: the loop over the flattened VkBool32 members. */
  method CheckFeatures(available: seq<bool>, required: seq<bool>) returns (passed: bool)
    requires |available| == |required|
    ensures passed <==> Covers(available, required)
  {
    passed := true;
    for i := 0 to |available|
      invariant passed <==> forall j :: 0 <= j < i ==> required[j] ==> available[j]
    {
      if required[i] && !available[i] {
        passed := false;
      }
    }
  }

  /** check_core_features: the conjunction over the core, 1.1, 1.2 and 1.3 structs. */
  method CheckCoreFeatures(available: FeatureSet, required: FeatureSet) returns (passed: bool)
    requires WellFormed(available) && WellFormed(required)
    ensures passed <==> CoversAll(available, required)
  {
    var core := CheckFeatures(available.core, required.core);
    var vk11 := CheckFeatures(available.vk11, required.vk11);
    var vk12 := CheckFeatures(available.vk12, required.vk12);
    var vk13 := CheckFeatures(available.vk13, required.vk13);
    passed := core && vk11 && vk12 && vk13;
  }

  /** Requiring nothing passes on any device. */
  lemma NothingRequiredPasses(available: FeatureSet)
    requires WellFormed(available)
    ensures CoversAll(available, NoFeatures())
  {
  }

  // ---- queue families ----

  /** `(flags & mask) == mask`. */
  predicate Supports(family: QueueFamily, mask: QueueFlags)
  {
    mask <= family.flags
  }

  predicate Satisfiable(families: seq<QueueFamily>, mask: QueueFlags)
  {
    exists k :: 0 <= k < |families| && Supports(families[k], mask)
  }

  predicate AllSatisfiable(families: seq<QueueFamily>, masks: seq<QueueFlags>)
  {
    forall q :: 0 <= q < |masks| ==> Satisfiable(families, masks[q])
  }

  /** A family that covers the mask with the fewest capability bits (std::popcount) of all that do. */
  predicate IsBestFamily(families: seq<QueueFamily>, mask: QueueFlags, k: nat)
  {
    k < |families| && Supports(families[k], mask) &&
    forall j :: 0 <= j < |families| && Supports(families[j], mask) ==> |families[k].flags| <= |families[j].flags|
  }

  predicate IsQueueAssignment(families: seq<QueueFamily>, masks: seq<QueueFlags>, mapping: seq<nat>)
  {
    |mapping| == |masks| && forall q :: 0 <= q < |masks| ==> IsBestFamily(families, masks[q], mapping[q])
  }

  /** One step of the assignment loop: the prefix assignment grows by one best family. */
  lemma AssignmentStep(families: seq<QueueFamily>, masks: seq<QueueFlags>, i: nat, mapping: seq<nat>, k: nat)
    requires i < |masks| && IsQueueAssignment(families, masks[..i], mapping) && IsBestFamily(families, masks[i], k)
    ensures IsQueueAssignment(families, masks[..i + 1], mapping + [k])
    ensures Dedup(mapping + [k]) == if k in mapping then Dedup(mapping) else Dedup(mapping) + [k]
    ensures forall x :: x in mapping + [k] <==> x in mapping || x == k
  {
    var m, p := masks[..i + 1], mapping + [k];
    forall q | 0 <= q < |m| ensures IsBestFamily(families, m[q], p[q]) {
      if q < i { assert m[q] == masks[..i][q] && p[q] == mapping[q]; }
    }
    DedupSnoc(mapping, k);
  }

  /** <queue family index, count of its capabilities>. */
  datatype QueueCount = QueueCount(family: nat, capabilities: nat)

  /** The candidate list the first loop builds for one requested mask. */
  function Candidates(families: seq<QueueFamily>, mask: QueueFlags): seq<QueueCount>
  {
    if families == [] then []
    else
      var last := |families| - 1;
      Candidates(families[..last], mask) +
        (if Supports(families[last], mask) then [QueueCount(last, |families[last].flags|)] else [])
  }

  lemma {:induction false} CandidatesMeaning(families: seq<QueueFamily>, mask: QueueFlags, e: QueueCount)
    ensures e in Candidates(families, mask) <==>
      e.family < |families| && Supports(families[e.family], mask) && e.capabilities == |families[e.family].flags|
  {
    if families != [] {
      var last := |families| - 1;
      CandidatesMeaning(families[..last], mask, e);
      if e.family < last {
        assert families[..last][e.family] == families[e.family];
      }
    }
  }

  lemma CandidatesNonEmpty(families: seq<QueueFamily>, mask: QueueFlags)
    requires Satisfiable(families, mask)
    ensures |Candidates(families, mask)| > 0
  {
    var k :| 0 <= k < |families| && Supports(families[k], mask);
    CandidatesMeaning(families, mask, QueueCount(k, |families[k].flags|));
  }

  /** The first loop of create_queue_infos / get_queue_families: a candidate list per mask. */
  method CollectCandidates(families: seq<QueueFamily>, masks: seq<QueueFlags>) returns (counters: seq<seq<QueueCount>>)
    ensures |counters| == |masks|
    ensures forall q :: 0 <= q < |masks| ==> counters[q] == Candidates(families, masks[q])
  {
    counters := seq(|masks|, _ => []);
    for i := 0 to |families|
      invariant |counters| == |masks|
      invariant forall q :: 0 <= q < |masks| ==> counters[q] == Candidates(families[..i], masks[q])
    {
      var flags := families[i].flags;
      var capabilityCount := |flags|;
      assert families[..i + 1][..i] == families[..i];
      for q := 0 to |masks|
        invariant |counters| == |masks|
        invariant forall p :: 0 <= p < q ==> counters[p] == Candidates(families[..i + 1], masks[p])
        invariant forall p :: q <= p < |masks| ==> counters[p] == Candidates(families[..i], masks[p])
      {
        if masks[q] <= flags {
          counters := counters[q := counters[q] + [QueueCount(i, capabilityCount)]];
        }
      }
    }
    assert families[..|families|] == families;
  }

  /** Sorting a candidate list by capability count and taking its front: an entry with the fewest. */
  method FewestCapabilities(candidates: seq<QueueCount>) returns (family: nat)
    requires |candidates| > 0
    ensures exists k :: 0 <= k < |candidates| && candidates[k].family == family &&
              forall j :: 0 <= j < |candidates| ==> candidates[k].capabilities <= candidates[j].capabilities
  {
    var best := 0;
    for i := 1 to |candidates|
      invariant best < |candidates|
      invariant forall j :: 0 <= j < i ==> candidates[best].capabilities <= candidates[j].capabilities
    {
      if candidates[i].capabilities < candidates[best].capabilities {
        best := i;
      }
    }
    family := candidates[best].family;
  }

  /** The family picked from a mask's candidate list is a best family for that mask. */
  lemma PickedIsBest(families: seq<QueueFamily>, mask: QueueFlags, family: nat)
    requires exists k :: 0 <= k < |Candidates(families, mask)| && Candidates(families, mask)[k].family == family &&
               forall j :: 0 <= j < |Candidates(families, mask)| ==>
                 Candidates(families, mask)[k].capabilities <= Candidates(families, mask)[j].capabilities
    ensures IsBestFamily(families, mask, family)
  {
    var c := Candidates(families, mask);
    var k :| 0 <= k < |c| && c[k].family == family && forall j :: 0 <= j < |c| ==> c[k].capabilities <= c[j].capabilities;
    CandidatesMeaning(families, mask, c[k]);
    forall j | 0 <= j < |families| && Supports(families[j], mask)
      ensures |families[family].flags| <= |families[j].flags|
    {
      var e := QueueCount(j, |families[j].flags|);
      CandidatesMeaning(families, mask, e);
      var i :| 0 <= i < |c| && c[i] == e;
    }
  }

  /** A family exposing nothing but transfer wins the transfer role over a universal family. */
  lemma DedicatedTransferPreferred(k: nat)
    requires IsBestFamily([QueueFamily({GraphicsBit, ComputeBit, TransferBit}, true), QueueFamily({TransferBit}, false)], {TransferBit}, k)
    ensures k == 1
  {
    var families := [QueueFamily({GraphicsBit, ComputeBit, TransferBit}, true), QueueFamily({TransferBit}, false)];
    assert Supports(families[1], {TransferBit});
    assert |families[1].flags| == 1;
    assert |families[0].flags| == 3;
  }

  /** One queue of each listed family, in the order given. */
  function SingleQueueInfos(families: seq<nat>): (r: seq<QueueCreateInfo>)
    ensures |r| == |families|
    ensures forall i :: 0 <= i < |r| ==> r[i].family == families[i] && r[i].count == 1
  {
    seq(|families|, i requires 0 <= i < |families| => QueueCreateInfo(families[i], 1))
  }

  // ---- memory score ----

  /** The exact total size of the device-local heaps. */
  function LocalHeapBytes(heaps: seq<MemoryHeap>): nat
  {
    if heaps == [] then 0
    else
      var last := heaps[|heaps| - 1];
      LocalHeapBytes(heaps[..|heaps| - 1]) + (if last.deviceLocal then last.size else 0)
  }

  lemma ModAddLeft(a: nat, b: nat)
    ensures ((a % U64_LIMIT) + b) % U64_LIMIT == (a + b) % U64_LIMIT
  {
    var q := a / U64_LIMIT;
    var r := a % U64_LIMIT;
    assert a == q * U64_LIMIT + r;
    var s := (r + b) % U64_LIMIT;
    var t := (r + b) / U64_LIMIT;
    assert r + b == t * U64_LIMIT + s;
    assert a + b == (q + t) * U64_LIMIT + s;
  }

  /** The vk::DeviceSize (uint64) sum of device-local heap sizes, wrapping modulo 2^64. */
  method LocalMemorySize(heaps: seq<MemoryHeap>) returns (size: u64)
    ensures size == LocalHeapBytes(heaps) % U64_LIMIT
  {
    size := 0;
    for i := 0 to |heaps|
      invariant size == LocalHeapBytes(heaps[..i]) % U64_LIMIT
    {
      assert heaps[..i + 1][..i] == heaps[..i];
      if heaps[i].deviceLocal {
        ModAddLeft(LocalHeapBytes(heaps[..i]), heaps[i].size);
        size := (size + heaps[i].size) % U64_LIMIT;
      }
    }
    assert heaps[..|heaps|] == heaps;
  }

  /** The sort key of a passing device: local memory, plus 2^63 for the preferred type, as a uint64. */
  function Score(heaps: seq<MemoryHeap>, preferred: bool): u64
  {
    (LocalHeapBytes(heaps) + (if preferred then PREFERRED_BONUS else 0)) % U64_LIMIT
  }

  /** While local memory stays below 2^63 bytes, a device of the preferred type outranks every other one. */
  lemma PreferredTypeOutranks(a: seq<MemoryHeap>, b: seq<MemoryHeap>)
    requires LocalHeapBytes(a) < PREFERRED_BONUS && LocalHeapBytes(b) < PREFERRED_BONUS
    ensures Score(a, true) > Score(b, false)
  {
  }

  /** Once local memory reaches 2^63 bytes the bonus wraps: such a preferred device scores below zero-memory devices' bonus. */
  lemma BonusWrapsAround()
    ensures Score([MemoryHeap(PREFERRED_BONUS, true)], true) == 0
    ensures Score([MemoryHeap(PREFERRED_BONUS, true)], true) < Score([], false) + 1
  {
    var h := [MemoryHeap(PREFERRED_BONUS, true)];
    assert h[..0] == [];
    assert LocalHeapBytes(h) == PREFERRED_BONUS;
  }

  // ---- choosing among the passing devices ----

  datatype Match = Match(device: nat, score: u64)

  /** Sorting the matches by descending score and taking the front: a match with the highest score. */
  method HighestScore(matching: seq<Match>) returns (k: nat)
    requires |matching| > 0
    ensures k < |matching|
    ensures forall j :: 0 <= j < |matching| ==> matching[j].score <= matching[k].score
  {
    k := 0;
    for i := 1 to |matching|
      invariant k < |matching|
      invariant forall j :: 0 <= j < i ==> matching[j].score <= matching[k].score
    {
      if matching[i].score > matching[k].score {
        k := i;
      }
    }
  }

  /** Some assigned queue family can present to the surface. */
  predicate PresentsOn(families: seq<QueueFamily>, mapping: seq<nat>)
  {
    exists q :: 0 <= q < |mapping| && mapping[q] < |families| && families[mapping[q]].presentSupport
  }

  /** The pNext chain head: core features, then 1.1, 1.2 and 1.3 as far as the required minor version reaches. */
  function MainChain(requiredMinor: nat): (chain: seq<FeatureLink>)
    ensures |chain| >= 1 && chain[0] == CoreFeatures
    ensures Vk11Features in chain <==> requiredMinor >= 1
    ensures Vk12Features in chain <==> requiredMinor >= 2
    ensures Vk13Features in chain <==> requiredMinor >= 3
    ensures forall i :: 0 <= i < |chain| ==> !chain[i].ExtraFeatures?
  {
    [CoreFeatures]
      + (if requiredMinor >= 1 then [Vk11Features] else [])
      + (if requiredMinor >= 2 then [Vk12Features] else [])
      + (if requiredMinor >= 3 then [Vk13Features] else [])
  }

  /** A snapshot of the requirements the device checks read. The three selection routines differ in
      two respects: whether they check features (`checkFeatures`) and whether a device of the
      preferred type gets the 2^63 bonus (`typeBonus`). */
  datatype Requirements = Requirements(
    major: u32, minor: u32, extensions: seq<string>, features: FeatureSet,
    queues: seq<QueueFlags>, preferred: DeviceType, checkFeatures: bool, typeBonus: bool)

  /** create_queue_infos: per requested mask a best family, and one queue create-info per distinct
      family in the order of first use. */
  method CreateQueueInfos(families: seq<QueueFamily>, masks: seq<QueueFlags>)
    returns (infos: seq<QueueCreateInfo>, mapping: seq<nat>)
    requires AllSatisfiable(families, masks)
    ensures IsQueueAssignment(families, masks, mapping)
    ensures infos == SingleQueueInfos(Dedup(mapping))
    ensures forall k :: 0 <= k < |infos| ==> infos[k].family < |families|
  {
    var counters := CollectCandidates(families, masks);
    var picked: seq<nat> := [];
    var unique: set<nat> := {};
    mapping := [];
    for i := 0 to |masks|
      invariant |mapping| == i
      invariant IsQueueAssignment(families, masks[..i], mapping)
      invariant picked == Dedup(mapping)
      invariant forall x :: x in unique <==> x in mapping
    {
      CandidatesNonEmpty(families, masks[i]);
      var family := FewestCapabilities(counters[i]);
      PickedIsBest(families, masks[i], family);
      AssignmentStep(families, masks, i, mapping, family);
      if family !in unique {
        picked := picked + [family];
        unique := unique + {family};
      }
      mapping := mapping + [family];
    }
    assert masks[..|masks|] == masks;
    infos := SingleQueueInfos(picked);
    forall k | 0 <= k < |infos| ensures infos[k].family < |families| {
      assert picked[k] in mapping;
    }
  }

  /** check_presentation: passes without a surface; otherwise some family of the queue
      assignment (returned as `mapping`) must support the surface. */
  method CheckPresentation(families: seq<QueueFamily>, masks: seq<QueueFlags>, hasSurface: bool)
    returns (passed: bool, ghost mapping: seq<nat>)
    requires hasSurface ==> AllSatisfiable(families, masks)
    ensures hasSurface ==> IsQueueAssignment(families, masks, mapping)
    ensures passed <==> !hasSurface || PresentsOn(families, mapping)
  {
    mapping := [];
    if !hasSurface {
      return true, mapping;
    }
    var infos;
    infos, mapping := CreateQueueInfos(families, masks);
    passed := false;
    for i := 0 to |infos|
      invariant passed <==> exists j :: 0 <= j < i && families[infos[j].family].presentSupport
    {
      passed := passed || families[infos[i].family].presentSupport;
    }
    if passed {
      ghost var j :| 0 <= j < |infos| && families[infos[j].family].presentSupport;
      assert infos[j].family in Dedup(mapping);
      ghost var q :| 0 <= q < |mapping| && mapping[q] == infos[j].family;
    }
    if PresentsOn(families, mapping) {
      ghost var q :| 0 <= q < |mapping| && mapping[q] < |families| && families[mapping[q]].presentSupport;
      assert mapping[q] in Dedup(mapping);
      ghost var j :| 0 <= j < |Dedup(mapping)| && Dedup(mapping)[j] == mapping[q];
      assert infos[j].family == mapping[q];
    }
  }

  /** Every check select_physical_device applies to one device; `mapping` is the queue assignment
      the presentation check used. */
  ghost predicate Passes(req: Requirements, d: PhysicalDevice, hasSurface: bool, mapping: seq<nat>)
    requires req.checkFeatures ==> WellFormed(req.features) && WellFormed(d.features)
  {
    ApiVersionSufficient(req.major, req.minor, d.apiVersion) &&
    (forall e :: e in req.extensions ==> e in d.extensions) &&
    (req.checkFeatures ==> CoversAll(d.features, req.features)) &&
    (!hasSurface || PresentsOn(d.families, mapping))
  }

  /** The sort key of one device. */
  function DeviceScore(req: Requirements, d: PhysicalDevice): u64
  {
    Score(d.heaps, req.typeBonus && d.deviceType == req.preferred)
  }

  /** The body of the selection loop for one device: every check runs, and a passing device is scored. */
  method Evaluate(req: Requirements, required: set<string>, d: PhysicalDevice, hasSurface: bool)
    returns (ok: bool, score: u64, ghost mapping: seq<nat>)
    requires WellFormed(req.features) && WellFormed(d.features)
    requires req.checkFeatures && req.typeBonus
    requires required == set e | e in req.extensions
    requires hasSurface ==> AllSatisfiable(d.families, req.queues)
    ensures ok <==> Passes(req, d, hasSurface, mapping)
    ensures hasSurface ==> IsQueueAssignment(d.families, req.queues, mapping)
    ensures ok ==> score == DeviceScore(req, d)
  {
    var apiOk := ApiVersionSufficient(req.major, req.minor, d.apiVersion);
    var extOk := CheckExtensions(required, d.extensions);
    var featOk := CheckCoreFeatures(d.features, req.features);
    var presentOk;
    presentOk, mapping := CheckPresentation(d.families, req.queues, hasSurface);
    ok := apiOk && extOk && featOk && presentOk;
    score := 0;
    if ok {
      score := LocalMemorySize(d.heaps);
      if d.deviceType == req.preferred {
        ModAddLeft(LocalHeapBytes(d.heaps), PREFERRED_BONUS);
        score := (score + PREFERRED_BONUS) % U64_LIMIT;
      }
    }
  }

  /** The first `n` verdicts and queue assignments agree with Passes; stated one device at a time so
      that the selection loop only ever looks at the newest one. */
  ghost predicate VerdictsUpTo(req: Requirements, devices: seq<PhysicalDevice>, hasSurface: bool,
                               passed: seq<bool>, mappings: seq<seq<nat>>, n: nat)
    requires req.checkFeatures ==> WellFormed(req.features) && forall i :: 0 <= i < |devices| ==> WellFormed(devices[i].features)
    requires n <= |devices| && n <= |passed| && n <= |mappings|
    decreases n
  {
    n == 0 ||
    (VerdictsUpTo(req, devices, hasSurface, passed, mappings, n - 1) &&
     (passed[n - 1] <==> Passes(req, devices[n - 1], hasSurface, mappings[n - 1])) &&
     (hasSurface ==> IsQueueAssignment(devices[n - 1].families, req.queues, mappings[n - 1])))
  }

  lemma {:induction false} VerdictsExtend(req: Requirements, devices: seq<PhysicalDevice>, hasSurface: bool,
                                          passed: seq<bool>, mappings: seq<seq<nat>>, ok: bool, mapping: seq<nat>, n: nat)
    requires req.checkFeatures ==> WellFormed(req.features) && forall i :: 0 <= i < |devices| ==> WellFormed(devices[i].features)
    requires n <= |devices| && n <= |passed| && n <= |mappings|
    requires VerdictsUpTo(req, devices, hasSurface, passed, mappings, n)
    ensures VerdictsUpTo(req, devices, hasSurface, passed + [ok], mappings + [mapping], n)
    decreases n
  {
    if n > 0 {
      VerdictsExtend(req, devices, hasSurface, passed, mappings, ok, mapping, n - 1);
      assert (passed + [ok])[n - 1] == passed[n - 1];
      assert (mappings + [mapping])[n - 1] == mappings[n - 1];
    }
  }

  /** The verdict on device `n` joins the first `n`. */
  lemma VerdictsStep(req: Requirements, devices: seq<PhysicalDevice>, hasSurface: bool,
                     passed: seq<bool>, mappings: seq<seq<nat>>, ok: bool, mapping: seq<nat>, n: nat)
    requires req.checkFeatures ==> WellFormed(req.features) && forall i :: 0 <= i < |devices| ==> WellFormed(devices[i].features)
    requires n < |devices| && n == |passed| && n == |mappings|
    requires VerdictsUpTo(req, devices, hasSurface, passed, mappings, n)
    requires ok <==> Passes(req, devices[n], hasSurface, mapping)
    requires hasSurface ==> IsQueueAssignment(devices[n].families, req.queues, mapping)
    ensures VerdictsUpTo(req, devices, hasSurface, passed + [ok], mappings + [mapping], n + 1)
  {
    VerdictsExtend(req, devices, hasSurface, passed, mappings, ok, mapping, n);
    assert (passed + [ok])[n] == ok && (mappings + [mapping])[n] == mapping;
  }

  lemma {:induction false} VerdictsMeaning(req: Requirements, devices: seq<PhysicalDevice>, hasSurface: bool,
                                           passed: seq<bool>, mappings: seq<seq<nat>>, n: nat, j: nat)
    requires req.checkFeatures ==> WellFormed(req.features) && forall i :: 0 <= i < |devices| ==> WellFormed(devices[i].features)
    requires n <= |devices| && n <= |passed| && n <= |mappings|
    requires VerdictsUpTo(req, devices, hasSurface, passed, mappings, n)
    requires j < n
    ensures passed[j] <==> Passes(req, devices[j], hasSurface, mappings[j])
    ensures hasSurface ==> IsQueueAssignment(devices[j].families, req.queues, mappings[j])
    decreases n
  {
    if j < n - 1 {
      VerdictsMeaning(req, devices, hasSurface, passed, mappings, n - 1, j);
    }
  }

  /** The invariant of the selection loop about its output: the first `n` devices that passed are
      listed, each with its score, and `slot` says where. */
  ghost predicate Listed(req: Requirements, devices: seq<PhysicalDevice>, passed: seq<bool>, matching: seq<Match>,
                         slot: seq<int>, n: nat)
    requires n <= |devices| && n == |passed|
  {
    (forall m :: 0 <= m < |matching| ==> matching[m].device < n) &&
    (forall m :: 0 <= m < |matching| ==> passed[matching[m].device]) &&
    (forall m :: 0 <= m < |matching| ==> matching[m].score == DeviceScore(req, devices[matching[m].device])) &&
    |slot| == n &&
    (forall j :: 0 <= j < n && passed[j] ==> 0 <= slot[j] < |matching| && matching[slot[j]].device == j)
  }

  /** A passing device is listed at the end, with its score. */
  lemma ListedAdd(req: Requirements, devices: seq<PhysicalDevice>, passed: seq<bool>, matching: seq<Match>,
                  slot: seq<int>, n: nat, score: u64)
    requires n < |devices| && n == |passed|
    requires Listed(req, devices, passed, matching, slot, n)
    requires score == DeviceScore(req, devices[n])
    ensures Listed(req, devices, passed + [true], matching + [Match(n, score)], slot + [|matching|], n + 1)
  {
    var matching', passed' := matching + [Match(n, score)], passed + [true];
    assert forall m :: 0 <= m < |matching| ==> matching'[m] == matching[m];
    assert forall j :: 0 <= j < n ==> passed'[j] == passed[j];
  }

  /** A failing device leaves the list as it is. */
  lemma ListedSkip(req: Requirements, devices: seq<PhysicalDevice>, passed: seq<bool>, matching: seq<Match>,
                   slot: seq<int>, n: nat)
    requires n < |devices| && n == |passed|
    requires Listed(req, devices, passed, matching, slot, n)
    ensures Listed(req, devices, passed + [false], matching, slot + [|matching| - 1], n + 1)
  {
    var passed' := passed + [false];
    assert forall j :: 0 <= j < n ==> passed'[j] == passed[j];
  }

  /** The selection loop: every device is evaluated, and each passing one is listed with its score. */
  method MatchDevices(req: Requirements, devices: seq<PhysicalDevice>, hasSurface: bool)
    returns (matching: seq<Match>, ghost passed: seq<bool>, ghost mappings: seq<seq<nat>>)
    requires WellFormed(req.features) && req.checkFeatures && req.typeBonus
    requires forall i :: 0 <= i < |devices| ==> WellFormed(devices[i].features)
    requires hasSurface ==> forall i :: 0 <= i < |devices| ==> AllSatisfiable(devices[i].families, req.queues)
    ensures |passed| == |devices| && |mappings| == |devices|
    ensures forall i :: 0 <= i < |devices| ==> (passed[i] <==> Passes(req, devices[i], hasSurface, mappings[i]))
    ensures hasSurface ==> forall i :: 0 <= i < |devices| ==> IsQueueAssignment(devices[i].families, req.queues, mappings[i])
    ensures forall m :: 0 <= m < |matching| ==> matching[m].device < |devices|
    ensures forall m :: 0 <= m < |matching| ==> passed[matching[m].device]
    ensures forall m :: 0 <= m < |matching| ==> matching[m].score == DeviceScore(req, devices[matching[m].device])
    ensures forall j :: 0 <= j < |devices| && passed[j] ==> exists m :: 0 <= m < |matching| && matching[m].device == j
  {
    var required := set e | e in req.extensions;
    matching := [];
    ghost var slot: seq<int> := [];
    passed, mappings := [], [];
    for i := 0 to |devices|
      invariant |passed| == i && |mappings| == i
      invariant VerdictsUpTo(req, devices, hasSurface, passed, mappings, i)
      invariant Listed(req, devices, passed, matching, slot, i)
    {
      var ok, score, mapping := Evaluate(req, required, devices[i], hasSurface);
      VerdictsStep(req, devices, hasSurface, passed, mappings, ok, mapping, i);
      if ok {
        ListedAdd(req, devices, passed, matching, slot, i, score);
        matching := matching + [Match(i, score)];
      } else {
        ListedSkip(req, devices, passed, matching, slot, i);
      }
      slot := slot + [|matching| - 1];
      passed := passed + [ok];
      mappings := mappings + [mapping];
    }
    forall j | 0 <= j < |devices| && passed[j]
      ensures exists m :: 0 <= m < |matching| && matching[m].device == j
    {
      assert matching[slot[j]].device == j;
    }
    forall j | 0 <= j < |devices|
      ensures passed[j] <==> Passes(req, devices[j], hasSurface, mappings[j])
      ensures hasSurface ==> IsQueueAssignment(devices[j].families, req.queues, mappings[j])
    {
      VerdictsMeaning(req, devices, hasSurface, passed, mappings, |devices|, j);
    }
  }

  /** dv::Selector: requirements and preferences, set by the caller before selection. */
  class Selector {
    var requiredMajor: u32
    var requiredMinor: u32
    var preferredType: DeviceType
    var requiredExtensions: seq<string>
    var optionalExtensions: seq<string>
    var requiredFeatures: FeatureSet
    var requiredQueues: seq<QueueFlags>

    ghost predicate Valid()
      reads this
    {
      WellFormed(requiredFeatures)
    }

    /** The member defaults: Vulkan 1.0, a discrete GPU preferred, nothing else required. */
    constructor ()
      ensures Valid()
      ensures requiredMajor == 1 && requiredMinor == 0 && preferredType == DiscreteGpu
      ensures requiredExtensions == [] && optionalExtensions == [] && requiredQueues == []
      ensures requiredFeatures == NoFeatures()
    {
      requiredMajor := 1;
      requiredMinor := 0;
      preferredType := DiscreteGpu;
      requiredExtensions := [];
      optionalExtensions := [];
      requiredFeatures := NoFeatures();
      requiredQueues := [];
    }

    function Current(): Requirements
      reads this
    {
      Requirements(requiredMajor, requiredMinor, requiredExtensions, requiredFeatures, requiredQueues, preferredType,
                   true, true)
    }

    /** select_physical_device: the passing device with the highest score, or None where the source
        calls exit(0). `passed` and `mappings` record each device's verdict and queue assignment. */
    method SelectPhysicalDevice(devices: seq<PhysicalDevice>, hasSurface: bool)
      returns (chosen: Option<nat>, ghost passed: seq<bool>, ghost mappings: seq<seq<nat>>)
      requires Valid()
      requires forall i :: 0 <= i < |devices| ==> WellFormed(devices[i].features)
      requires hasSurface ==> forall i :: 0 <= i < |devices| ==> AllSatisfiable(devices[i].families, requiredQueues)
      ensures |passed| == |devices| && |mappings| == |devices|
      ensures forall i :: 0 <= i < |devices| ==> (passed[i] <==> Passes(Current(), devices[i], hasSurface, mappings[i]))
      ensures hasSurface ==> forall i :: 0 <= i < |devices| ==> IsQueueAssignment(devices[i].families, requiredQueues, mappings[i])
      ensures chosen.None? <==> forall i :: 0 <= i < |devices| ==> !passed[i]
      ensures chosen.Some? ==> chosen.value < |devices| && passed[chosen.value]
      ensures chosen.Some? ==> forall j :: 0 <= j < |devices| && passed[j] ==>
                DeviceScore(Current(), devices[j]) <= DeviceScore(Current(), devices[chosen.value])
    {
      var req := Current();
      var matching;
      matching, passed, mappings := MatchDevices(req, devices, hasSurface);
      if |matching| == 0 {
        return None, passed, mappings;
      }
      var k := HighestScore(matching);
      chosen := Some(matching[k].device);
      forall j | 0 <= j < |devices| && passed[j]
        ensures DeviceScore(req, devices[j]) <= DeviceScore(req, devices[chosen.value])
      {
        ghost var m :| 0 <= m < |matching| && matching[m].device == j;
      }
    }

    /** create_logical_device: the feature chain (main structs, then the caller's extra struct), the
        available optional extensions appended to `requiredExtensions`, and the queue create-infos. */
    method CreateLogicalDevice(d: PhysicalDevice, additional: Option<nat>, gpu: Gpu)
      returns (device: nat, mapping: seq<nat>)
      requires AllSatisfiable(d.families, requiredQueues)
      modifies this`requiredExtensions, gpu
      ensures requiredExtensions == old(requiredExtensions) + AvailableOnly(optionalExtensions, d.extensions)
      ensures IsQueueAssignment(d.families, requiredQueues, mapping)
      ensures gpu.next == old(gpu.next) + 1 && device == gpu.next
      ensures gpu.calls == old(gpu.calls) + [CreateDevice(DeviceCreateInfo(
                MainChain(requiredMinor) + (if additional.Some? then [ExtraFeatures(additional.value)] else []),
                SingleQueueInfos(Dedup(mapping)), requiredExtensions), device)]
    {
      var extra := if additional.Some? then [ExtraFeatures(additional.value)] else [];
      var chain := MainChain(requiredMinor) + extra;
      requiredExtensions := AppendAvailable(requiredExtensions, optionalExtensions, d.extensions);
      var infos;
      infos, mapping := CreateQueueInfos(d.families, requiredQueues);
      device := gpu.Fresh();
      gpu.Emit(CreateDevice(DeviceCreateInfo(chain, infos, requiredExtensions), device));
    }
  }
}
