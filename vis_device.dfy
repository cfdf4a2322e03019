// The Device of the chad_vis core (physical-device choice, logical-device creation and the four
// queue roles). Its checks are the ones in Selector; it differs in using four fixed queue roles,
// in giving no bonus for the preferred device type, and in how it builds the create-info.

module VisDevice {
  import opened Common
  import opened Vk
  import opened Selector

  /** The four queue roles: universal (graphics, compute and transfer), graphics, compute and transfer. */
  const FIXED_MASKS: seq<QueueFlags> := [{GraphicsBit, ComputeBit, TransferBit}, {GraphicsBit}, {ComputeBit}, {TransferBit}]

  /** Device::CreateInfo. `hasSurface` stands for `_surface != nullptr`; an optional feature is the
      handle of the caller's feature struct and the name of the extension that guards it. */
  datatype CreateInfo = CreateInfo(
    hasSurface: bool, major: u32, minor: u32, preferred: DeviceType,
    requiredExtensions: seq<string>, optionalExtensions: seq<string>,
    features: FeatureSet, optionalFeatures: seq<OptionalFeature>)

  datatype OptionalFeature = OptionalFeature(feature: nat, extension: string)

  /** The member defaults: no surface, Vulkan 1.0, a discrete GPU preferred, nothing required. */
  function DefaultCreateInfo(): (info: CreateInfo)
    ensures !info.hasSurface && info.major == 1 && info.minor == 0 && info.preferred == DiscreteGpu
    ensures info.requiredExtensions == [] && info.optionalExtensions == [] && info.optionalFeatures == []
    ensures info.features == NoFeatures()
  {
    CreateInfo(false, 1, 0, DiscreteGpu, [], [], NoFeatures(), [])
  }

  /** What this variant checks: all four checks, no type bonus. */
  function Checks(info: CreateInfo): Requirements
  {
    Requirements(info.major, info.minor, info.requiredExtensions, info.features, FIXED_MASKS,
                 info.preferred, true, false)
  }

  /** get_queue_families: for each of the four roles a family that covers it with the fewest capabilities. */
  method GetQueueFamilies(families: seq<QueueFamily>) returns (queueFamilies: seq<nat>)
    requires AllSatisfiable(families, FIXED_MASKS)
    ensures IsQueueAssignment(families, FIXED_MASKS, queueFamilies)
    ensures |queueFamilies| == 4
  {
    var counters := CollectCandidates(families, FIXED_MASKS);
    var unique: set<nat> := {};
    queueFamilies := [];
    for i := 0 to |FIXED_MASKS|
      invariant |queueFamilies| == i
      invariant IsQueueAssignment(families, FIXED_MASKS[..i], queueFamilies)
      invariant forall x :: x in unique <==> x in queueFamilies
    {
      CandidatesNonEmpty(families, FIXED_MASKS[i]);
      var family := FewestCapabilities(counters[i]);
      PickedIsBest(families, FIXED_MASKS[i], family);
      AssignmentStep(families, FIXED_MASKS, i, queueFamilies, family);
      // emplace yields an iterator to the element equal to `family`, inserted or not
      unique := unique + {family};
      queueFamilies := queueFamilies + [family];
    }
    assert FIXED_MASKS[..4] == FIXED_MASKS;
  }

  /** check_presentation: passes without a surface; otherwise some family of the four roles must
      support the surface. */
  method CheckPresentation(families: seq<QueueFamily>, hasSurface: bool) returns (passed: bool, ghost mapping: seq<nat>)
    requires hasSurface ==> AllSatisfiable(families, FIXED_MASKS)
    ensures hasSurface ==> IsQueueAssignment(families, FIXED_MASKS, mapping)
    ensures passed <==> !hasSurface || PresentsOn(families, mapping)
  {
    mapping := [];
    if !hasSurface {
      return true, mapping;
    }
    var queueFamilies := GetQueueFamilies(families);
    mapping := queueFamilies;
    passed := false;
    for i := 0 to |queueFamilies|
      invariant passed <==> exists q :: 0 <= q < i && families[queueFamilies[q]].presentSupport
    {
      passed := passed || families[queueFamilies[i]].presentSupport;
    }
  }

  /** The body of create_physical's loop for one device: extensions, API version, features and
      presentation are all checked; a passing device is scored by its local memory alone. */
  method Evaluate(info: CreateInfo, required: set<string>, d: PhysicalDevice)
    returns (ok: bool, score: u64, ghost mapping: seq<nat>)
    requires WellFormed(info.features) && WellFormed(d.features)
    requires required == set e | e in info.requiredExtensions
    requires info.hasSurface ==> AllSatisfiable(d.families, FIXED_MASKS)
    ensures ok <==> Passes(Checks(info), d, info.hasSurface, mapping)
    ensures info.hasSurface ==> IsQueueAssignment(d.families, FIXED_MASKS, mapping)
    ensures ok ==> score == DeviceScore(Checks(info), d)
  {
    var extOk := CheckExtensions(required, d.extensions);
    var apiOk := ApiVersionSufficient(info.major, info.minor, d.apiVersion);
    var featOk := CheckCoreFeatures(d.features, info.features);
    var presentOk;
    presentOk, mapping := CheckPresentation(d.families, info.hasSurface);
    ok := extOk && apiOk && featOk && presentOk;
    score := 0;
    if ok {
      score := LocalMemorySize(d.heaps);
    }
  }

  /** create_physical: a passing device of largest local memory, or None where the source calls
      exit(0). `passed` and `mappings` record each device's verdict and queue assignment. */
  method CreatePhysical(info: CreateInfo, devices: seq<PhysicalDevice>)
    returns (chosen: Option<nat>, ghost passed: seq<bool>, ghost mappings: seq<seq<nat>>)
    requires WellFormed(info.features)
    requires forall i :: 0 <= i < |devices| ==> WellFormed(devices[i].features)
    requires info.hasSurface ==> forall i :: 0 <= i < |devices| ==> AllSatisfiable(devices[i].families, FIXED_MASKS)
    ensures |passed| == |devices| && |mappings| == |devices|
    ensures forall i :: 0 <= i < |devices| ==> (passed[i] <==> Passes(Checks(info), devices[i], info.hasSurface, mappings[i]))
    ensures chosen.None? <==> forall i :: 0 <= i < |devices| ==> !passed[i]
    ensures chosen.Some? ==> chosen.value < |devices| && passed[chosen.value]
    ensures chosen.Some? ==> forall j :: 0 <= j < |devices| && passed[j] ==>
              LocalHeapBytes(devices[j].heaps) % U64_LIMIT <= LocalHeapBytes(devices[chosen.value].heaps) % U64_LIMIT
  {
    var req := Checks(info);
    var required := set e | e in info.requiredExtensions;
    var matching: seq<Match> := [];
    ghost var slot: seq<int> := [];
    passed, mappings := [], [];
    for i := 0 to |devices|
      invariant |passed| == i && |mappings| == i
      invariant VerdictsUpTo(req, devices, info.hasSurface, passed, mappings, i)
      invariant Listed(req, devices, passed, matching, slot, i)
    {
      var ok, score, mapping := Evaluate(info, required, devices[i]);
      VerdictsStep(req, devices, info.hasSurface, passed, mappings, ok, mapping, i);
      if ok {
        ListedAdd(req, devices, passed, matching, slot, i, score);
        matching := matching + [Match(i, score)];
      } else {
        ListedSkip(req, devices, passed, matching, slot, i);
      }
      slot := slot + [|matching| - 1];
      passed := passed + [ok];
      mappings := mappings + [mapping];
    }
    forall j | 0 <= j < |devices|
      ensures passed[j] <==> Passes(req, devices[j], info.hasSurface, mappings[j])
    {
      VerdictsMeaning(req, devices, info.hasSurface, passed, mappings, |devices|, j);
    }
    if |matching| == 0 {
      return None, passed, mappings;
    }
    var k := HighestScore(matching);
    chosen := Some(matching[k].device);
    forall j | 0 <= j < |devices| && passed[j]
      ensures DeviceScore(req, devices[j]) <= DeviceScore(req, devices[chosen.value])
    {
      assert matching[slot[j]].device == j;
    }
  }

  /** The optional feature structs whose guarding extension the device reports, in the caller's order. */
  function AvailableFeatures(optional: seq<OptionalFeature>, available: seq<string>): (r: seq<FeatureLink>)
    ensures forall l :: l in r ==> l.ExtraFeatures?
    ensures forall id :: ExtraFeatures(id) in r <==>
              exists k :: 0 <= k < |optional| && optional[k].feature == id && optional[k].extension in available
  {
    if optional == [] then []
    else
      var last := optional[|optional| - 1];
      var init := AvailableFeatures(optional[..|optional| - 1], available);
      assert forall k :: 0 <= k < |optional| - 1 ==> optional[..|optional| - 1][k] == optional[k];
      if last.extension in available then init + [ExtraFeatures(last.feature)] else init
  }

  /** Splices each optional feature struct whose extension is available onto the tail of the chain. */
  method ChainOptionalFeatures(chain: seq<FeatureLink>, optional: seq<OptionalFeature>, available: seq<string>)
    returns (r: seq<FeatureLink>)
    ensures r == chain + AvailableFeatures(optional, available)
  {
    r := chain;
    for i := 0 to |optional|
      invariant r == chain + AvailableFeatures(optional[..i], available)
    {
      assert optional[..i + 1][..i] == optional[..i];
      var found := CheckExtension(available, optional[i].extension);
      if found {
        r := r + [ExtraFeatures(optional[i].feature)];
      }
    }
    assert optional[..|optional|] == optional;
  }

  function FamiliesOf(queues: seq<QueueCreateInfo>): (r: seq<nat>)
    ensures |r| == |queues| && forall k :: 0 <= k < |r| ==> r[k] == queues[k].family
  {
    seq(|queues|, k requires 0 <= k < |queues| => queues[k].family)
  }

  /** One single-queue create-info per distinct family, in ascending family order (the iteration
      order of the std::map tally). */
  ghost predicate AscendingQueueInfos(queues: seq<QueueCreateInfo>, families: seq<nat>)
  {
    (forall k :: 0 <= k < |queues| ==> queues[k].count == 1) &&
    StrictlyIncreasing(FamiliesOf(queues)) &&
    (forall f :: f in FamiliesOf(queues) <==> f in families)
  }

  /** The queue tally of create_logical: count each family, then one create-info per key in key order. */
  method TallyQueues(queueFamilies: seq<nat>) returns (queues: seq<QueueCreateInfo>)
    ensures AscendingQueueInfos(queues, queueFamilies)
    ensures |queues| == |Elements(queueFamilies)|
  {
    var counts: map<nat, nat> := map[];
    for i := 0 to |queueFamilies|
      invariant counts.Keys == Elements(queueFamilies[..i])
    {
      assert Elements(queueFamilies[..i + 1]) == Elements(queueFamilies[..i]) + {queueFamilies[i]} by {
        assert queueFamilies[..i + 1] == queueFamilies[..i] + [queueFamilies[i]];
      }
      var f := queueFamilies[i];
      counts := counts[f := (if f in counts then counts[f] else 0) + 1];
    }
    assert queueFamilies[..|queueFamilies|] == queueFamilies;
    var order := AscendingOrder(counts.Keys);
    queues := SingleQueueInfos(order);
    assert FamiliesOf(queues) == order;
  }

  /** The vkCreateDevice call: the core and version feature chain followed by the optional features the
      device offers, one queue per used family, and the required extensions followed by the optional
      ones the device offers. */
  function DeviceCall(info: CreateInfo, d: PhysicalDevice, queues: seq<QueueCreateInfo>, device: nat): Call
  {
    CreateDevice(DeviceCreateInfo(
      MainChain(info.minor) + AvailableFeatures(info.optionalFeatures, d.extensions), queues,
      info.requiredExtensions + AvailableOnly(info.optionalExtensions, d.extensions)), device)
  }

  method CreateLogical(info: CreateInfo, d: PhysicalDevice, queueFamilies: seq<nat>, gpu: Gpu)
    returns (device: nat, queues: seq<QueueCreateInfo>)
    modifies gpu
    ensures AscendingQueueInfos(queues, queueFamilies)
    ensures gpu.next == old(gpu.next) + 1 && device == gpu.next
    ensures gpu.calls == old(gpu.calls) + [DeviceCall(info, d, queues, device)]
  {
    var chain := MainChain(info.minor);
    var extensions := AppendAvailable(info.requiredExtensions, info.optionalExtensions, d.extensions);
    chain := ChainOptionalFeatures(chain, info.optionalFeatures, d.extensions);
    queues := TallyQueues(queueFamilies);
    device := gpu.Fresh();
    gpu.Emit(CreateDevice(DeviceCreateInfo(chain, queues, extensions), device));
  }

  /** The create-info of a transient command pool for one family. */
  function PoolCall(family: nat, pool: nat): Call
  {
    CreateCommandPool(family, true, pool)
  }

  /** The chad_vis Device: the chosen physical device, the logical device, and per role a family
      index, a queue and a transient command pool. */
  class Device {
    var physical: nat
    var logical: nat
    var universalFamily: nat
    var graphicsFamily: nat
    var computeFamily: nat
    var transferFamily: nat
    var universalQueue: nat
    var graphicsQueue: nat
    var computeQueue: nat
    var transferQueue: nat
    var universalPool: nat
    var graphicsPool: nat
    var computePool: nat
    var transferPool: nat

    constructor ()
    {
    }

    /** The role families in the order universal, graphics, compute, transfer. */
    function Roles(): seq<nat>
      reads this`universalFamily, this`graphicsFamily, this`computeFamily, this`transferFamily
    {
      [universalFamily, graphicsFamily, computeFamily, transferFamily]
    }

    /** The vkGetDeviceQueue calls of the four roles, queue 0 of each role's family. */
    function QueueCalls(): seq<Call>
      reads this`logical, this`universalFamily, this`graphicsFamily, this`computeFamily, this`transferFamily
      reads this`universalQueue, this`graphicsQueue, this`computeQueue, this`transferQueue
    {
      [GetQueue(logical, universalFamily, universalQueue), GetQueue(logical, graphicsFamily, graphicsQueue),
       GetQueue(logical, computeFamily, computeQueue), GetQueue(logical, transferFamily, transferQueue)]
    }

    /** The transient command pools of the four roles. */
    function PoolCalls(): seq<Call>
      reads this`universalFamily, this`graphicsFamily, this`computeFamily, this`transferFamily
      reads this`universalPool, this`graphicsPool, this`computePool, this`transferPool
    {
      [PoolCall(universalFamily, universalPool), PoolCall(graphicsFamily, graphicsPool),
       PoolCall(computeFamily, computePool), PoolCall(transferFamily, transferPool)]
    }

    /** The queue roles and the logical device of the chosen physical device. */
    method Open(info: CreateInfo, d: PhysicalDevice, gpu: Gpu) returns (ghost queues: seq<QueueCreateInfo>)
      requires AllSatisfiable(d.families, FIXED_MASKS)
      modifies this, gpu
      ensures physical == old(physical)
      ensures IsQueueAssignment(d.families, FIXED_MASKS, Roles())
      ensures AscendingQueueInfos(queues, Roles())
      ensures gpu.calls == old(gpu.calls) + [DeviceCall(info, d, queues, logical)]
    {
      var queueFamilies := GetQueueFamilies(d.families);
      logical, queues := CreateLogical(info, d, queueFamilies, gpu);
      universalFamily, graphicsFamily, computeFamily, transferFamily :=
        queueFamilies[0], queueFamilies[1], queueFamilies[2], queueFamilies[3];
      assert Roles() == queueFamilies;
    }

    /** The four vkGetDeviceQueue calls, queue 0 of each role's family. */
    method GetQueues(gpu: Gpu)
      modifies this`universalQueue, this`graphicsQueue, this`computeQueue, this`transferQueue, gpu
      ensures gpu.calls == old(gpu.calls) + [GetQueue(logical, universalFamily, universalQueue)] +
                [GetQueue(logical, graphicsFamily, graphicsQueue)] + [GetQueue(logical, computeFamily, computeQueue)] +
                [GetQueue(logical, transferFamily, transferQueue)]
    {
      universalQueue := gpu.Fresh();
      gpu.Emit(GetQueue(logical, universalFamily, universalQueue));
      graphicsQueue := gpu.Fresh();
      gpu.Emit(GetQueue(logical, graphicsFamily, graphicsQueue));
      computeQueue := gpu.Fresh();
      gpu.Emit(GetQueue(logical, computeFamily, computeQueue));
      transferQueue := gpu.Fresh();
      gpu.Emit(GetQueue(logical, transferFamily, transferQueue));
    }

    /** One transient command pool per role. */
    method CreatePools(gpu: Gpu)
      modifies this`universalPool, this`graphicsPool, this`computePool, this`transferPool, gpu
      ensures gpu.calls == old(gpu.calls) + [PoolCall(universalFamily, universalPool)] +
                [PoolCall(graphicsFamily, graphicsPool)] + [PoolCall(computeFamily, computePool)] +
                [PoolCall(transferFamily, transferPool)]
    {
      universalPool := gpu.Fresh();
      gpu.Emit(PoolCall(universalFamily, universalPool));
      graphicsPool := gpu.Fresh();
      gpu.Emit(PoolCall(graphicsFamily, graphicsPool));
      computePool := gpu.Fresh();
      gpu.Emit(PoolCall(computeFamily, computePool));
      transferPool := gpu.Fresh();
      gpu.Emit(PoolCall(transferFamily, transferPool));
    }

    /** Device::init. `exited` stands for the exit(0) of create_physical; then nothing else happens. */
    method Init(info: CreateInfo, devices: seq<PhysicalDevice>, gpu: Gpu)
      returns (exited: bool, ghost passed: seq<bool>, ghost mappings: seq<seq<nat>>, ghost queues: seq<QueueCreateInfo>)
      requires WellFormed(info.features)
      requires forall i :: 0 <= i < |devices| ==> WellFormed(devices[i].features)
      requires info.hasSurface ==> forall i :: 0 <= i < |devices| ==> AllSatisfiable(devices[i].families, FIXED_MASKS)
      requires forall i ::
                 (0 <= i < |devices| && Passes(Checks(info), devices[i], false, []) &&
                  forall j :: 0 <= j < |devices| && Passes(Checks(info), devices[j], false, []) ==>
                    LocalHeapBytes(devices[j].heaps) % U64_LIMIT <= LocalHeapBytes(devices[i].heaps) % U64_LIMIT)
                 ==> AllSatisfiable(devices[i].families, FIXED_MASKS)
      modifies this, gpu
      ensures |passed| == |devices| && |mappings| == |devices|
      ensures forall i :: 0 <= i < |devices| ==> (passed[i] <==> Passes(Checks(info), devices[i], info.hasSurface, mappings[i]))
      ensures exited <==> forall i :: 0 <= i < |devices| ==> !passed[i]
      ensures exited ==> gpu.calls == old(gpu.calls)
      ensures !exited ==> physical < |devices| && passed[physical]
      ensures !exited ==> forall j :: 0 <= j < |devices| && passed[j] ==>
                LocalHeapBytes(devices[j].heaps) % U64_LIMIT <= LocalHeapBytes(devices[physical].heaps) % U64_LIMIT
      ensures !exited ==> IsQueueAssignment(devices[physical].families, FIXED_MASKS, Roles())
      ensures !exited ==> AscendingQueueInfos(queues, Roles())
      ensures !exited ==> gpu.calls == old(gpu.calls) + [DeviceCall(info, devices[physical], queues, logical)] + QueueCalls() + PoolCalls()
    {
      var chosen;
      chosen, passed, mappings := CreatePhysical(info, devices);
      queues := [];
      if chosen.None? {
        return true, passed, mappings, queues;
      }
      exited := false;
      physical := chosen.value;
      queues := Open(info, devices[physical], gpu);
      OpenQueues(gpu);
    }

    /** The queues and command pools of the four roles, once the logical device exists. */
    method OpenQueues(gpu: Gpu)
      modifies this, gpu
      ensures Roles() == old(Roles()) && logical == old(logical) && physical == old(physical)
      ensures gpu.calls == old(gpu.calls) + QueueCalls() + PoolCalls()
    {
      ghost var created := gpu.calls;
      GetQueues(gpu);
      AppendFour(created, QueueCalls());
      ghost var fetched := gpu.calls;
      CreatePools(gpu);
      AppendFour(fetched, PoolCalls());
    }

    /** Device::destroy: the four pools, then the logical device. */
    method Destroy(gpu: Gpu)
      modifies gpu
      ensures gpu.calls == old(gpu.calls) + [DestroyCommandPool(universalPool)] + [DestroyCommandPool(graphicsPool)] +
                [DestroyCommandPool(computePool)] + [DestroyCommandPool(transferPool)] + [DestroyDevice(logical)]
    {
      gpu.Emit(DestroyCommandPool(universalPool));
      gpu.Emit(DestroyCommandPool(graphicsPool));
      gpu.Emit(DestroyCommandPool(computePool));
      gpu.Emit(DestroyCommandPool(transferPool));
      gpu.Emit(DestroyDevice(logical));
    }

    /** Device::oneshot_begin: a primary command buffer from the universal pool, begun for one submission. */
    method OneshotBegin(gpu: Gpu) returns (cmd: CommandBuffer)
      modifies gpu
      ensures fresh(cmd) && cmd.pool == universalPool && cmd.commands == []
      ensures gpu.calls == old(gpu.calls) + [AllocateCommandBuffer(universalPool, cmd.handle)] +
                [BeginCommandBuffer(cmd.handle)]
    {
      var handle := gpu.Fresh();
      gpu.Emit(AllocateCommandBuffer(universalPool, handle));
      cmd := new CommandBuffer(handle, universalPool);
      gpu.Emit(BeginCommandBuffer(handle));
    }

    /** Device::oneshot_end: ends the buffer, submits it to the universal queue without a fence or wait
        semaphores, waits for the queue to go idle and frees the buffer to the universal pool. */
    method OneshotEnd(cmd: CommandBuffer, signals: seq<nat>, gpu: Gpu)
      modifies gpu
      ensures gpu.calls == old(gpu.calls) + [EndCommandBuffer(cmd.handle)] +
                [Submit(universalQueue, cmd.handle, [], signals, NULL)] + [WaitIdle(universalQueue)] +
                [FreeCommandBuffer(universalPool, cmd.handle)]
    {
      gpu.Emit(EndCommandBuffer(cmd.handle));
      gpu.Emit(Submit(universalQueue, cmd.handle, [], signals, NULL));
      gpu.Emit(WaitIdle(universalQueue));
      gpu.Emit(FreeCommandBuffer(universalPool, cmd.handle));
    }
  }

  /** A device with a single universal family gives every role that family and gets a single queue
      create-info. */
  lemma SingleFamilyTakesEveryRole(roles: seq<nat>, queues: seq<QueueCreateInfo>)
    requires IsQueueAssignment([QueueFamily({GraphicsBit, ComputeBit, TransferBit}, true)], FIXED_MASKS, roles)
    requires AscendingQueueInfos(queues, roles)
    ensures roles == [0, 0, 0, 0]
    ensures queues == [QueueCreateInfo(0, 1)]
  {
    forall q | 0 <= q < 4 ensures roles[q] == 0 {
      assert IsBestFamily([QueueFamily({GraphicsBit, ComputeBit, TransferBit}, true)], FIXED_MASKS[q], roles[q]);
    }
    assert roles == [0, 0, 0, 0];
    var fs := FamiliesOf(queues);
    assert 0 in fs;
    assert forall k :: 0 <= k < |fs| ==> fs[k] == 0 by {
      forall k | 0 <= k < |fs| ensures fs[k] == 0 {
        assert fs[k] in fs;
      }
    }
    assert Distinct(fs);
    DistinctCard(fs);
    assert Elements(fs) == {0};
    assert fs == [0];
  }
}
