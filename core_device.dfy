// The Device of the newer engine core: the same device choice as the chad_vis Device without the
// feature check, an extension list built through a set, a fence for one-shot submissions, and
// one-shot command buffers on any of the four queue roles.

module CoreDevice {
  import opened Common
  import opened Vk
  import opened Selector
  import VisDevice

  /** Device::CreateInfo. `hasSurface` stands for `_surface != nullptr`. The required feature structs
      are handed to vkCreateDevice unexamined (they are the `CoreFeatures` … `Vk13Features` links). */
  datatype CreateInfo = CreateInfo(
    hasSurface: bool, major: u32, minor: u32,
    requiredExtensions: seq<string>, optionalExtensions: seq<string>,
    optionalFeatures: seq<VisDevice.OptionalFeature>)

  /** What this variant checks: extensions, API version and presentation; no feature check, no type bonus. */
  function Checks(info: CreateInfo): Requirements
  {
    Requirements(info.major, info.minor, info.requiredExtensions, NoFeatures(), VisDevice.FIXED_MASKS,
                 DiscreteGpu, false, false)
  }

  /** The body of create_physical's loop for one device: extensions, API version and presentation;
      a passing device is scored by its local memory alone. */
  method Evaluate(info: CreateInfo, required: set<string>, d: PhysicalDevice)
    returns (ok: bool, score: u64, ghost mapping: seq<nat>)
    requires required == set e | e in info.requiredExtensions
    requires info.hasSurface ==> AllSatisfiable(d.families, VisDevice.FIXED_MASKS)
    ensures ok <==> Passes(Checks(info), d, info.hasSurface, mapping)
    ensures info.hasSurface ==> IsQueueAssignment(d.families, VisDevice.FIXED_MASKS, mapping)
    ensures ok ==> score == DeviceScore(Checks(info), d)
  {
    var extOk := CheckExtensions(required, d.extensions);
    var apiOk := ApiVersionSufficient(info.major, info.minor, d.apiVersion);
    var presentOk;
    presentOk, mapping := VisDevice.CheckPresentation(d.families, info.hasSurface);
    ok := extOk && apiOk && presentOk;
    score := 0;
    if ok {
      score := LocalMemorySize(d.heaps);
    }
  }

  /** create_physical: a passing device of largest local memory, or None where the source calls
      exit(0). `passed` and `mappings` record each device's verdict and queue assignment. */
  method CreatePhysical(info: CreateInfo, devices: seq<PhysicalDevice>)
    returns (chosen: Option<nat>, ghost passed: seq<bool>, ghost mappings: seq<seq<nat>>)
    requires info.hasSurface ==> forall i :: 0 <= i < |devices| ==> AllSatisfiable(devices[i].families, VisDevice.FIXED_MASKS)
    ensures |passed| == |devices| && |mappings| == |devices|
    ensures forall i :: 0 <= i < |devices| ==> (passed[i] <==> Passes(Checks(info), devices[i], info.hasSurface, mappings[i]))
    ensures chosen.None? <==> forall i :: 0 <= i < |devices| ==> !passed[i]
    ensures chosen.Some? ==> chosen.value < |devices| && passed[chosen.value]
    ensures chosen.Some? ==> forall j :: 0 <= j < |devices| && passed[j] ==>
              LocalHeapBytes(devices[j].heaps) % U64_LIMIT <= LocalHeapBytes(devices[chosen.value].heaps) % U64_LIMIT
  {
    var req := Checks(info);
    var required := set e | e in info.requiredExtensions;
    var matching: seq<Match> := [];
    ghost var slot: seq<int> := [];
    passed, mappings := [], [];
    for i := 0 to |devices|
      invariant |passed| == i && |mappings| == i
      invariant VerdictsUpTo(req, devices, info.hasSurface, passed, mappings, i)
      invariant Listed(req, devices, passed, matching, slot, i)
    {
      var ok, score, mapping := Evaluate(info, required, devices[i]);
      VerdictsStep(req, devices, info.hasSurface, passed, mappings, ok, mapping, i);
      if ok {
        ListedAdd(req, devices, passed, matching, slot, i, score);
        matching := matching + [Match(i, score)];
      } else {
        ListedSkip(req, devices, passed, matching, slot, i);
      }
      slot := slot + [|matching| - 1];
      passed := passed + [ok];
      mappings := mappings + [mapping];
    }
    forall j | 0 <= j < |devices|
      ensures passed[j] <==> Passes(req, devices[j], info.hasSurface, mappings[j])
    {
      VerdictsMeaning(req, devices, info.hasSurface, passed, mappings, |devices|, j);
    }
    if |matching| == 0 {
      return None, passed, mappings;
    }
    var k := HighestScore(matching);
    chosen := Some(matching[k].device);
    forall j | 0 <= j < |devices| && passed[j]
      ensures DeviceScore(req, devices[j]) <= DeviceScore(req, devices[chosen.value])
    {
      assert matching[slot[j]].device == j;
    }
  }

  /** The guarding extension of each optional feature, in order. */
  function ExtensionsOf(optional: seq<VisDevice.OptionalFeature>): (r: seq<string>)
    ensures |r| == |optional| && forall k :: 0 <= k < |r| ==> r[k] == optional[k].extension
  {
    seq(|optional|, k requires 0 <= k < |optional| => optional[k].extension)
  }

  /** What create_logical enables: the required extensions, then each available optional extension and
      each available guard of an optional feature exactly once, in an order the model leaves open. */
  ghost predicate EnabledExtensions(info: CreateInfo, available: seq<string>, extensions: seq<string>)
  {
    var n := |info.requiredExtensions|;
    n <= |extensions| && extensions[..n] == info.requiredExtensions &&
    Distinct(extensions[n..]) &&
    forall e :: e in extensions[n..] <==>
      e in available && (e in info.optionalExtensions || e in ExtensionsOf(info.optionalFeatures))
  }

  /** The extension_set of create_logical, filled by its two loops, then written after the required list. */
  method CollectExtensions(info: CreateInfo, available: seq<string>) returns (extensions: seq<string>)
    ensures EnabledExtensions(info, available, extensions)
  {
    var optional, features := info.optionalExtensions, ExtensionsOf(info.optionalFeatures);
    var extensionSet: set<string> := {};
    for i := 0 to |optional|
      invariant forall e :: e in extensionSet <==> e in optional[..i] && e in available
    {
      assert optional[..i + 1] == optional[..i] + [optional[i]];
      var found := CheckExtension(available, optional[i]);
      if found {
        extensionSet := extensionSet + {optional[i]};
      }
    }
    assert optional[..|optional|] == optional;
    for i := 0 to |features|
      invariant forall e :: e in extensionSet <==> e in available && (e in optional || e in features[..i])
    {
      assert features[..i + 1] == features[..i] + [features[i]];
      var found := CheckExtension(available, features[i]);
      if found {
        extensionSet := extensionSet + {features[i]};
      }
    }
    assert features[..|features|] == features;
    var tail := Enumerate(extensionSet);
    extensions := info.requiredExtensions + tail;
    assert extensions[|info.requiredExtensions|..] == tail;
  }

  /** An optional extension named twice, or also guarding an optional feature, is enabled once. */
  lemma {:induction false} SharedExtensionEnabledOnce(info: CreateInfo, available: seq<string>, extensions: seq<string>, e: string)
    requires EnabledExtensions(info, available, extensions)
    requires e in available && e in info.optionalExtensions && e in ExtensionsOf(info.optionalFeatures)
    requires e !in info.requiredExtensions
    ensures multiset(extensions)[e] == 1
  {
    var n := |info.requiredExtensions|;
    var tail := extensions[n..];
    assert extensions == info.requiredExtensions + tail;
    assert e in tail;
    var k :| 0 <= k < |tail| && tail[k] == e;
    DistinctCount(tail, k);
    assert multiset(extensions) == multiset(info.requiredExtensions) + multiset(tail);
  }

  /** In a sequence without duplicates, an element occurs exactly once. */
  lemma {:induction false} DistinctCount<T>(s: seq<T>, k: nat)
    requires Distinct(s) && k < |s|
    ensures multiset(s)[s[k]] == 1
  {
    var x := s[k];
    assert s == s[..k] + [x] + s[k + 1..];
    assert x !in s[..k] && x !in s[k + 1..] by {
      forall j | 0 <= j < k ensures s[..k][j] != x { assert s[..k][j] == s[j]; }
      var after := s[k + 1..];
      forall j | 0 <= j < |after| ensures after[j] != x { assert after[j] == s[k + 1 + j]; }
    }
    assert multiset(s) == multiset(s[..k]) + multiset([x]) + multiset(s[k + 1..]);
  }

  /** The vkCreateDevice call: the main chain and the available optional features, one queue per used
      family, and the enabled extensions. */
  function DeviceCall(info: CreateInfo, d: PhysicalDevice, queues: seq<QueueCreateInfo>,
                      extensions: seq<string>, device: nat): Call
  {
    CreateDevice(DeviceCreateInfo(
      MainChain(info.minor) + VisDevice.AvailableFeatures(info.optionalFeatures, d.extensions), queues, extensions), device)
  }

  /** create_logical. */
  method CreateLogical(info: CreateInfo, d: PhysicalDevice, queueFamilies: seq<nat>, gpu: Gpu)
    returns (device: nat, queues: seq<QueueCreateInfo>, extensions: seq<string>)
    modifies gpu
    ensures VisDevice.AscendingQueueInfos(queues, queueFamilies)
    ensures EnabledExtensions(info, d.extensions, extensions)
    ensures gpu.next == old(gpu.next) + 1 && device == gpu.next
    ensures gpu.calls == old(gpu.calls) + [DeviceCall(info, d, queues, extensions, device)]
  {
    var chain := MainChain(info.minor);
    extensions := CollectExtensions(info, d.extensions);
    chain := VisDevice.ChainOptionalFeatures(chain, info.optionalFeatures, d.extensions);
    queues := VisDevice.TallyQueues(queueFamilies);
    device := gpu.Fresh();
    gpu.Emit(CreateDevice(DeviceCreateInfo(chain, queues, extensions), device));
  }

  /** The queue a one-shot command buffer is recorded for. */
  datatype QueueType = Universal | Graphics | Compute | Transfer

  /** Waits on a fence until the driver answers something other than eTimeout; `replies` are the
      driver's successive answers. Returns the number of waits. */
  method AwaitFence(fence: nat, replies: seq<VkResult>, gpu: Gpu) returns (attempts: nat)
    requires exists k :: 0 <= k < |replies| && replies[k] != Timeout
    modifies gpu
    ensures 1 <= attempts <= |replies| && replies[attempts - 1] != Timeout
    ensures forall k :: 0 <= k < attempts - 1 ==> replies[k] == Timeout
    ensures gpu.next == old(gpu.next)
    ensures gpu.calls == old(gpu.calls) + Repeat(WaitForFence(fence), attempts)
  {
    ghost var settle :| 0 <= settle < |replies| && replies[settle] != Timeout;
    gpu.Emit(WaitForFence(fence));
    attempts := 1;
    while replies[attempts - 1] == Timeout
      invariant 1 <= attempts <= settle + 1
      invariant forall k :: 0 <= k < attempts - 1 ==> replies[k] == Timeout
      invariant gpu.next == old(gpu.next)
      invariant gpu.calls == old(gpu.calls) + Repeat(WaitForFence(fence), attempts)
      decreases settle + 1 - attempts
    {
      assert Repeat(WaitForFence(fence), attempts) + [WaitForFence(fence)] == Repeat(WaitForFence(fence), attempts + 1);
      gpu.Emit(WaitForFence(fence));
      attempts := attempts + 1;
    }
  }

  /** The Device of the engine core: the chosen physical device, the logical device, per role a
      family index, a queue and a transient command pool, the one-shot fence and the allocator. */
  class Device {
    var physical: nat
    var logical: nat
    var universalFamily: nat
    var graphicsFamily: nat
    var computeFamily: nat
    var transferFamily: nat
    var universalQueue: nat
    var graphicsQueue: nat
    var computeQueue: nat
    var transferQueue: nat
    var universalPool: nat
    var graphicsPool: nat
    var computePool: nat
    var transferPool: nat
    var oneshotFence: nat
    var allocator: nat

    constructor ()
    {
    }

    /** The role families in the order universal, graphics, compute, transfer. */
    function Roles(): seq<nat>
      reads this`universalFamily, this`graphicsFamily, this`computeFamily, this`transferFamily
    {
      [universalFamily, graphicsFamily, computeFamily, transferFamily]
    }

    function QueueCalls(): seq<Call>
      reads this`logical, this`universalFamily, this`graphicsFamily, this`computeFamily, this`transferFamily
      reads this`universalQueue, this`graphicsQueue, this`computeQueue, this`transferQueue
    {
      [GetQueue(logical, universalFamily, universalQueue), GetQueue(logical, graphicsFamily, graphicsQueue),
       GetQueue(logical, computeFamily, computeQueue), GetQueue(logical, transferFamily, transferQueue)]
    }

    function PoolCalls(): seq<Call>
      reads this`universalFamily, this`graphicsFamily, this`computeFamily, this`transferFamily
      reads this`universalPool, this`graphicsPool, this`computePool, this`transferPool
    {
      [VisDevice.PoolCall(universalFamily, universalPool), VisDevice.PoolCall(graphicsFamily, graphicsPool),
       VisDevice.PoolCall(computeFamily, computePool), VisDevice.PoolCall(transferFamily, transferPool)]
    }

    /** The family, queue and pool the switches of oneshot_begin and oneshot_end pick for a queue type. */
    function FamilyOf(queue: QueueType): nat
      reads this`universalFamily, this`graphicsFamily, this`computeFamily, this`transferFamily
    {
      match queue
      case Universal => universalFamily
      case Graphics => graphicsFamily
      case Compute => computeFamily
      case Transfer => transferFamily
    }

    function QueueOf(queue: QueueType): nat
      reads this`universalQueue, this`graphicsQueue, this`computeQueue, this`transferQueue
    {
      match queue
      case Universal => universalQueue
      case Graphics => graphicsQueue
      case Compute => computeQueue
      case Transfer => transferQueue
    }

    function PoolOf(queue: QueueType): nat
      reads this`universalPool, this`graphicsPool, this`computePool, this`transferPool
    {
      match queue
      case Universal => universalPool
      case Graphics => graphicsPool
      case Compute => computePool
      case Transfer => transferPool
    }

    /** For every queue type, the queue a one-shot buffer is submitted to and the pool it is allocated
        from and freed to were both created for that type's family. */
    lemma RolesAgree(queue: QueueType)
      ensures GetQueue(logical, FamilyOf(queue), QueueOf(queue)) in QueueCalls()
      ensures VisDevice.PoolCall(FamilyOf(queue), PoolOf(queue)) in PoolCalls()
    {
      match queue
      case Universal => assert QueueCalls()[0] == GetQueue(logical, FamilyOf(queue), QueueOf(queue));
      case Graphics => assert QueueCalls()[1] == GetQueue(logical, FamilyOf(queue), QueueOf(queue));
      case Compute => assert QueueCalls()[2] == GetQueue(logical, FamilyOf(queue), QueueOf(queue));
      case Transfer => assert QueueCalls()[3] == GetQueue(logical, FamilyOf(queue), QueueOf(queue));
    }

    /** The queue roles, the enabled extensions and the logical device of the chosen physical device. */
    method Open(info: CreateInfo, d: PhysicalDevice, gpu: Gpu)
      returns (ghost queues: seq<QueueCreateInfo>, ghost extensions: seq<string>)
      requires AllSatisfiable(d.families, VisDevice.FIXED_MASKS)
      modifies this, gpu
      ensures physical == old(physical)
      ensures IsQueueAssignment(d.families, VisDevice.FIXED_MASKS, Roles())
      ensures VisDevice.AscendingQueueInfos(queues, Roles())
      ensures EnabledExtensions(info, d.extensions, extensions)
      ensures gpu.calls == old(gpu.calls) + [DeviceCall(info, d, queues, extensions, logical)]
    {
      var queueFamilies := VisDevice.GetQueueFamilies(d.families);
      var es;
      logical, queues, es := CreateLogical(info, d, queueFamilies, gpu);
      extensions := es;
      universalFamily, graphicsFamily, computeFamily, transferFamily :=
        queueFamilies[0], queueFamilies[1], queueFamilies[2], queueFamilies[3];
      assert Roles() == queueFamilies;
    }

    method GetQueues(gpu: Gpu)
      modifies this`universalQueue, this`graphicsQueue, this`computeQueue, this`transferQueue, gpu
      ensures gpu.calls == old(gpu.calls) + QueueCalls()
    {
      ghost var before := gpu.calls;
      universalQueue := gpu.Fresh();
      gpu.Emit(GetQueue(logical, universalFamily, universalQueue));
      graphicsQueue := gpu.Fresh();
      gpu.Emit(GetQueue(logical, graphicsFamily, graphicsQueue));
      computeQueue := gpu.Fresh();
      gpu.Emit(GetQueue(logical, computeFamily, computeQueue));
      transferQueue := gpu.Fresh();
      gpu.Emit(GetQueue(logical, transferFamily, transferQueue));
      AppendFour(before, QueueCalls());
    }

    method CreatePools(gpu: Gpu)
      modifies this`universalPool, this`graphicsPool, this`computePool, this`transferPool, gpu
      ensures gpu.calls == old(gpu.calls) + PoolCalls()
    {
      ghost var before := gpu.calls;
      universalPool := gpu.Fresh();
      gpu.Emit(VisDevice.PoolCall(universalFamily, universalPool));
      graphicsPool := gpu.Fresh();
      gpu.Emit(VisDevice.PoolCall(graphicsFamily, graphicsPool));
      computePool := gpu.Fresh();
      gpu.Emit(VisDevice.PoolCall(computeFamily, computePool));
      transferPool := gpu.Fresh();
      gpu.Emit(VisDevice.PoolCall(transferFamily, transferPool));
      AppendFour(before, PoolCalls());
    }

    /** The queues, the command pools, the unsignalled one-shot fence and the memory allocator. */
    method OpenQueues(gpu: Gpu)
      modifies this`universalQueue, this`graphicsQueue, this`computeQueue, this`transferQueue
      modifies this`universalPool, this`graphicsPool, this`computePool, this`transferPool
      modifies this`oneshotFence, this`allocator, gpu
      ensures Roles() == old(Roles()) && logical == old(logical) && physical == old(physical)
      ensures gpu.calls == old(gpu.calls) + QueueCalls() + PoolCalls() +
                [CreateFence(false, oneshotFence), CreateAllocator(physical, logical, allocator)]
    {
      ghost var start := gpu.calls;
      GetQueues(gpu);
      ghost var queueCalls := QueueCalls();
      CreatePools(gpu);
      ghost var poolCalls := PoolCalls();
      assert QueueCalls() == queueCalls;
      assert gpu.calls == start + queueCalls + poolCalls;
      CreateFenceAndAllocator(gpu);
    }

    method CreateFenceAndAllocator(gpu: Gpu)
      modifies this`oneshotFence, this`allocator, gpu
      ensures gpu.calls == old(gpu.calls) + [CreateFence(false, oneshotFence), CreateAllocator(physical, logical, allocator)]
    {
      oneshotFence := gpu.Fresh();
      gpu.Emit(CreateFence(false, oneshotFence));
      allocator := gpu.Fresh();
      gpu.Emit(CreateAllocator(physical, logical, allocator));
    }

    /** Device::init. `exited` stands for the exit(0) of create_physical; then nothing else happens. */
    method Init(info: CreateInfo, devices: seq<PhysicalDevice>, gpu: Gpu)
      returns (exited: bool, ghost passed: seq<bool>, ghost mappings: seq<seq<nat>>,
               ghost queues: seq<QueueCreateInfo>, ghost extensions: seq<string>)
      requires info.hasSurface ==> forall i :: 0 <= i < |devices| ==> AllSatisfiable(devices[i].families, VisDevice.FIXED_MASKS)
      requires forall i ::
                 (0 <= i < |devices| && Passes(Checks(info), devices[i], false, []) &&
                  forall j :: 0 <= j < |devices| && Passes(Checks(info), devices[j], false, []) ==>
                    LocalHeapBytes(devices[j].heaps) % U64_LIMIT <= LocalHeapBytes(devices[i].heaps) % U64_LIMIT)
                 ==> AllSatisfiable(devices[i].families, VisDevice.FIXED_MASKS)
      modifies this, gpu
      ensures |passed| == |devices| && |mappings| == |devices|
      ensures forall i :: 0 <= i < |devices| ==> (passed[i] <==> Passes(Checks(info), devices[i], info.hasSurface, mappings[i]))
      ensures exited <==> forall i :: 0 <= i < |devices| ==> !passed[i]
      ensures exited ==> gpu.calls == old(gpu.calls)
      ensures !exited ==> physical < |devices| && passed[physical]
      ensures !exited ==> forall j :: 0 <= j < |devices| && passed[j] ==>
                LocalHeapBytes(devices[j].heaps) % U64_LIMIT <= LocalHeapBytes(devices[physical].heaps) % U64_LIMIT
      ensures !exited ==> IsQueueAssignment(devices[physical].families, VisDevice.FIXED_MASKS, Roles())
      ensures !exited ==> VisDevice.AscendingQueueInfos(queues, Roles())
      ensures !exited ==> EnabledExtensions(info, devices[physical].extensions, extensions)
      ensures !exited ==> (gpu.calls == old(gpu.calls) + [DeviceCall(info, devices[physical], queues, extensions, logical)] +
                QueueCalls() + PoolCalls() + [CreateFence(false, oneshotFence), CreateAllocator(physical, logical, allocator)])
    {
      var chosen;
      chosen, passed, mappings := CreatePhysical(info, devices);
      queues, extensions := [], [];
      if chosen.None? {
        return true, passed, mappings, queues, extensions;
      }
      exited := false;
      physical := chosen.value;
      queues, extensions := Open(info, devices[physical], gpu);
      OpenQueues(gpu);
    }

    /** Device::destroy: allocator, fence, the four pools, then the logical device. */
    method Destroy(gpu: Gpu)
      modifies gpu
      ensures gpu.calls == old(gpu.calls) + [DestroyAllocator(allocator)] + [DestroyFence(oneshotFence)] +
                [DestroyCommandPool(universalPool)] + [DestroyCommandPool(graphicsPool)] +
                [DestroyCommandPool(computePool)] + [DestroyCommandPool(transferPool)] + [DestroyDevice(logical)]
    {
      gpu.Emit(DestroyAllocator(allocator));
      gpu.Emit(DestroyFence(oneshotFence));
      gpu.Emit(DestroyCommandPool(universalPool));
      gpu.Emit(DestroyCommandPool(graphicsPool));
      gpu.Emit(DestroyCommandPool(computePool));
      gpu.Emit(DestroyCommandPool(transferPool));
      gpu.Emit(DestroyDevice(logical));
    }

    /** Device::oneshot_begin: a primary command buffer from the pool of the queue type, begun for one
        submission. */
    method OneshotBegin(queue: QueueType, gpu: Gpu) returns (cmd: CommandBuffer)
      modifies gpu
      ensures fresh(cmd) && cmd.pool == PoolOf(queue) && cmd.commands == []
      ensures gpu.calls == old(gpu.calls) + [AllocateCommandBuffer(PoolOf(queue), cmd.handle)] +
                [BeginCommandBuffer(cmd.handle)]
    {
      var pool := PoolOf(queue);
      var handle := gpu.Fresh();
      gpu.Emit(AllocateCommandBuffer(pool, handle));
      cmd := new CommandBuffer(handle, pool);
      gpu.Emit(BeginCommandBuffer(handle));
    }

    /** Device::oneshot_end: ends the buffer, submits it to the queue of the queue type with the
        one-shot fence, waits until the fence wait stops timing out, resets the fence and frees the
        buffer to the pool of the queue type. `replies` are the answers of successive fence waits;
        the source spins for as long as they are eTimeout. */
    method OneshotEnd(queue: QueueType, cmd: CommandBuffer, waits: seq<nat>, signals: seq<nat>,
                      replies: seq<VkResult>, gpu: Gpu) returns (attempts: nat)
      requires exists k :: 0 <= k < |replies| && replies[k] != Timeout
      modifies gpu
      ensures 1 <= attempts <= |replies| && replies[attempts - 1] != Timeout
      ensures forall k :: 0 <= k < attempts - 1 ==> replies[k] == Timeout
      ensures gpu.calls == old(gpu.calls) + [EndCommandBuffer(cmd.handle)] +
                [Submit(QueueOf(queue), cmd.handle, waits, signals, oneshotFence)] +
                Repeat(WaitForFence(oneshotFence), attempts) +
                [ResetFence(oneshotFence)] + [FreeCommandBuffer(PoolOf(queue), cmd.handle)]
    {
      gpu.Emit(EndCommandBuffer(cmd.handle));
      gpu.Emit(Submit(QueueOf(queue), cmd.handle, waits, signals, oneshotFence));
      attempts := AwaitFence(oneshotFence, replies, gpu);
      gpu.Emit(ResetFence(oneshotFence));
      gpu.Emit(FreeCommandBuffer(PoolOf(queue), cmd.handle));
    }
  }
}
