// A device buffer with its allocation, and the host reads and writes through a temporary mapping.

module Buffers {
  import opened Common
  import opened Vk

  /** vk::BufferUsageFlagBits::eUniformBuffer. */
  const UNIFORM_BUFFER_USAGE: nat := 0x10

  /** Buffer::CreateInfo, without the allocator handle. An alignment of 0 means none. */
  datatype CreateInfo = CreateInfo(size: u64, alignment: u64, usage: nat, queueFamilies: seq<nat>, hostAccessible: bool)

  /** A create-info with the member defaults: no alignment, a uniform buffer, no host access. */
  function DefaultCreateInfo(size: u64, queueFamilies: seq<nat>): (info: CreateInfo)
    ensures info.alignment == 0 && info.usage == UNIFORM_BUFFER_USAGE && !info.hostAccessible
    ensures info.size == size && info.queueFamilies == queueFamilies
  {
    CreateInfo(size, 0, UNIFORM_BUFFER_USAGE, queueFamilies, false)
  }

  /** The memory properties of the allocation the allocator chose (HostVisible, HostCoherent). */
  datatype MemoryProperties = MemoryProperties(hostVisible: bool, hostCoherent: bool)

  /** A buffer shared by several queue families is concurrent, otherwise exclusive. */
  function SharingFor(families: seq<nat>): (m: SharingMode)
    ensures m == Concurrent <==> |families| > 1
  {
    if |families| > 1 then Concurrent else Exclusive
  }

  /** The vkCreateBuffer request for a create-info: an explicit alignment exactly when one above 0 is given. */
  function Describe(info: CreateInfo): (d: BufferDesc)
    ensures d.size == info.size && d.usage == info.usage && d.queueFamilies == info.queueFamilies
    ensures d.hostAccess == info.hostAccessible
    ensures d.alignment.Some? <==> info.alignment > 0
    ensures d.alignment.Some? ==> d.alignment.value == info.alignment
    ensures (d.sharing == Concurrent) <==> |info.queueFamilies| > 1
  {
    BufferDesc(info.size, info.usage, SharingFor(info.queueFamilies), info.queueFamilies, info.hostAccessible,
               if info.alignment > 0 then Some(info.alignment) else None)
  }

  const STAGING_MESSAGE: string := "ReBAR required, staging buffer not yet implemented"

  /** What Buffer::read asks of the allocator. */
  function ReadCalls(allocation: nat, requireStaging: bool, byteCount: nat): seq<Call>
  {
    (if requireStaging then [Diagnostic(STAGING_MESSAGE)] else []) +
    [MapMemory(allocation), CopyFromMapped(allocation, byteCount), UnmapMemory(allocation)]
  }

  /** What Buffer::write asks of the allocator. */
  function WriteCalls(allocation: nat, requireStaging: bool, requireFlushing: bool, byteCount: nat): seq<Call>
  {
    (if requireStaging then [Diagnostic(STAGING_MESSAGE)] else []) +
    [MapMemory(allocation), CopyToMapped(allocation, byteCount), UnmapMemory(allocation)] +
    (if requireFlushing then [FlushAllocation(allocation, 0, byteCount)] else [])
  }

  /** A write flushes exactly when the memory is not host-coherent, and then the whole written range,
      after the mapping is closed; the copy always goes through the mapping, staging or not. */
  lemma WriteFlushesIffRequired(allocation: nat, requireStaging: bool, requireFlushing: bool, byteCount: nat)
    ensures var w := WriteCalls(allocation, requireStaging, requireFlushing, byteCount);
            (exists k :: 0 <= k < |w| && w[k].FlushAllocation?) <==> requireFlushing
    ensures var w := WriteCalls(allocation, requireStaging, requireFlushing, byteCount);
            requireFlushing ==> w[|w| - 1] == FlushAllocation(allocation, 0, byteCount) &&
                                w[|w| - 2] == UnmapMemory(allocation)
    ensures CopyToMapped(allocation, byteCount) in WriteCalls(allocation, requireStaging, requireFlushing, byteCount)
  {
    var w := WriteCalls(allocation, requireStaging, requireFlushing, byteCount);
    var pre := if requireStaging then 1 else 0;
    assert w[pre] == MapMemory(allocation) && w[pre + 1] == CopyToMapped(allocation, byteCount);
    if !requireFlushing {
      forall k | 0 <= k < |w| ensures !w[k].FlushAllocation? {
        assert |w| == pre + 3;
        if requireStaging && k == 0 { assert w[k] == Diagnostic(STAGING_MESSAGE); }
        else { assert w[k] == [MapMemory(allocation), CopyToMapped(allocation, byteCount), UnmapMemory(allocation)][k - pre]; }
      }
    } else {
      assert w[|w| - 1].FlushAllocation?;
    }
  }

  /** Staging only adds a diagnostic in front: the mapping calls are the same either way. */
  lemma StagingOnlyWarns(allocation: nat, requireFlushing: bool, byteCount: nat)
    ensures ReadCalls(allocation, true, byteCount) == [Diagnostic(STAGING_MESSAGE)] + ReadCalls(allocation, false, byteCount)
    ensures WriteCalls(allocation, true, requireFlushing, byteCount) ==
              [Diagnostic(STAGING_MESSAGE)] + WriteCalls(allocation, false, requireFlushing, byteCount)
    ensures !(exists k :: 0 <= k < |ReadCalls(allocation, false, byteCount)| &&
                          ReadCalls(allocation, false, byteCount)[k].Diagnostic?)
  {
    var r := ReadCalls(allocation, false, byteCount);
    assert r == [MapMemory(allocation), CopyFromMapped(allocation, byteCount), UnmapMemory(allocation)];
  }

  class Buffer {
    var data: nat
    var allocation: nat
    var size: u64
    var requireStaging: bool
    var requireFlushing: bool

    constructor ()
    {
    }

    /** Buffer::init. `props` is what the allocator reports for the allocation it chose; it is only
        asked for when host access was requested. */
    method Init(info: CreateInfo, props: MemoryProperties, gpu: Gpu)
      modifies this, gpu
      ensures size == info.size
      ensures requireStaging <==> info.hostAccessible && !props.hostVisible
      ensures requireFlushing <==> info.hostAccessible && !props.hostCoherent
      ensures data != NULL && allocation != NULL
      ensures gpu.calls == old(gpu.calls) + [CreateBuffer(Describe(info), data, allocation)]
    {
      data := gpu.Fresh();
      allocation := gpu.Fresh();
      gpu.Emit(CreateBuffer(Describe(info), data, allocation));
      size := info.size;
      if info.hostAccessible {
        requireStaging := !props.hostVisible;
        requireFlushing := !props.hostCoherent;
      } else {
        requireStaging := false;
        requireFlushing := false;
      }
    }

    method Destroy(gpu: Gpu)
      modifies gpu
      ensures gpu.calls == old(gpu.calls) + [DestroyBuffer(data, allocation)]
    {
      gpu.Emit(DestroyBuffer(data, allocation));
    }

    /** Buffer::read of `byteCount` bytes (sizeof(T) for the typed overload). */
    method Read(byteCount: nat, gpu: Gpu)
      modifies gpu
      ensures gpu.calls == old(gpu.calls) + ReadCalls(allocation, requireStaging, byteCount)
    {
      ghost var c0 := gpu.calls;
      if requireStaging {
        gpu.Emit(Diagnostic(STAGING_MESSAGE));
      }
      ghost var c1 := gpu.calls;
      gpu.Emit(MapMemory(allocation));
      gpu.Emit(CopyFromMapped(allocation, byteCount));
      gpu.Emit(UnmapMemory(allocation));
      assert gpu.calls == c1 + [MapMemory(allocation), CopyFromMapped(allocation, byteCount), UnmapMemory(allocation)];
    }

    /** Buffer::write of `byteCount` bytes (sizeof(T) for the typed overload). */
    method Write(byteCount: nat, gpu: Gpu)
      modifies gpu
      ensures gpu.calls == old(gpu.calls) + WriteCalls(allocation, requireStaging, requireFlushing, byteCount)
    {
      if requireStaging {
        gpu.Emit(Diagnostic(STAGING_MESSAGE));
      }
      ghost var c1 := gpu.calls;
      gpu.Emit(MapMemory(allocation));
      gpu.Emit(CopyToMapped(allocation, byteCount));
      gpu.Emit(UnmapMemory(allocation));
      assert gpu.calls == c1 + [MapMemory(allocation), CopyToMapped(allocation, byteCount), UnmapMemory(allocation)];
      if requireFlushing {
        gpu.Emit(FlushAllocation(allocation, 0, byteCount));
      }
    }
  }
}
