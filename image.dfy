// The image state tracker: an image remembers the layout, pipeline stages and access of its last
// use, and every transition records one barrier from that remembered state to the requested one.

module Images {
  import opened Common
  import opened Vk
  import CoreDevice

  /** vk::ImageUsageFlagBits used here, by value. */
  const IMAGE_USAGE_SAMPLED: nat := 0x4
  const IMAGE_USAGE_DEPTH_STENCIL_ATTACHMENT: nat := 0x20
  /** vk::BufferUsageFlagBits::eTransferSrc. */
  const BUFFER_USAGE_TRANSFER_SRC: nat := 0x1

  /** The state an image is tracked in: its layout and the stages and access of its last use. */
  datatype Sync = Sync(layout: Layout, stage: StageMask, access: AccessMask)

  /** The state of a freshly created or wrapped image. */
  const INITIAL: Sync := Sync(Undefined, {TopOfPipe}, {MemoryRead, MemoryWrite})

  /** Image::CreateInfo (device and allocator handles and the allocation priority left out). */
  datatype CreateInfo = CreateInfo(format: Format, extent: Extent3D, usage: nat, aspects: AspectMask)

  /** A create-info with the member default for `aspects`. */
  function DefaultCreateInfo(format: Format, extent: Extent3D, usage: nat): (info: CreateInfo)
    ensures info.aspects == {Color}
    ensures info.format == format && info.extent == extent && info.usage == usage
  {
    CreateInfo(format, extent, usage, {Color})
  }

  datatype WrapInfo = WrapInfo(image: nat, view: nat, extent: Extent3D, aspects: AspectMask)

  /** Image::TransitionInfo without its command buffer. */
  datatype TransitionInfo = TransitionInfo(newLayout: Layout, dstStage: StageMask, dstAccess: AccessMask)

  /** A transition with the member defaults for the destination stage and access. */
  function DefaultTransition(newLayout: Layout): (t: TransitionInfo)
    ensures t.newLayout == newLayout && t.dstStage == {TopOfPipe} && t.dstAccess == {MemoryRead, MemoryWrite}
  {
    TransitionInfo(newLayout, {TopOfPipe}, {MemoryRead, MemoryWrite})
  }

  /** The state a transition asks for. */
  function Target(t: TransitionInfo): Sync
  {
    Sync(t.newLayout, t.dstStage, t.dstAccess)
  }

  /** The barrier of a transition from one state to another, over the image's whole subresource range. */
  function BarrierBetween(from: Sync, to: Sync, image: nat, aspects: AspectMask): (b: Barrier)
    ensures Source(b) == from && Destination(b) == to && b.image == image && b.aspects == aspects
  {
    Barrier(from.stage, from.access, to.stage, to.access, from.layout, to.layout, image, aspects)
  }

  function Source(b: Barrier): Sync
  {
    Sync(b.oldLayout, b.srcStage, b.srcAccess)
  }

  function Destination(b: Barrier): Sync
  {
    Sync(b.newLayout, b.dstStage, b.dstAccess)
  }

  /** The barriers a run of transitions records, starting from state `from`. */
  function Barriers(from: Sync, ts: seq<TransitionInfo>, image: nat, aspects: AspectMask): seq<Barrier>
    decreases |ts|
  {
    if ts == [] then []
    else [BarrierBetween(from, Target(ts[0]), image, aspects)] + Barriers(Target(ts[0]), ts[1..], image, aspects)
  }

  /** The state after a run of transitions. */
  function After(from: Sync, ts: seq<TransitionInfo>): (s: Sync)
    ensures ts != [] ==> s == Target(ts[|ts| - 1])
    ensures ts == [] ==> s == from
    decreases |ts|
  {
    if ts == [] then from else After(Target(ts[0]), ts[1..])
  }

  /** Consecutive transitions chain: the first barrier starts at the tracked state, each later one
      starts where the one before it ended, and each ends at the state its transition asked for. */
  lemma {:induction false} BarriersChain(from: Sync, ts: seq<TransitionInfo>, image: nat, aspects: AspectMask)
    ensures |Barriers(from, ts, image, aspects)| == |ts|
    ensures ts != [] ==> Source(Barriers(from, ts, image, aspects)[0]) == from
    ensures forall k :: 0 <= k < |ts| ==> Destination(Barriers(from, ts, image, aspects)[k]) == Target(ts[k])
    ensures forall k :: 0 < k < |ts| ==>
              Source(Barriers(from, ts, image, aspects)[k]) == Destination(Barriers(from, ts, image, aspects)[k - 1])
    decreases |ts|
  {
    if ts != [] {
      var rest := ts[1..];
      var tail := Barriers(Target(ts[0]), rest, image, aspects);
      BarriersChain(Target(ts[0]), rest, image, aspects);
      var bs := Barriers(from, ts, image, aspects);
      assert bs == [BarrierBetween(from, Target(ts[0]), image, aspects)] + tail;
      forall k | 0 < k < |ts| ensures Source(bs[k]) == Destination(bs[k - 1]) {
        assert bs[k] == tail[k - 1];
        if k > 1 { assert bs[k - 1] == tail[k - 2]; }
      }
      forall k | 0 <= k < |ts| ensures Destination(bs[k]) == Target(ts[k]) {
        if k > 0 { assert bs[k] == tail[k - 1] && ts[k] == rest[k - 1]; }
      }
    }
  }

  /** A transition to the state the image is already in records a barrier from that state to itself. */
  lemma SelfTransition(s: Sync, image: nat, aspects: AspectMask)
    ensures After(s, [TransitionInfo(s.layout, s.stage, s.access)]) == s
    ensures Source(BarrierBetween(s, s, image, aspects)) == Destination(BarrierBetween(s, s, image, aspects))
  {
  }

  /** An Image (also the base of DepthBuffer and DepthStencil). */
  class Image {
    var allocation: nat
    var image: nat
    var view: nat
    var extent: Extent3D
    var format: Format
    var aspects: AspectMask
    var lastLayout: Layout
    var lastAccess: AccessMask
    var lastStage: StageMask
    var owning: bool

    constructor ()
    {
    }

    /** The tracked state. */
    function State(): Sync
      reads this`lastLayout, this`lastStage, this`lastAccess
    {
      Sync(lastLayout, lastStage, lastAccess)
    }

    /** Image::init: an owned image in the initial state, with its memory and a view over it. */
    method Init(info: CreateInfo, gpu: Gpu)
      modifies this, gpu
      ensures owning && State() == INITIAL
      ensures format == info.format && extent == info.extent && aspects == info.aspects
      ensures gpu.calls == old(gpu.calls) + [CreateImage(info.format, info.extent, info.usage, image, allocation)] +
                [CreateImageView(image, info.format, info.aspects, view)]
    {
      owning := true;
      format, extent, aspects := info.format, info.extent, info.aspects;
      lastLayout, lastAccess, lastStage := Undefined, {MemoryRead, MemoryWrite}, {TopOfPipe};
      CreateWithView(info.usage, gpu);
    }

    /** The image, its allocation and its 2D view, from the current format, extent and aspects. */
    method CreateWithView(usage: nat, gpu: Gpu)
      modifies this`image, this`allocation, this`view, gpu
      ensures gpu.calls == old(gpu.calls) + [CreateImage(format, extent, usage, image, allocation)] +
                [CreateImageView(image, format, aspects, view)]
    {
      image := gpu.Fresh();
      allocation := gpu.Fresh();
      gpu.Emit(CreateImage(format, extent, usage, image, allocation));
      view := gpu.Fresh();
      gpu.Emit(CreateImageView(image, format, aspects, view));
    }

    /** Image::wrap: a borrowed image (a swapchain image) in the initial state. The format is not touched. */
    method Wrap(info: WrapInfo)
      modifies this
      ensures !owning && State() == INITIAL
      ensures image == info.image && view == info.view && extent == info.extent && aspects == info.aspects
      ensures format == old(format) && allocation == old(allocation)
    {
      owning := false;
      image, view, extent, aspects := info.image, info.view, info.extent, info.aspects;
      lastLayout, lastAccess, lastStage := Undefined, {MemoryRead, MemoryWrite}, {TopOfPipe};
    }

    /** Image::destroy: frees the image and its view only when the image is owned. */
    method Destroy(gpu: Gpu)
      modifies gpu
      ensures owning ==> gpu.calls == old(gpu.calls) + [DestroyImage(image, allocation)] + [DestroyImageView(view)]
      ensures !owning ==> gpu.calls == old(gpu.calls)
    {
      if owning {
        gpu.Emit(DestroyImage(image, allocation));
        gpu.Emit(DestroyImageView(view));
      }
    }

    /** Image::transition_layout: one barrier from the tracked state to the requested one, which
        becomes the tracked state. */
    method TransitionLayout(info: TransitionInfo, cmd: CommandBuffer)
      modifies this`lastLayout, this`lastAccess, this`lastStage, cmd
      ensures cmd.commands == old(cmd.commands) + [PipelineBarrier(BarrierBetween(old(State()), Target(info), image, aspects))]
      ensures State() == Target(info)
    {
      cmd.Record(PipelineBarrier(Barrier(lastStage, lastAccess, info.dstStage, info.dstAccess,
                                         lastLayout, info.newLayout, image, aspects)));
      lastLayout := info.newLayout;
      lastAccess := info.dstAccess;
      lastStage := info.dstStage;
    }

    /** Image::blit: a linear blit of the whole of `src` (in TransferSrcOptimal) onto the whole of this
        image (in TransferDstOptimal). Neither image's tracked state changes. */
    method Blit(cmd: CommandBuffer, src: Image)
      modifies cmd
      ensures cmd.commands == old(cmd.commands) + [BlitImage(
                src.image, TransferSrcOptimal, Extent3D(src.extent.width, src.extent.height, 1), src.aspects,
                image, TransferDstOptimal, Extent3D(extent.width, extent.height, 1), aspects)]
      ensures State() == old(State()) && src.State() == old(src.State())
    {
      cmd.Record(BlitImage(src.image, TransferSrcOptimal, Extent3D(src.extent.width, src.extent.height, 1), src.aspects,
                           image, TransferDstOptimal, Extent3D(extent.width, extent.height, 1), aspects));
    }

    /** Image::load_texture: uploads `byteCount` bytes through a host-writable staging buffer and a
        one-shot universal command buffer, leaving the image in TransferDstOptimal after transfer
        writes. `replies` are the answers of the one-shot fence waits. */
    method LoadTexture(device: CoreDevice.Device, byteCount: u64, replies: seq<VkResult>, gpu: Gpu)
      returns (ghost cmd: CommandBuffer, staging: nat, stagingMemory: nat, attempts: nat)
      requires exists k :: 0 <= k < |replies| && replies[k] != Timeout
      modifies this`lastLayout, this`lastAccess, this`lastStage, gpu
      ensures State() == Sync(TransferDstOptimal, {Transfer}, {TransferWrite})
      ensures fresh(cmd) && cmd.pool == device.universalPool
      ensures cmd.commands == [PipelineBarrier(BarrierBetween(old(State()), State(), image, aspects)),
                               CopyBufferToImage(staging, image, TransferDstOptimal, aspects, extent)]
      ensures 1 <= attempts <= |replies| && replies[attempts - 1] != Timeout
      ensures forall k :: 0 <= k < attempts - 1 ==> replies[k] == Timeout
      ensures gpu.calls == old(gpu.calls) + UploadCalls(byteCount, device.universalFamily, staging, stagingMemory) +
                [AllocateCommandBuffer(device.universalPool, cmd.handle)] + [BeginCommandBuffer(cmd.handle)] +
                [EndCommandBuffer(cmd.handle)] +
                [Submit(device.universalQueue, cmd.handle, [], [], device.oneshotFence)] +
                Repeat(WaitForFence(device.oneshotFence), attempts) +
                [ResetFence(device.oneshotFence)] + [FreeCommandBuffer(device.universalPool, cmd.handle)] +
                [DestroyBuffer(staging, stagingMemory)]
    {
      staging, stagingMemory := Upload(byteCount, device.universalFamily, gpu);
      var c := device.OneshotBegin(CoreDevice.Universal, gpu);
      TransitionLayout(TransitionInfo(TransferDstOptimal, {Transfer}, {TransferWrite}), c);
      c.Record(CopyBufferToImage(staging, image, TransferDstOptimal, aspects, extent));
      attempts := device.OneshotEnd(CoreDevice.Universal, c, [], [], replies, gpu);
      gpu.Emit(DestroyBuffer(staging, stagingMemory));
      cmd := c;
    }

    /** DepthBuffer::init: an owned depth image in the stored depth-buffer format, in the initial state. */
    method InitDepthBuffer(formats: DepthFormats, extent3: Extent3D, gpu: Gpu)
      modifies this, gpu
      ensures owning && State() == INITIAL
      ensures format == formats.depthBuffer && extent == extent3 && aspects == {Depth}
      ensures gpu.calls == old(gpu.calls) +
                [CreateImage(format, extent, IMAGE_USAGE_DEPTH_STENCIL_ATTACHMENT + IMAGE_USAGE_SAMPLED, image, allocation)] +
                [CreateImageView(image, format, aspects, view)]
    {
      owning := true;
      extent, format, aspects := extent3, formats.depthBuffer, {Depth};
      lastLayout, lastAccess, lastStage := Undefined, {MemoryRead, MemoryWrite}, {TopOfPipe};
      CreateWithView(IMAGE_USAGE_DEPTH_STENCIL_ATTACHMENT + IMAGE_USAGE_SAMPLED, gpu);
    }

    /** DepthStencil::init: as DepthBuffer::init with the depth-stencil format and both aspects. */
    method InitDepthStencil(formats: DepthFormats, extent3: Extent3D, gpu: Gpu)
      modifies this, gpu
      ensures owning && State() == INITIAL
      ensures format == formats.depthStencil && extent == extent3 && aspects == {Depth, Stencil}
      ensures gpu.calls == old(gpu.calls) +
                [CreateImage(format, extent, IMAGE_USAGE_DEPTH_STENCIL_ATTACHMENT + IMAGE_USAGE_SAMPLED, image, allocation)] +
                [CreateImageView(image, format, aspects, view)]
    {
      owning := true;
      extent, format, aspects := extent3, formats.depthStencil, {Depth, Stencil};
      lastLayout, lastAccess, lastStage := Undefined, {MemoryRead, MemoryWrite}, {TopOfPipe};
      CreateWithView(IMAGE_USAGE_DEPTH_STENCIL_ATTACHMENT + IMAGE_USAGE_SAMPLED, gpu);
    }
  }

  /** The staging part of load_texture: an exclusive transfer-source buffer for the universal family,
      host-writable, mapped, filled and unmapped. */
  function UploadCalls(byteCount: u64, family: nat, buffer: nat, memory: nat): seq<Call>
  {
    [CreateBuffer(BufferDesc(byteCount, BUFFER_USAGE_TRANSFER_SRC, Exclusive, [family], true, None), buffer, memory),
     MapMemory(memory), CopyToMapped(memory, byteCount), UnmapMemory(memory)]
  }

  method Upload(byteCount: u64, family: nat, gpu: Gpu) returns (buffer: nat, memory: nat)
    modifies gpu
    ensures gpu.calls == old(gpu.calls) + UploadCalls(byteCount, family, buffer, memory)
  {
    buffer := gpu.Fresh();
    memory := gpu.Fresh();
    ghost var c0 := gpu.calls;
    gpu.Emit(CreateBuffer(BufferDesc(byteCount, BUFFER_USAGE_TRANSFER_SRC, Exclusive, [family], true, None), buffer, memory));
    gpu.Emit(MapMemory(memory));
    gpu.Emit(CopyToMapped(memory, byteCount));
    gpu.Emit(UnmapMemory(memory));
    AppendFour(c0, UploadCalls(byteCount, family, buffer, memory));
  }

  /** Depth formats in order of preference. */
  const DEPTH_BUFFER_FORMATS: seq<Format> := [D32Sfloat, D24UnormS8Uint, D16UnormS8Uint, D32SfloatS8Uint]
  const DEPTH_STENCIL_FORMATS: seq<Format> := [D24UnormS8Uint, D16UnormS8Uint, D32SfloatS8Uint]

  /** The function-static formats of DepthBuffer::get_format and DepthStencil::get_format. */
  class DepthFormats {
    var depthBuffer: Format
    var depthStencil: Format

    constructor ()
      ensures depthBuffer == FormatUndefined && depthStencil == FormatUndefined
    {
      depthBuffer := FormatUndefined;
      depthStencil := FormatUndefined;
    }

    /** DepthBuffer::set_format. `attachable` lists the formats whose optimal-tiling features include
        depth-stencil attachment on the device. */
    method SetDepthBufferFormat(attachable: seq<Format>)
      modifies this`depthBuffer
      ensures depthBuffer == FirstPreferred(DEPTH_BUFFER_FORMATS, attachable).GetOr(old(depthBuffer))
    {
      var f := FindFirstPreferred(DEPTH_BUFFER_FORMATS, attachable);
      if f.Some? {
        depthBuffer := f.value;
      }
    }

    /** DepthStencil::set_format. */
    method SetDepthStencilFormat(attachable: seq<Format>)
      modifies this`depthStencil
      ensures depthStencil == FirstPreferred(DEPTH_STENCIL_FORMATS, attachable).GetOr(old(depthStencil))
    {
      var f := FindFirstPreferred(DEPTH_STENCIL_FORMATS, attachable);
      if f.Some? {
        depthStencil := f.value;
      }
    }
  }

  /** The depth-buffer pick takes D32Sfloat whenever the device can attach it, and nothing outside the list. */
  lemma DepthBufferPick(attachable: seq<Format>, old_: Format)
    ensures D32Sfloat in attachable ==> FirstPreferred(DEPTH_BUFFER_FORMATS, attachable) == Some(D32Sfloat)
    ensures FirstPreferred(DEPTH_BUFFER_FORMATS, attachable).None? <==>
              (forall f :: f in DEPTH_BUFFER_FORMATS ==> f !in attachable)
    ensures FirstPreferred(DEPTH_BUFFER_FORMATS, attachable).Some? ==>
              FirstPreferred(DEPTH_BUFFER_FORMATS, attachable).value in attachable
  {
    var r := FirstPreferred(DEPTH_BUFFER_FORMATS, attachable);
    if r.None? {
      forall f | f in DEPTH_BUFFER_FORMATS ensures f !in attachable {
        var i :| 0 <= i < |DEPTH_BUFFER_FORMATS| && DEPTH_BUFFER_FORMATS[i] == f;
      }
    }
  }
}
