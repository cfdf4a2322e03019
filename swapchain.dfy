// The swapchain of the engine core: surface configuration on (re)creation, per-image frame slots,
// and the per-frame present sequence with its resize requests and frame pacing.

module Swapchains {
  import opened Common
  import opened Vk
  import Images
  import VisDevice
  import CoreDevice

  datatype SurfaceCapabilities = SurfaceCapabilities(minImageCount: u32, maxImageCount: u32,
                                                     minExtent: Extent2D, maxExtent: Extent2D)

  /** The window size clamped to the surface's extent range, dimension by dimension. */
  function ClampExtent(size: Extent2D, caps: SurfaceCapabilities): (e: Extent2D)
    ensures caps.minExtent.width <= caps.maxExtent.width ==>
              caps.minExtent.width <= e.width <= caps.maxExtent.width
    ensures caps.minExtent.height <= caps.maxExtent.height ==>
              caps.minExtent.height <= e.height <= caps.maxExtent.height
    ensures caps.minExtent.width <= size.width <= caps.maxExtent.width ==> e.width == size.width
    ensures caps.minExtent.height <= size.height <= caps.maxExtent.height ==> e.height == size.height
    ensures size.width < caps.minExtent.width ==> e.width == caps.minExtent.width
    ensures size.height < caps.minExtent.height ==> e.height == caps.minExtent.height
    ensures caps.minExtent.width <= caps.maxExtent.width < size.width ==> e.width == caps.maxExtent.width
    ensures caps.minExtent.height <= caps.maxExtent.height < size.height ==> e.height == caps.maxExtent.height
  {
    Extent2D(Clamp(size.width, caps.minExtent.width, caps.maxExtent.width),
             Clamp(size.height, caps.minExtent.height, caps.maxExtent.height))
  }

  /** Surface formats in order of preference, all in the sRGB non-linear colour space. */
  const PREFERRED_FORMATS: seq<SurfaceFormat> := [
    SurfaceFormat(A2R10G10B10UnormPack32, SrgbNonlinear),
    SurfaceFormat(A2B10G10R10UnormPack32, SrgbNonlinear),
    SurfaceFormat(R16G16B16A16Sfloat, SrgbNonlinear),
    SurfaceFormat(R16G16B16A16Unorm, SrgbNonlinear),
    SurfaceFormat(R8G8B8A8Srgb, SrgbNonlinear),
    SurfaceFormat(B8G8R8A8Srgb, SrgbNonlinear),
    SurfaceFormat(R8G8B8A8Unorm, SrgbNonlinear),
    SurfaceFormat(B8G8R8A8Unorm, SrgbNonlinear)]

  const PREFERRED_PRESENT_MODES: seq<PresentMode> := [Fifo, Mailbox, Immediate]

  /** The surface format: the first preferred one the surface offers, else the first it offers. */
  function PickFormat(available: seq<SurfaceFormat>): SurfaceFormat
    requires |available| > 0
  {
    FirstPreferred(PREFERRED_FORMATS, available).GetOr(available[0])
  }

  /** The present mode: the first preferred one the surface offers, else the first it offers. */
  function PickPresentMode(available: seq<PresentMode>): PresentMode
    requires |available| > 0
  {
    FirstPreferred(PREFERRED_PRESENT_MODES, available).GetOr(available[0])
  }

  /** Whether the renderer must convert to sRGB itself: not when the swapchain format already is sRGB. */
  function SrgbRequired(format: Format): (b: bool)
    ensures !b <==> format in {R8G8B8A8Srgb, B8G8R8A8Srgb}
  {
    !(format == R8G8B8A8Srgb || format == B8G8R8A8Srgb)
  }

  /** The chosen format is one the surface offers; it is the first preferred one on offer, and the
      surface's first format only when it offers none of the preferred ones. */
  lemma FormatPick(available: seq<SurfaceFormat>)
    requires |available| > 0
    ensures PickFormat(available) in available
    ensures (forall i :: 0 <= i < |PREFERRED_FORMATS| ==> PREFERRED_FORMATS[i] !in available) ==>
              PickFormat(available) == available[0]
    ensures forall i :: 0 <= i < |PREFERRED_FORMATS| && PREFERRED_FORMATS[i] in available ==>
              exists j :: 0 <= j <= i && PickFormat(available) == PREFERRED_FORMATS[j]
  {
    var r := FirstPreferred(PREFERRED_FORMATS, available);
    forall i | 0 <= i < |PREFERRED_FORMATS| && PREFERRED_FORMATS[i] in available
      ensures exists j :: 0 <= j <= i && PickFormat(available) == PREFERRED_FORMATS[j]
    {
      var j :| 0 <= j < |PREFERRED_FORMATS| && PREFERRED_FORMATS[j] == r.value &&
               forall j' :: 0 <= j' < j ==> PREFERRED_FORMATS[j'] !in available;
      assert j <= i;
    }
  }

  /** When the surface offers one of the four wide formats, the pick is one of them and the
      renderer converts to sRGB itself. */
  lemma WideFormatNeedsSrgbPass(available: seq<SurfaceFormat>, i: nat)
    requires |available| > 0
    requires i < 4 && PREFERRED_FORMATS[i] in available
    ensures PickFormat(available).format in {A2R10G10B10UnormPack32, A2B10G10R10UnormPack32, R16G16B16A16Sfloat, R16G16B16A16Unorm}
    ensures SrgbRequired(PickFormat(available).format)
  {
    var r := FirstPreferred(PREFERRED_FORMATS, available);
    assert r.Some?;
    var j :| 0 <= j < |PREFERRED_FORMATS| && PREFERRED_FORMATS[j] == r.value &&
             forall j' :: 0 <= j' < j ==> PREFERRED_FORMATS[j'] !in available;
    assert j <= i;
  }

  /** FIFO, which every surface supports, wins whenever it is offered; the pick is always on offer. */
  lemma PresentModePick(available: seq<PresentMode>)
    requires |available| > 0
    ensures Fifo in available ==> PickPresentMode(available) == Fifo
    ensures PickPresentMode(available) in available
    ensures Fifo !in available && Mailbox in available ==> PickPresentMode(available) == Mailbox
  {
    if Fifo !in available && Mailbox in available {
      var r := FirstPreferred(PREFERRED_PRESENT_MODES, available);
      assert PREFERRED_PRESENT_MODES[1] in available;
      var j :| 0 <= j < |PREFERRED_PRESENT_MODES| && PREFERRED_PRESENT_MODES[j] == r.value &&
               forall j' :: 0 <= j' < j ==> PREFERRED_PRESENT_MODES[j'] !in available;
      assert j != 0;
    }
  }

  /** The image count asked for: one more than the surface minimum, capped by the surface maximum,
      where a maximum of 0 means no limit. The increment is 32-bit unsigned arithmetic. */
  function MinImageCount(caps: SurfaceCapabilities): (n: u32)
    ensures var max := if caps.maxImageCount == 0 then UINT32_MAX else caps.maxImageCount;
            n <= max &&
            (caps.minImageCount < max ==> n == caps.minImageCount + 1) &&
            (max <= caps.minImageCount < UINT32_MAX ==> n == max)
    ensures caps.minImageCount == UINT32_MAX ==> n == 0
  {
    var max := if caps.maxImageCount == 0 then UINT32_MAX else caps.maxImageCount;
    var wanted := (caps.minImageCount + 1) % U32_LIMIT;
    if max < wanted then max else wanted
  }

  /** The format loop of init: `std::find` over the preferences, falling back to the first on offer. */
  method ChooseFormat(available: seq<SurfaceFormat>) returns (chosen: SurfaceFormat)
    requires |available| > 0
    ensures chosen == PickFormat(available)
  {
    var preferred := FindFirstPreferred(PREFERRED_FORMATS, available);
    chosen := preferred.GetOr(available[0]);
  }

  /** The present-mode loop of init. */
  method ChoosePresentMode(available: seq<PresentMode>) returns (mode: PresentMode)
    requires |available| > 0
    ensures mode == PickPresentMode(available)
  {
    var preferred := FindFirstPreferred(PREFERRED_PRESENT_MODES, available);
    mode := preferred.GetOr(available[0]);
  }

  /** The frame slot a present uses, and the 32-bit frame counter after it. */
  function Slot(counter: nat, n: nat): (s: nat)
    requires n > 0
    ensures s < n
  {
    counter % n
  }

  function NextCounter(counter: u32): (c: u32)
    ensures counter < UINT32_MAX ==> c == counter + 1
    ensures counter == UINT32_MAX ==> c == 0
  {
    (counter + 1) % U32_LIMIT
  }

  /** Away from the counter's wrap, consecutive presents use consecutive slots, cyclically. */
  lemma ConsecutiveSlots(counter: u32, n: nat)
    requires n > 0 && counter < UINT32_MAX
    ensures Slot(NextCounter(counter), n) == (Slot(counter, n) + 1) % n
  {
    var q, r := counter / n, counter % n;
    assert counter == q * n + r;
    if r + 1 < n {
      ModUnique(counter + 1, n, q, r + 1);
    } else {
      assert counter + 1 == (q + 1) * n;
      ModUnique(counter + 1, n, q + 1, 0);
    }
  }

  /** Any n consecutive presents away from the wrap use every one of the n slots. */
  lemma EverySlotUsed(counter: u32, n: nat, s: nat)
    requires n > 0 && s < n && counter + n <= U32_LIMIT
    ensures exists k :: 0 <= k < n && SlotAfter(counter, k, n) == s
  {
    var q, r := counter / n, counter % n;
    assert counter == q * n + r;
    if r <= s {
      assert counter + (s - r) == q * n + s;
      ModUnique(counter + (s - r), n, q, s);
      assert SlotAfter(counter, s - r, n) == s;
    } else {
      var k := n - r + s;
      assert counter + k == (q + 1) * n + s;
      ModUnique(counter + k, n, q + 1, s);
      assert SlotAfter(counter, k, n) == s;
    }
  }

  /** The slot of the k-th present after the one with counter `counter`, away from the wrap. */
  function SlotAfter(counter: nat, k: nat, n: nat): nat
    requires n > 0
  {
    Slot(counter + k, n)
  }

  /** At the wrap the counter restarts at 0, so with three slots the same slot is used twice in a row. */
  lemma WrapRepeatsSlot()
    ensures Slot(NextCounter(UINT32_MAX), 3) == Slot(UINT32_MAX, 3) == 0
  {
  }

  /** The remainder of a value written as a multiple of n plus a rest below n is that rest. */
  lemma ModUnique(a: nat, n: nat, q: int, r: int)
    requires n > 0 && 0 <= r < n && a == q * n + r
    ensures a % n == r
  {
    var d := a / n;
    var m := a % n;
    assert a == d * n + m;
    var k := q - d;
    assert k * n == m - r by { assert q * n - d * n == k * n; }
    if k > 0 {
      AtLeast(k, n);
    } else if k < 0 {
      AtLeast(-k, n);
    }
  }

  lemma AtLeast(k: int, n: nat)
    requires k >= 1
    ensures k * n >= n
  {
    assert k * n == (k - 1) * n + n;
    assert (k - 1) * n >= 0;
  }

  /** How long a frame is held back: only when it came in under the target frame time, and then by
      the difference, so that the frame lasts max(target, elapsed) nanoseconds. */
  function PacingSleep(target: int, elapsed: int): (d: Option<int>)
    ensures d.Some? <==> target > elapsed
    ensures d.Some? ==> d.value > 0
    ensures elapsed + d.GetOr(0) == if target > elapsed then target else elapsed
  {
    if target > elapsed then Some(target - elapsed) else None
  }

  function SleepCalls(target: int, elapsed: int): seq<Call>
  {
    match PacingSleep(target, elapsed)
    case Some(d) => [Sleep(d)]
    case None => []
  }

  /** A frame slot: a command pool with one command buffer, a fence signalled when the slot may be
      recorded again, and two semaphores. */
  datatype SyncFrame = SyncFrame(pool: nat, cmd: CommandBuffer, readyToRecord: nat, readyToWrite: nat, readyToRead: nat)

  /** SyncFrame::init for a pool on `family` (failed creations are not modelled). */
  function FrameCalls(family: nat, f: SyncFrame): seq<Call>
  {
    [CreateCommandPool(family, false, f.pool), AllocateCommandBuffer(f.pool, f.cmd.handle),
     CreateFence(true, f.readyToRecord), CreateSemaphore(f.readyToWrite), CreateSemaphore(f.readyToRead)]
  }

  /** SyncFrame::destroy. */
  function FrameDestroyCalls(f: SyncFrame): seq<Call>
  {
    [DestroyCommandPool(f.pool), DestroyFence(f.readyToRecord), DestroySemaphore(f.readyToWrite),
     DestroySemaphore(f.readyToRead)]
  }

  function AllFrameCalls(family: nat, fs: seq<SyncFrame>): seq<Call>
    decreases |fs|
  {
    if fs == [] then [] else AllFrameCalls(family, fs[..|fs| - 1]) + FrameCalls(family, fs[|fs| - 1])
  }

  function AllFrameDestroyCalls(fs: seq<SyncFrame>): seq<Call>
    decreases |fs|
  {
    if fs == [] then [] else AllFrameDestroyCalls(fs[..|fs| - 1]) + FrameDestroyCalls(fs[|fs| - 1])
  }

  /** A frame's command buffer belongs to its pool and starts empty. */
  ghost predicate FreshFrame(f: SyncFrame)
    reads f.cmd
  {
    f.cmd.pool == f.pool && f.cmd.commands == []
  }

  method InitFrame(family: nat, gpu: Gpu) returns (f: SyncFrame)
    modifies gpu
    ensures fresh(f.cmd) && FreshFrame(f)
    ensures gpu.calls == old(gpu.calls) + FrameCalls(family, f)
  {
    var pool := gpu.Fresh();
    gpu.Emit(CreateCommandPool(family, false, pool));
    var handle := gpu.Fresh();
    var cmd := new CommandBuffer(handle, pool);
    gpu.Emit(AllocateCommandBuffer(pool, handle));
    var fence, write, read := CreateSync(gpu);
    f := SyncFrame(pool, cmd, fence, write, read);
  }

  method CreateSync(gpu: Gpu) returns (fence: nat, write: nat, read: nat)
    modifies gpu
    ensures gpu.calls == old(gpu.calls) + [CreateFence(true, fence)] + [CreateSemaphore(write)] + [CreateSemaphore(read)]
  {
    fence := gpu.Fresh();
    gpu.Emit(CreateFence(true, fence));
    write := gpu.Fresh();
    gpu.Emit(CreateSemaphore(write));
    read := gpu.Fresh();
    gpu.Emit(CreateSemaphore(read));
  }

  /** `n` frame slots, each with its pool on `family`. */
  method InitFrames(family: nat, n: nat, gpu: Gpu) returns (frames: seq<SyncFrame>)
    modifies gpu
    ensures |frames| == n
    ensures forall k :: 0 <= k < n ==> fresh(frames[k].cmd) && FreshFrame(frames[k])
    ensures gpu.calls == old(gpu.calls) + AllFrameCalls(family, frames)
  {
    frames := [];
    while |frames| < n
      invariant |frames| <= n
      invariant forall k :: 0 <= k < |frames| ==> fresh(frames[k].cmd) && FreshFrame(frames[k])
      invariant gpu.calls == old(gpu.calls) + AllFrameCalls(family, frames)
    {
      var f := InitFrame(family, gpu);
      assert (frames + [f])[..|frames|] == frames;
      frames := frames + [f];
    }
  }

  /** A borrowed colour image per swapchain image, in the initial state, with no view. */
  method WrapImages(handles: seq<nat>, extent: Extent2D) returns (images: seq<Images.Image>)
    ensures |images| == |handles|
    ensures Distinct(images)
    ensures forall k :: 0 <= k < |images| ==> fresh(images[k]) && Wrapped(images[k], handles[k], extent)
  {
    images := [];
    for i := 0 to |handles|
      invariant |images| == i
      invariant Distinct(images)
      invariant forall k :: 0 <= k < i ==> fresh(images[k]) && Wrapped(images[k], handles[k], extent)
    {
      var im := new Images.Image();
      im.Wrap(Images.WrapInfo(handles[i], NULL, Extent3D(extent.width, extent.height, 1), {Color}));
      images := images + [im];
    }
  }

  ghost predicate Wrapped(im: Images.Image, handle: nat, extent: Extent2D)
    reads im
  {
    !im.owning && im.State() == Images.INITIAL && im.image == handle && im.view == NULL &&
    im.extent == Extent3D(extent.width, extent.height, 1) && im.aspects == {Color}
  }

  /** The transitions of a present. */
  const TO_BLIT_SOURCE := Images.TransitionInfo(TransferSrcOptimal, {Blit}, {TransferRead})
  const TO_BLIT_TARGET := Images.TransitionInfo(TransferDstOptimal, {Blit}, {TransferWrite})
  const TO_PRESENT := Images.TransitionInfo(PresentSrc, {BottomOfPipe}, {})

  /** What a present records: the offscreen image made a blit source, the swapchain image a blit
      target, the blit, and the swapchain image made presentable. */
  function PresentCommands(srcBefore: Images.Sync, srcImage: nat, srcAspects: AspectMask, srcExtent: Extent3D,
                           dstBefore: Images.Sync, dstImage: nat, dstAspects: AspectMask, dstExtent: Extent3D): seq<Command>
  {
    [PipelineBarrier(Images.BarrierBetween(srcBefore, Images.Target(TO_BLIT_SOURCE), srcImage, srcAspects)),
     PipelineBarrier(Images.BarrierBetween(dstBefore, Images.Target(TO_BLIT_TARGET), dstImage, dstAspects)),
     BlitImage(srcImage, TransferSrcOptimal, Extent3D(srcExtent.width, srcExtent.height, 1), srcAspects,
               dstImage, TransferDstOptimal, Extent3D(dstExtent.width, dstExtent.height, 1), dstAspects),
     PipelineBarrier(Images.BarrierBetween(Images.Target(TO_BLIT_TARGET), Images.Target(TO_PRESENT), dstImage, dstAspects))]
  }

  /** The swapchain image's two barriers are its transition chain: from its tracked state to blit
      target, and from there to presentable; the blit happens in between, with both images in the
      layouts the blit names. */
  lemma PresentCommandsChain(srcBefore: Images.Sync, srcImage: nat, srcAspects: AspectMask, srcExtent: Extent3D,
                             dstBefore: Images.Sync, dstImage: nat, dstAspects: AspectMask, dstExtent: Extent3D)
    ensures var cs := PresentCommands(srcBefore, srcImage, srcAspects, srcExtent, dstBefore, dstImage, dstAspects, dstExtent);
            [cs[1].barrier, cs[3].barrier] == Images.Barriers(dstBefore, [TO_BLIT_TARGET, TO_PRESENT], dstImage, dstAspects) &&
            [cs[0].barrier] == Images.Barriers(srcBefore, [TO_BLIT_SOURCE], srcImage, srcAspects) &&
            Images.Destination(cs[0].barrier).layout == cs[2].srcLayout &&
            Images.Destination(cs[1].barrier).layout == cs[2].dstLayout &&
            Images.Destination(cs[3].barrier) == Images.After(dstBefore, [TO_BLIT_TARGET, TO_PRESENT])
  {
    assert [TO_BLIT_TARGET, TO_PRESENT][1..] == [TO_PRESENT];
    assert [TO_PRESENT][1..] == [];
    assert [TO_BLIT_SOURCE][1..] == [];
    var tail := Images.Barriers(Images.Target(TO_BLIT_TARGET), [TO_PRESENT], dstImage, dstAspects);
    assert Images.Barriers(Images.Target(TO_PRESENT), [], dstImage, dstAspects) == [];
    assert tail == [Images.BarrierBetween(Images.Target(TO_BLIT_TARGET), Images.Target(TO_PRESENT), dstImage, dstAspects)];
    assert Images.Barriers(dstBefore, [TO_BLIT_TARGET, TO_PRESENT], dstImage, dstAspects) ==
           [Images.BarrierBetween(dstBefore, Images.Target(TO_BLIT_TARGET), dstImage, dstAspects)] + tail;
  }

  /** Records and submits a present's command buffer. */
  method RecordBlit(frame: SyncFrame, src: Images.Image, dst: Images.Image, queue: nat,
                    srcReadyToRead: nat, srcReadyToWrite: nat, gpu: Gpu)
    requires src != dst
    modifies frame.cmd, gpu, src`lastLayout, src`lastAccess, src`lastStage, dst`lastLayout, dst`lastAccess, dst`lastStage
    ensures frame.cmd.commands == PresentCommands(old(src.State()), src.image, src.aspects, src.extent,
                                                  old(dst.State()), dst.image, dst.aspects, dst.extent)
    ensures src.State() == Images.Target(TO_BLIT_SOURCE) && dst.State() == Images.Target(TO_PRESENT)
    ensures gpu.calls == old(gpu.calls) + [ResetCommandPool(frame.pool)] + [BeginCommandBuffer(frame.cmd.handle)] +
              [EndCommandBuffer(frame.cmd.handle)] +
              [Submit(queue, frame.cmd.handle, [srcReadyToRead, frame.readyToWrite], [srcReadyToWrite, frame.readyToRead],
                      frame.readyToRecord)]
  {
    ghost var expected := PresentCommands(src.State(), src.image, src.aspects, src.extent,
                                          dst.State(), dst.image, dst.aspects, dst.extent);
    gpu.Emit(ResetCommandPool(frame.pool));
    frame.cmd.Reset();
    gpu.Emit(BeginCommandBuffer(frame.cmd.handle));
    ghost var begun := gpu.calls;
    src.TransitionLayout(TO_BLIT_SOURCE, frame.cmd);
    assert frame.cmd.commands == expected[..1];
    dst.TransitionLayout(TO_BLIT_TARGET, frame.cmd);
    assert frame.cmd.commands == expected[..2];
    dst.Blit(frame.cmd, src);
    assert frame.cmd.commands == expected[..3];
    dst.TransitionLayout(TO_PRESENT, frame.cmd);
    assert frame.cmd.commands == expected && gpu.calls == begun;
    gpu.Emit(EndCommandBuffer(frame.cmd.handle));
    gpu.Emit(Submit(queue, frame.cmd.handle, [srcReadyToRead, frame.readyToWrite], [srcReadyToWrite, frame.readyToRead],
                    frame.readyToRecord));
  }

  /** An acquire result after which present records and presents the frame. */
  predicate Acquired(r: VkResult)
  {
    r.Success? || r.Suboptimal?
  }

  /** The calls of a present after a successful acquire. */
  function PresentCalls(frame: SyncFrame, queue: nat, srcReadyToRead: nat, srcReadyToWrite: nat,
                        target: int, elapsed: int, swapchain: nat, swapIndex: nat): seq<Call>
  {
    [ResetCommandPool(frame.pool), BeginCommandBuffer(frame.cmd.handle), EndCommandBuffer(frame.cmd.handle),
     Submit(queue, frame.cmd.handle, [srcReadyToRead, frame.readyToWrite], [srcReadyToWrite, frame.readyToRead],
            frame.readyToRecord)] +
    SleepCalls(target, elapsed) + [Present(queue, swapchain, swapIndex, frame.readyToRead)]
  }

  method DestroyFrames(fs: seq<SyncFrame>, gpu: Gpu)
    modifies gpu
    ensures gpu.calls == old(gpu.calls) + AllFrameDestroyCalls(fs)
  {
    for i := 0 to |fs|
      invariant gpu.calls == old(gpu.calls) + AllFrameDestroyCalls(fs[..i])
    {
      assert fs[..i + 1][..i] == fs[..i];
      var f := fs[i];
      gpu.Emit(DestroyCommandPool(f.pool));
      gpu.Emit(DestroyFence(f.readyToRecord));
      gpu.Emit(DestroySemaphore(f.readyToWrite));
      gpu.Emit(DestroySemaphore(f.readyToRead));
      AppendFour(old(gpu.calls) + AllFrameDestroyCalls(fs[..i]), FrameDestroyCalls(f));
    }
    assert fs[..|fs|] == fs;
  }

  /** How far Swapchain::init gets with the driver's answers: it stops at the first failed query
      (0 capabilities, 1 formats, 2 present modes, 3 swapchain creation, 4 swapchain images) and
      completes at 5. */
  function Progress(caps: Option<SurfaceCapabilities>, formats: Option<seq<SurfaceFormat>>,
                    modes: Option<seq<PresentMode>>, created: VkResult, handles: Option<seq<nat>>): (p: nat)
    ensures p <= 5
    ensures p == 5 <==> caps.Some? && formats.Some? && modes.Some? && created.Success? && handles.Some?
  {
    if caps.None? then 0
    else if formats.None? then 1
    else if modes.None? then 2
    else if !created.Success? then 3
    else if handles.None? then 4
    else 5
  }

  /** The swapchain-create request for the chosen configuration. */
  function SwapchainRequest(caps: SurfaceCapabilities, chosen: SurfaceFormat, extent: Extent2D,
                            modes: seq<PresentMode>, old_: nat): SwapchainDesc
    requires |modes| > 0
  {
    SwapchainDesc(MinImageCount(caps), chosen.format, chosen.colorSpace, extent, PickPresentMode(modes), old_)
  }

  class Swapchain {
    var swapchain: nat
    var images: seq<Images.Image>
    var extent: Extent2D
    var format: Format
    var resizeRequested: bool
    var srgbRequired: bool
    var frames: seq<SyncFrame>
    var frameCounter: u32
    var targetFrameTime: int
    var timestamp: int

    constructor ()
      ensures frameCounter == 0 && images == [] && frames == [] && swapchain == NULL
    {
      swapchain := NULL;
      frameCounter := 0;
      images := [];
      frames := [];
    }

    /** The swapchain images are distinct objects. */
    ghost predicate ImagesDistinct()
      reads this`images
    {
      Distinct(images)
    }

    /** Swapchain::init. The driver's answers are parameters: `None` (or a result other than
        Success) for a query that fails, which makes init return at that point. */
    method Init(device: VisDevice.Device, windowSize: Extent2D, caps: Option<SurfaceCapabilities>,
                formats: Option<seq<SurfaceFormat>>, modes: Option<seq<PresentMode>>, created: VkResult,
                handles: Option<seq<nat>>, gpu: Gpu)
      requires formats.Some? ==> |formats.value| > 0
      requires modes.Some? ==> |modes.value| > 0
      modifies this`swapchain, this`images, this`extent, this`format, this`srgbRequired, this`frames,
               this`resizeRequested, gpu
      ensures var p := Progress(caps, formats, modes, created, handles);
              (p >= 1 ==> extent == ClampExtent(windowSize, caps.value)) && (p < 1 ==> extent == old(extent)) &&
              (p >= 2 ==> format == PickFormat(formats.value).format && srgbRequired == SrgbRequired(format)) &&
              (p < 2 ==> format == old(format) && srgbRequired == old(srgbRequired))
      ensures var p := Progress(caps, formats, modes, created, handles);
              (p < 4 ==> swapchain == old(swapchain) && images == old(images)) &&
              (p >= 4 ==> swapchain != NULL) &&
              (p == 4 ==> images == []) &&
              (p < 5 ==> frames == old(frames) && resizeRequested == old(resizeRequested))
      ensures var p := Progress(caps, formats, modes, created, handles);
              p == 5 ==> |images| == |handles.value| && Distinct(images) &&
                         (forall k :: 0 <= k < |images| ==> fresh(images[k]) && Wrapped(images[k], handles.value[k], extent)) &&
                         |frames| == |images| && !resizeRequested &&
                         (forall k :: 0 <= k < |frames| ==> fresh(frames[k].cmd) && FreshFrame(frames[k]))
      ensures var p := Progress(caps, formats, modes, created, handles);
              gpu.calls == old(gpu.calls) +
                (if p >= 3 then [CreateSwapchain(SwapchainRequest(caps.value, PickFormat(formats.value), extent, modes.value, old(swapchain)),
                                                 if p >= 4 then swapchain else NULL)] else []) +
                (if p >= 4 && |old(images)| > 0 then [DestroySwapchain(old(swapchain))] else []) +
                (if p == 5 then AllFrameCalls(device.universalFamily, frames) else [])
    {
      if caps.None? {
        return;
      }
      extent := ClampExtent(windowSize, caps.value);
      if formats.None? {
        return;
      }
      var chosen := ChooseFormat(formats.value);
      format := chosen.format;
      srgbRequired := SrgbRequired(format);
      if modes.None? {
        return;
      }
      var mode := ChoosePresentMode(modes.value);
      var request := SwapchainDesc(MinImageCount(caps.value), chosen.format, chosen.colorSpace, extent, mode, swapchain);
      Build(request, created, device.universalFamily, handles, gpu);
    }

    /** The steps of init from the create call on: the new swapchain, its images and one frame slot per image. */
    method Build(request: SwapchainDesc, created: VkResult, family: nat, handles: Option<seq<nat>>, gpu: Gpu)
      requires request.oldSwapchain == swapchain
      modifies this`swapchain, this`images, this`frames, this`resizeRequested, gpu
      ensures !created.Success? ==> swapchain == old(swapchain) && images == old(images)
      ensures created.Success? ==> swapchain != NULL
      ensures created.Success? && handles.None? ==> images == []
      ensures !(created.Success? && handles.Some?) ==> frames == old(frames) && resizeRequested == old(resizeRequested)
      ensures created.Success? && handles.Some? ==>
                |images| == |handles.value| && Distinct(images) &&
                (forall k :: 0 <= k < |images| ==> fresh(images[k]) && Wrapped(images[k], handles.value[k], extent)) &&
                |frames| == |images| && !resizeRequested &&
                (forall k :: 0 <= k < |frames| ==> fresh(frames[k].cmd) && FreshFrame(frames[k]))
      ensures gpu.calls == old(gpu.calls) + [CreateSwapchain(request, if created.Success? then swapchain else NULL)] +
                (if created.Success? && |old(images)| > 0 then [DestroySwapchain(old(swapchain))] else []) +
                (if created.Success? && handles.Some? then AllFrameCalls(family, frames) else [])
    {
      var proceed := Recreate(request, created, handles, gpu);
      if !proceed {
        return;
      }
      var wrapped := WrapImages(handles.value, extent);
      images := wrapped;
      frames := InitFrames(family, |handles.value|, gpu);
      resizeRequested := false;
    }

    /** The create, destroy-old and wrap steps of init; true when init goes on to the frame slots. */
    method Recreate(request: SwapchainDesc, created: VkResult, handles: Option<seq<nat>>, gpu: Gpu)
      returns (proceed: bool)
      requires request.oldSwapchain == swapchain
      modifies this`swapchain, this`images, gpu
      ensures proceed <==> created.Success? && handles.Some?
      ensures !created.Success? ==> (swapchain == old(swapchain) && images == old(images) &&
                                     gpu.calls == old(gpu.calls) + [CreateSwapchain(request, NULL)])
      ensures created.Success? ==> (swapchain != NULL && images == [] &&
                                    gpu.calls == old(gpu.calls) + [CreateSwapchain(request, swapchain)] +
                                      (if |old(images)| > 0 then [DestroySwapchain(old(swapchain))] else []))
    {
      if !created.Success? {
        gpu.Emit(CreateSwapchain(request, NULL));
        return false;
      }
      var h := gpu.Fresh();
      gpu.Emit(CreateSwapchain(request, h));
      if |images| > 0 {
        gpu.Emit(DestroySwapchain(swapchain));
      }
      images := [];
      swapchain := h;
      proceed := handles.Some?;
    }

    /** Swapchain::destroy: the swapchain only when it has images, then every frame slot. */
    method Destroy(gpu: Gpu)
      modifies gpu
      ensures gpu.calls == old(gpu.calls) + (if |images| > 0 then [DestroySwapchain(swapchain)] else []) +
                AllFrameDestroyCalls(frames)
    {
      if |images| > 0 {
        gpu.Emit(DestroySwapchain(swapchain));
      }
      DestroyFrames(frames, gpu);
    }

    /** Swapchain::resize: the frame slots are destroyed, then init runs again with the old
        swapchain handed over for replacement. */
    method Resize(device: VisDevice.Device, windowSize: Extent2D, caps: Option<SurfaceCapabilities>,
                  formats: Option<seq<SurfaceFormat>>, modes: Option<seq<PresentMode>>, created: VkResult,
                  handles: Option<seq<nat>>, gpu: Gpu)
      requires formats.Some? ==> |formats.value| > 0
      requires modes.Some? ==> |modes.value| > 0
      modifies this`swapchain, this`images, this`extent, this`format, this`srgbRequired, this`frames,
               this`resizeRequested, gpu
      ensures var p := Progress(caps, formats, modes, created, handles);
              (p >= 1 ==> extent == ClampExtent(windowSize, caps.value)) && (p < 1 ==> extent == old(extent)) &&
              (p >= 2 ==> format == PickFormat(formats.value).format && srgbRequired == SrgbRequired(format)) &&
              (p < 2 ==> format == old(format) && srgbRequired == old(srgbRequired))
      ensures var p := Progress(caps, formats, modes, created, handles);
              (p < 4 ==> swapchain == old(swapchain) && images == old(images)) &&
              (p >= 4 ==> swapchain != NULL) &&
              (p == 4 ==> images == []) &&
              (p < 5 ==> frames == old(frames) && resizeRequested == old(resizeRequested))
      ensures var p := Progress(caps, formats, modes, created, handles);
              p == 5 ==> |images| == |handles.value| && Distinct(images) &&
                         (forall k :: 0 <= k < |images| ==> fresh(images[k]) && Wrapped(images[k], handles.value[k], extent)) &&
                         |frames| == |images| && !resizeRequested &&
                         (forall k :: 0 <= k < |frames| ==> fresh(frames[k].cmd) && FreshFrame(frames[k]))
      ensures var p := Progress(caps, formats, modes, created, handles);
              gpu.calls == old(gpu.calls) + AllFrameDestroyCalls(old(frames)) +
                (if p >= 3 then [CreateSwapchain(SwapchainRequest(caps.value, PickFormat(formats.value), extent, modes.value, old(swapchain)),
                                                 if p >= 4 then swapchain else NULL)] else []) +
                (if p >= 4 && |old(images)| > 0 then [DestroySwapchain(old(swapchain))] else []) +
                (if p == 5 then AllFrameCalls(device.universalFamily, frames) else [])
    {
      DestroyFrames(frames, gpu);
      Init(device, windowSize, caps, formats, modes, created, handles, gpu);
    }

    /** Swapchain::present. The driver's and the clock's answers are parameters: the fence-wait
        results, the acquire result and image index, the clock before and after pacing, and the
        present result. The acquire is not retried: every result other than Success, Suboptimal and
        out-of-date (a timeout included) abandons the frame without a resize request. */
    method Present(device: VisDevice.Device, src: Images.Image, srcReadyToRead: nat, srcReadyToWrite: nat,
                   fenceReplies: seq<VkResult>, acquired: VkResult, swapIndex: nat, now: int, after: int,
                   presented: VkResult, gpu: Gpu)
      returns (attempts: nat)
      requires |frames| > 0
      requires exists k :: 0 <= k < |fenceReplies| && fenceReplies[k] != Timeout
      requires Acquired(acquired) ==> swapIndex < |images|
      requires src !in images && ImagesDistinct()
      modifies this`frameCounter, this`resizeRequested, this`timestamp, gpu, frames[Slot(frameCounter, |frames|)].cmd,
               src`lastLayout, src`lastAccess, src`lastStage, if swapIndex < |images| then {images[swapIndex]} else {}
      ensures frameCounter == NextCounter(old(frameCounter))
      ensures var frame := frames[Slot(old(frameCounter), |frames|)];
              gpu.calls == old(gpu.calls) + Repeat(WaitForFence(frame.readyToRecord), attempts) +
                [ResetFence(frame.readyToRecord)] + [AcquireNextImage(swapchain, frame.readyToWrite)] +
                (if Acquired(acquired)
                 then PresentCalls(frame, device.universalQueue, srcReadyToRead, srcReadyToWrite,
                                   targetFrameTime, now - old(timestamp), swapchain, swapIndex)
                 else [])
      ensures 1 <= attempts <= |fenceReplies| && fenceReplies[attempts - 1] != Timeout
      ensures forall k :: 0 <= k < attempts - 1 ==> fenceReplies[k] == Timeout
      ensures resizeRequested == (old(resizeRequested) || acquired.Suboptimal? || acquired.ErrorOutOfDate? ||
                                  (Acquired(acquired) && !presented.Success?))
      ensures timestamp == if Acquired(acquired) then after else old(timestamp)
      ensures Acquired(acquired) ==> (
                frames[Slot(old(frameCounter), |frames|)].cmd.commands ==
                  PresentCommands(old(src.State()), src.image, src.aspects, src.extent,
                                  old(images[swapIndex].State()), images[swapIndex].image, images[swapIndex].aspects,
                                  images[swapIndex].extent) &&
                src.State() == Images.Target(TO_BLIT_SOURCE) && images[swapIndex].State() == Images.Target(TO_PRESENT))
      ensures !Acquired(acquired) ==> (
                src.State() == old(src.State()) &&
                frames[Slot(old(frameCounter), |frames|)].cmd.commands == old(frames[Slot(frameCounter, |frames|)].cmd.commands))
      ensures forall k :: 0 <= k < |images| && (k != swapIndex || !Acquired(acquired)) ==>
                images[k].State() == old(images[k].State())
    {
      var frame;
      frame, attempts := BeginFrame(fenceReplies, gpu);
      ghost var begun := gpu.calls;
      assert images == old(images) && frame.cmd.commands == old(frame.cmd.commands);
      Finish(frame, acquired, src, swapIndex, device.universalQueue, srcReadyToRead, srcReadyToWrite, now, after, presented, gpu);
      assert gpu.calls == begun + (if Acquired(acquired)
                                   then PresentCalls(frame, device.universalQueue, srcReadyToRead, srcReadyToWrite,
                                                     targetFrameTime, now - old(timestamp), swapchain, swapIndex)
                                   else []);
    }

    /** What present does with the acquire result. */
    method Finish(frame: SyncFrame, acquired: VkResult, src: Images.Image, swapIndex: nat, queue: nat, srcReadyToRead: nat,
                  srcReadyToWrite: nat, now: int, after: int, presented: VkResult, gpu: Gpu)
      requires Acquired(acquired) ==> swapIndex < |images|
      requires src !in images && ImagesDistinct()
      modifies this`resizeRequested, this`timestamp, gpu, frame.cmd,
               src`lastLayout, src`lastAccess, src`lastStage, if swapIndex < |images| then {images[swapIndex]} else {}
      ensures gpu.calls == old(gpu.calls) +
                (if Acquired(acquired)
                 then PresentCalls(frame, queue, srcReadyToRead, srcReadyToWrite,
                                   targetFrameTime, now - old(timestamp), swapchain, swapIndex)
                 else [])
      ensures resizeRequested == (old(resizeRequested) || acquired.Suboptimal? || acquired.ErrorOutOfDate? ||
                                  (Acquired(acquired) && !presented.Success?))
      ensures timestamp == if Acquired(acquired) then after else old(timestamp)
      ensures Acquired(acquired) ==> (
                frame.cmd.commands ==
                  PresentCommands(old(src.State()), src.image, src.aspects, src.extent,
                                  old(images[swapIndex].State()), images[swapIndex].image, images[swapIndex].aspects,
                                  images[swapIndex].extent) &&
                src.State() == Images.Target(TO_BLIT_SOURCE) && images[swapIndex].State() == Images.Target(TO_PRESENT))
      ensures !Acquired(acquired) ==> src.State() == old(src.State()) && frame.cmd.commands == old(frame.cmd.commands)
      ensures forall k :: 0 <= k < |images| && (k != swapIndex || !Acquired(acquired)) ==>
                images[k].State() == old(images[k].State())
    {
      if acquired.Suboptimal? {
        resizeRequested := true;
      } else if acquired.ErrorOutOfDate? {
        resizeRequested := true;
        return;
      } else if !acquired.Success? {
        return;
      }
      Draw(frame, src, images[swapIndex], swapIndex, queue, srcReadyToRead, srcReadyToWrite, now, after, presented, gpu);
    }

    /** The frame-slot part of present: the slot's fence awaited and reset, and the acquire issued. */
    method BeginFrame(fenceReplies: seq<VkResult>, gpu: Gpu) returns (frame: SyncFrame, attempts: nat)
      requires |frames| > 0
      requires exists k :: 0 <= k < |fenceReplies| && fenceReplies[k] != Timeout
      modifies this`frameCounter, gpu
      ensures frame == frames[Slot(old(frameCounter), |frames|)]
      ensures frameCounter == NextCounter(old(frameCounter))
      ensures gpu.calls == old(gpu.calls) + Repeat(WaitForFence(frame.readyToRecord), attempts) +
                [ResetFence(frame.readyToRecord)] + [AcquireNextImage(swapchain, frame.readyToWrite)]
      ensures 1 <= attempts <= |fenceReplies| && fenceReplies[attempts - 1] != Timeout
      ensures forall k :: 0 <= k < attempts - 1 ==> fenceReplies[k] == Timeout
    {
      frame := frames[Slot(frameCounter, |frames|)];
      frameCounter := NextCounter(frameCounter);
      attempts := CoreDevice.AwaitFence(frame.readyToRecord, fenceReplies, gpu);
      gpu.Emit(ResetFence(frame.readyToRecord));
      gpu.Emit(AcquireNextImage(swapchain, frame.readyToWrite));
    }

    /** The part of present after a successful acquire: record, submit, pace, present. */
    method Draw(frame: SyncFrame, src: Images.Image, dst: Images.Image, swapIndex: nat, queue: nat, srcReadyToRead: nat,
                srcReadyToWrite: nat, now: int, after: int, presented: VkResult, gpu: Gpu)
      requires src != dst
      modifies frame.cmd, src`lastLayout, src`lastAccess, src`lastStage, dst`lastLayout, dst`lastAccess, dst`lastStage,
               this`timestamp, this`resizeRequested, gpu
      ensures gpu.calls == old(gpu.calls) + PresentCalls(frame, queue, srcReadyToRead, srcReadyToWrite,
                                                         targetFrameTime, now - old(timestamp), swapchain, swapIndex)
      ensures frame.cmd.commands == PresentCommands(old(src.State()), src.image, src.aspects, src.extent,
                                                    old(dst.State()), dst.image, dst.aspects, dst.extent)
      ensures src.State() == Images.Target(TO_BLIT_SOURCE) && dst.State() == Images.Target(TO_PRESENT)
      ensures timestamp == after
      ensures resizeRequested == (old(resizeRequested) || !presented.Success?)
    {
      ghost var recorded := gpu.calls;
      RecordBlit(frame, src, dst, queue, srcReadyToRead, srcReadyToWrite, gpu);
      PaceAndPresent(frame, queue, swapIndex, now, after, presented, gpu);
      assert gpu.calls == recorded + PresentCalls(frame, queue, srcReadyToRead, srcReadyToWrite,
                                                  targetFrameTime, now - old(timestamp), swapchain, swapIndex);
    }

    /** The pacing and presentation tail of present. */
    method PaceAndPresent(frame: SyncFrame, queue: nat, swapIndex: nat, now: int, after: int, presented: VkResult, gpu: Gpu)
      modifies this`timestamp, this`resizeRequested, gpu
      ensures gpu.calls == old(gpu.calls) + SleepCalls(targetFrameTime, now - old(timestamp)) +
                [Vk.Present(queue, swapchain, swapIndex, frame.readyToRead)]
      ensures timestamp == after
      ensures resizeRequested == (old(resizeRequested) || !presented.Success?)
    {
      var elapsed := now - timestamp;
      if targetFrameTime > elapsed {
        gpu.Emit(Sleep(targetFrameTime - elapsed));
      }
      timestamp := after;
      gpu.Emit(Vk.Present(queue, swapchain, swapIndex, frame.readyToRead));
      if !presented.Success? {
        resizeRequested := true;
      }
    }
  }
}
