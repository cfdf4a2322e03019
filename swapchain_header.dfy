// The header-only Swapchain of the engine: the same frame-slot scheme as the compiled one, with its
// own format and image-count choices, a retried acquire, and driver errors raised as exceptions.

module HeaderSwapchain {
  import opened Common
  import opened Vk
  import Images
  import CoreDevice
  import Swapchains

  /** The dv::Queues members the swapchain uses. */
  datatype Queues = Queues(universal: nat, universalFamily: nat, graphicsFamily: nat)

  /** The sRGB surface formats in order of preference. */
  const PREFERRED_FORMATS: seq<SurfaceFormat> := [
    SurfaceFormat(R8G8B8A8Srgb, SrgbNonlinear),
    SurfaceFormat(B8G8R8A8Srgb, SrgbNonlinear),
    SurfaceFormat(R8G8B8Srgb, SrgbNonlinear),
    SurfaceFormat(B8G8R8Srgb, SrgbNonlinear)]

  /** The format after init: the first preferred one on offer, else the format held before. */
  function PickFormat(available: seq<SurfaceFormat>, previous: Format): Format
  {
    match FirstPreferred(PREFERRED_FORMATS, available)
    case Some(f) => f.format
    case None => previous
  }

  /** The pick is an sRGB format on offer, or the earlier format when none of the four is; the
      colour space asked for is sRGB non-linear either way. */
  lemma FormatPick(available: seq<SurfaceFormat>, previous: Format)
    ensures (forall i :: 0 <= i < |PREFERRED_FORMATS| ==> PREFERRED_FORMATS[i] !in available) ==>
              PickFormat(available, previous) == previous
    ensures (exists i :: 0 <= i < |PREFERRED_FORMATS| && PREFERRED_FORMATS[i] in available) ==>
              SurfaceFormat(PickFormat(available, previous), SrgbNonlinear) in available &&
              PickFormat(available, previous) in {R8G8B8A8Srgb, B8G8R8A8Srgb, R8G8B8Srgb, B8G8R8Srgb}
    ensures SurfaceFormat(R8G8B8A8Srgb, SrgbNonlinear) in available ==> PickFormat(available, previous) == R8G8B8A8Srgb
  {
    var r := FirstPreferred(PREFERRED_FORMATS, available);
    if r.Some? {
      var j :| 0 <= j < |PREFERRED_FORMATS| && PREFERRED_FORMATS[j] == r.value &&
               forall j' :: 0 <= j' < j ==> PREFERRED_FORMATS[j'] !in available;
      assert r.value.colorSpace == SrgbNonlinear;
    }
  }

  /** The present mode: the first of FIFO, mailbox and immediate on offer, else FIFO. */
  function PickPresentMode(available: seq<PresentMode>): PresentMode
  {
    FirstPreferred(Swapchains.PREFERRED_PRESENT_MODES, available).GetOr(Fifo)
  }

  lemma PresentModePick(available: seq<PresentMode>)
    ensures PickPresentMode(available) in available || PickPresentMode(available) == Fifo
    ensures Fifo !in available && Mailbox in available ==> PickPresentMode(available) == Mailbox
    ensures Fifo !in available && Mailbox !in available && Immediate !in available ==> PickPresentMode(available) == Fifo
  {
    var r := FirstPreferred(Swapchains.PREFERRED_PRESENT_MODES, available);
    if Fifo !in available && Mailbox in available {
      assert Swapchains.PREFERRED_PRESENT_MODES[1] in available;
      var j :| 0 <= j < |Swapchains.PREFERRED_PRESENT_MODES| && Swapchains.PREFERRED_PRESENT_MODES[j] == r.value &&
               forall j' :: 0 <= j' < j ==> Swapchains.PREFERRED_PRESENT_MODES[j'] !in available;
      assert j != 0;
    }
  }

  /** The image count asked for: 3 clamped to the surface's range, where a maximum of 0 means no limit. */
  function MinImageCount(caps: Swapchains.SurfaceCapabilities): (n: u32)
    ensures var max := if caps.maxImageCount == 0 then UINT32_MAX else caps.maxImageCount;
            (caps.minImageCount <= max ==> caps.minImageCount <= n <= max) &&
            (caps.minImageCount <= 3 <= max ==> n == 3) &&
            (3 < caps.minImageCount ==> n == caps.minImageCount) &&
            (caps.minImageCount <= max < 3 ==> n == max)
  {
    Clamp(3, caps.minImageCount, if caps.maxImageCount == 0 then UINT32_MAX else caps.maxImageCount)
  }

  /** Acquire results the C++ bindings return rather than raise; out-of-date is raised but caught. */
  predicate AcquireReturned(r: VkResult)
  {
    r.Success? || r.Timeout? || r.NotReady? || r.Suboptimal?
  }

  /** Present results the C++ bindings return rather than raise. */
  predicate PresentReturned(r: VkResult)
  {
    r.Success? || r.Suboptimal?
  }

  /** The acquire loop: acquires again while the driver answers with a timeout. */
  method AwaitImage(swapchain: nat, signal: nat, replies: seq<VkResult>, gpu: Gpu) returns (attempts: nat)
    requires exists k :: 0 <= k < |replies| && replies[k] != Timeout
    modifies gpu
    ensures 1 <= attempts <= |replies| && replies[attempts - 1] != Timeout
    ensures forall k :: 0 <= k < attempts - 1 ==> replies[k] == Timeout
    ensures gpu.calls == old(gpu.calls) + Repeat(AcquireNextImage(swapchain, signal), attempts)
  {
    ghost var settle :| 0 <= settle < |replies| && replies[settle] != Timeout;
    gpu.Emit(AcquireNextImage(swapchain, signal));
    attempts := 1;
    while replies[attempts - 1] == Timeout
      invariant 1 <= attempts <= settle + 1
      invariant forall k :: 0 <= k < attempts - 1 ==> replies[k] == Timeout
      invariant gpu.calls == old(gpu.calls) + Repeat(AcquireNextImage(swapchain, signal), attempts)
      decreases settle + 1 - attempts
    {
      assert Repeat(AcquireNextImage(swapchain, signal), attempts) + [AcquireNextImage(swapchain, signal)] ==
             Repeat(AcquireNextImage(swapchain, signal), attempts + 1);
      gpu.Emit(AcquireNextImage(swapchain, signal));
      attempts := attempts + 1;
    }
  }

  class Swapchain {
    var swapchain: nat
    var images: seq<Images.Image>
    var extent: Extent2D
    var format: Format
    var presentationQueue: nat
    var resizeRequested: bool
    var frames: seq<Swapchains.SyncFrame>
    var frameCounter: u32
    var targetFrameTime: int
    var timestamp: int

    constructor ()
      ensures frameCounter == 0 && images == [] && frames == [] && swapchain == NULL
    {
      swapchain := NULL;
      frameCounter := 0;
      images := [];
      frames := [];
    }

    ghost predicate ImagesDistinct()
      reads this`images
    {
      Distinct(images)
    }

    /** Swapchain::init with the surface queries' answers, the window size and the new images as
        parameters (a failing call raises and is not modelled). Frame slots draw their pools from the
        graphics family; the swapchain is created for the universal family. */
    method Init(windowSize: Extent2D, caps: Swapchains.SurfaceCapabilities, formats: seq<SurfaceFormat>,
                modes: seq<PresentMode>, handles: seq<nat>, queues: Queues, gpu: Gpu)
      modifies this`swapchain, this`images, this`extent, this`format, this`presentationQueue, this`frames,
               this`resizeRequested, gpu
      ensures presentationQueue == queues.universal
      ensures extent == Swapchains.ClampExtent(windowSize, caps)
      ensures format == PickFormat(formats, old(format))
      ensures swapchain != NULL
      ensures gpu.calls == old(gpu.calls) +
                [CreateSwapchain(SwapchainDesc(MinImageCount(caps), format, SrgbNonlinear, extent, PickPresentMode(modes),
                                               old(swapchain)), swapchain)] +
                (if old(swapchain) != NULL && |old(images)| > 0 then [DestroySwapchain(old(swapchain))] else []) +
                Swapchains.AllFrameCalls(queues.graphicsFamily, frames)
      ensures |images| == |handles| && Distinct(images)
      ensures forall k :: 0 <= k < |images| ==> fresh(images[k]) && Swapchains.Wrapped(images[k], handles[k], extent)
      ensures |frames| == |handles| && !resizeRequested
      ensures forall k :: 0 <= k < |frames| ==> fresh(frames[k].cmd) && Swapchains.FreshFrame(frames[k])
    {
      var request := Configure(windowSize, caps, formats, modes, queues);
      Rebuild(request, handles, queues.graphicsFamily, gpu);
    }

    /** The surface part of init: queue, extent, format and the swapchain request. */
    method Configure(windowSize: Extent2D, caps: Swapchains.SurfaceCapabilities, formats: seq<SurfaceFormat>,
                     modes: seq<PresentMode>, queues: Queues) returns (request: SwapchainDesc)
      modifies this`presentationQueue, this`extent, this`format
      ensures presentationQueue == queues.universal
      ensures extent == Swapchains.ClampExtent(windowSize, caps)
      ensures format == PickFormat(formats, old(format))
      ensures request == SwapchainDesc(MinImageCount(caps), format, SrgbNonlinear, extent, PickPresentMode(modes), swapchain)
    {
      presentationQueue := queues.universal;
      extent := Swapchains.ClampExtent(windowSize, caps);
      var preferred := FindFirstPreferred(PREFERRED_FORMATS, formats);
      if preferred.Some? {
        format := preferred.value.format;
      }
      var modePick := FindFirstPreferred(Swapchains.PREFERRED_PRESENT_MODES, modes);
      var mode := modePick.GetOr(Fifo);
      request := SwapchainDesc(MinImageCount(caps), format, SrgbNonlinear, extent, mode, swapchain);
    }

    /** The swapchain part of init: replacement, wrapped images and one frame slot per image. */
    method Rebuild(request: SwapchainDesc, handles: seq<nat>, family: nat, gpu: Gpu)
      requires request.oldSwapchain == swapchain
      modifies this`swapchain, this`images, this`frames, this`resizeRequested, gpu
      ensures swapchain != NULL
      ensures gpu.calls == old(gpu.calls) + [CreateSwapchain(request, swapchain)] +
                (if old(swapchain) != NULL && |old(images)| > 0 then [DestroySwapchain(old(swapchain))] else []) +
                Swapchains.AllFrameCalls(family, frames)
      ensures |images| == |handles| && Distinct(images)
      ensures forall k :: 0 <= k < |images| ==> fresh(images[k]) && Swapchains.Wrapped(images[k], handles[k], extent)
      ensures |frames| == |handles| && !resizeRequested
      ensures forall k :: 0 <= k < |frames| ==> fresh(frames[k].cmd) && Swapchains.FreshFrame(frames[k])
    {
      Replace(request, gpu);
      var wrapped := Swapchains.WrapImages(handles, extent);
      images := wrapped;
      frames := Swapchains.InitFrames(family, |handles|, gpu);
      resizeRequested := false;
    }

    /** The new swapchain replaces the old one, which is destroyed when it exists and has images. */
    method Replace(request: SwapchainDesc, gpu: Gpu)
      requires request.oldSwapchain == swapchain
      modifies this`swapchain, this`images, gpu
      ensures swapchain != NULL && images == []
      ensures gpu.calls == old(gpu.calls) + [CreateSwapchain(request, swapchain)] +
                (if old(swapchain) != NULL && |old(images)| > 0 then [DestroySwapchain(old(swapchain))] else [])
    {
      var previous := swapchain;
      swapchain := gpu.Fresh();
      gpu.Emit(CreateSwapchain(request, swapchain));
      if previous != NULL && |images| > 0 {
        gpu.Emit(DestroySwapchain(previous));
      }
      images := [];
    }

    /** Swapchain::destroy. */
    method Destroy(gpu: Gpu)
      modifies gpu
      ensures gpu.calls == old(gpu.calls) + (if |images| > 0 then [DestroySwapchain(swapchain)] else []) +
                Swapchains.AllFrameDestroyCalls(frames)
    {
      if |images| > 0 {
        gpu.Emit(DestroySwapchain(swapchain));
      }
      Swapchains.DestroyFrames(frames, gpu);
    }

    /** Swapchain::resize: the frame slots are destroyed, then init runs again. */
    method Resize(windowSize: Extent2D, caps: Swapchains.SurfaceCapabilities, formats: seq<SurfaceFormat>,
                  modes: seq<PresentMode>, handles: seq<nat>, queues: Queues, gpu: Gpu)
      modifies this`swapchain, this`images, this`extent, this`format, this`presentationQueue, this`frames,
               this`resizeRequested, gpu
      ensures presentationQueue == queues.universal
      ensures extent == Swapchains.ClampExtent(windowSize, caps)
      ensures format == PickFormat(formats, old(format))
      ensures swapchain != NULL
      ensures gpu.calls == old(gpu.calls) + Swapchains.AllFrameDestroyCalls(old(frames)) +
                [CreateSwapchain(SwapchainDesc(MinImageCount(caps), format, SrgbNonlinear, extent, PickPresentMode(modes),
                                               old(swapchain)), swapchain)] +
                (if old(swapchain) != NULL && |old(images)| > 0 then [DestroySwapchain(old(swapchain))] else []) +
                Swapchains.AllFrameCalls(queues.graphicsFamily, frames)
      ensures |images| == |handles| && Distinct(images)
      ensures forall k :: 0 <= k < |images| ==> fresh(images[k]) && Swapchains.Wrapped(images[k], handles[k], extent)
      ensures |frames| == |handles| && !resizeRequested
      ensures forall k :: 0 <= k < |frames| ==> fresh(frames[k].cmd) && Swapchains.FreshFrame(frames[k])
    {
      Swapchains.DestroyFrames(frames, gpu);
      Init(windowSize, caps, formats, modes, handles, queues, gpu);
    }

    /** Swapchain::present. `escaped` is true when a driver error (other than out-of-date) is raised
        out of present by the C++ bindings. */
    method Present(src: Images.Image, srcReadyToRead: nat, srcReadyToWrite: nat, fenceReplies: seq<VkResult>,
                   acquireReplies: seq<VkResult>, swapIndex: nat, now: int, after: int, presented: VkResult, gpu: Gpu)
      returns (escaped: bool, fenceAttempts: nat, acquireAttempts: nat, acquired: VkResult, ghost frame: Swapchains.SyncFrame)
      requires |frames| > 0
      requires exists k :: 0 <= k < |fenceReplies| && fenceReplies[k] != Timeout
      requires exists k :: 0 <= k < |acquireReplies| && acquireReplies[k] != Timeout
      requires (forall k :: 0 <= k < |acquireReplies| && acquireReplies[k] != Timeout && AcquireReturned(acquireReplies[k]) ==>
                  swapIndex < |images|)
      requires src !in images && ImagesDistinct()
      modifies this`frameCounter, this`resizeRequested, this`timestamp, gpu, frames[Swapchains.Slot(frameCounter, |frames|)].cmd,
               src`lastLayout, src`lastAccess, src`lastStage, if swapIndex < |images| then {images[swapIndex]} else {}
      ensures frameCounter == Swapchains.NextCounter(old(frameCounter))
      ensures frame == frames[Swapchains.Slot(old(frameCounter), |frames|)]
      ensures 1 <= fenceAttempts <= |fenceReplies| && 1 <= acquireAttempts <= |acquireReplies|
      ensures fenceReplies[fenceAttempts - 1] != Timeout && forall k :: 0 <= k < fenceAttempts - 1 ==> fenceReplies[k] == Timeout
      ensures acquired == acquireReplies[acquireAttempts - 1] && acquired != Timeout
      ensures forall k :: 0 <= k < acquireAttempts - 1 ==> acquireReplies[k] == Timeout
      ensures gpu.calls == old(gpu.calls) + Repeat(WaitForFence(frame.readyToRecord), fenceAttempts) +
                [ResetFence(frame.readyToRecord)] + Repeat(AcquireNextImage(swapchain, frame.readyToWrite), acquireAttempts) +
                (if AcquireReturned(acquired)
                 then Swapchains.PresentCalls(frame, presentationQueue, srcReadyToRead, srcReadyToWrite,
                                              targetFrameTime, now - old(timestamp), swapchain, swapIndex)
                 else [])
      ensures escaped <==> acquired.OtherResult? || (AcquireReturned(acquired) && !PresentReturned(presented) && !presented.ErrorOutOfDate?)
      ensures resizeRequested == (old(resizeRequested) || acquired.Suboptimal? || acquired.ErrorOutOfDate? ||
                                  (AcquireReturned(acquired) && (presented.Suboptimal? || presented.ErrorOutOfDate?)))
      ensures AcquireReturned(acquired) ==> (
                frame.cmd.commands ==
                  Swapchains.PresentCommands(old(src.State()), src.image, src.aspects, src.extent,
                                             old(images[swapIndex].State()), images[swapIndex].image, images[swapIndex].aspects,
                                             images[swapIndex].extent) &&
                src.State() == Images.Target(Swapchains.TO_BLIT_SOURCE) &&
                images[swapIndex].State() == Images.Target(Swapchains.TO_PRESENT) &&
                timestamp == after)
      ensures !AcquireReturned(acquired) ==> src.State() == old(src.State()) && timestamp == old(timestamp)
      ensures !AcquireReturned(acquired) ==>
                frame.cmd.commands == old(frames[Swapchains.Slot(frameCounter, |frames|)].cmd.commands)
      ensures forall k :: 0 <= k < |images| && (k != swapIndex || !AcquireReturned(acquired)) ==>
                images[k].State() == old(images[k].State())
    {
      var slot;
      slot, fenceAttempts, acquireAttempts := BeginFrame(fenceReplies, acquireReplies, gpu);
      frame := slot;
      acquired := acquireReplies[acquireAttempts - 1];
      escaped := Finish(slot, acquired, src, swapIndex, srcReadyToRead, srcReadyToWrite, now, after, presented, gpu);
    }

    /** What present does with the final acquire result. */
    method Finish(frame: Swapchains.SyncFrame, acquired: VkResult, src: Images.Image, swapIndex: nat, srcReadyToRead: nat,
                  srcReadyToWrite: nat, now: int, after: int, presented: VkResult, gpu: Gpu)
      returns (escaped: bool)
      requires AcquireReturned(acquired) ==> swapIndex < |images|
      requires src !in images && ImagesDistinct()
      modifies this`resizeRequested, this`timestamp, gpu, frame.cmd,
               src`lastLayout, src`lastAccess, src`lastStage, if swapIndex < |images| then {images[swapIndex]} else {}
      ensures gpu.calls == old(gpu.calls) +
                (if AcquireReturned(acquired)
                 then Swapchains.PresentCalls(frame, presentationQueue, srcReadyToRead, srcReadyToWrite,
                                              targetFrameTime, now - old(timestamp), swapchain, swapIndex)
                 else [])
      ensures escaped <==> acquired.OtherResult? || (AcquireReturned(acquired) && !PresentReturned(presented) && !presented.ErrorOutOfDate?)
      ensures resizeRequested == (old(resizeRequested) || acquired.Suboptimal? || acquired.ErrorOutOfDate? ||
                                  (AcquireReturned(acquired) && (presented.Suboptimal? || presented.ErrorOutOfDate?)))
      ensures AcquireReturned(acquired) ==> (
                frame.cmd.commands ==
                  Swapchains.PresentCommands(old(src.State()), src.image, src.aspects, src.extent,
                                             old(images[swapIndex].State()), images[swapIndex].image, images[swapIndex].aspects,
                                             images[swapIndex].extent) &&
                src.State() == Images.Target(Swapchains.TO_BLIT_SOURCE) &&
                images[swapIndex].State() == Images.Target(Swapchains.TO_PRESENT) &&
                timestamp == after)
      ensures !AcquireReturned(acquired) ==> src.State() == old(src.State()) && timestamp == old(timestamp)
      ensures !AcquireReturned(acquired) ==> frame.cmd.commands == old(frame.cmd.commands)
      ensures forall k :: 0 <= k < |images| && (k != swapIndex || !AcquireReturned(acquired)) ==>
                images[k].State() == old(images[k].State())
    {
      if acquired.ErrorOutOfDate? {
        resizeRequested := true;
        return false;
      } else if !AcquireReturned(acquired) {
        return true;
      }
      if acquired.Suboptimal? {
        resizeRequested := true;
      }
      escaped := Draw(frame, src, images[swapIndex], swapIndex, srcReadyToRead, srcReadyToWrite, now, after, presented, gpu);
    }

    /** The frame-slot part of present: the slot's fence awaited and reset, and the image acquired. */
    method BeginFrame(fenceReplies: seq<VkResult>, acquireReplies: seq<VkResult>, gpu: Gpu)
      returns (frame: Swapchains.SyncFrame, attempts: nat, acquireAttempts: nat)
      requires |frames| > 0
      requires exists k :: 0 <= k < |fenceReplies| && fenceReplies[k] != Timeout
      requires exists k :: 0 <= k < |acquireReplies| && acquireReplies[k] != Timeout
      modifies this`frameCounter, gpu
      ensures frame == frames[Swapchains.Slot(old(frameCounter), |frames|)]
      ensures frameCounter == Swapchains.NextCounter(old(frameCounter))
      ensures gpu.calls == old(gpu.calls) + Repeat(WaitForFence(frame.readyToRecord), attempts) +
                [ResetFence(frame.readyToRecord)] + Repeat(AcquireNextImage(swapchain, frame.readyToWrite), acquireAttempts)
      ensures 1 <= attempts <= |fenceReplies| && fenceReplies[attempts - 1] != Timeout
      ensures forall k :: 0 <= k < attempts - 1 ==> fenceReplies[k] == Timeout
      ensures 1 <= acquireAttempts <= |acquireReplies| && acquireReplies[acquireAttempts - 1] != Timeout
      ensures forall k :: 0 <= k < acquireAttempts - 1 ==> acquireReplies[k] == Timeout
    {
      frame := frames[Swapchains.Slot(frameCounter, |frames|)];
      frameCounter := Swapchains.NextCounter(frameCounter);
      attempts := CoreDevice.AwaitFence(frame.readyToRecord, fenceReplies, gpu);
      gpu.Emit(ResetFence(frame.readyToRecord));
      acquireAttempts := AwaitImage(swapchain, frame.readyToWrite, acquireReplies, gpu);
    }

    /** draw_swapchain, the presentable transition, the submit, wait_target_framerate and the present. */
    method Draw(frame: Swapchains.SyncFrame, src: Images.Image, dst: Images.Image, swapIndex: nat, srcReadyToRead: nat,
                srcReadyToWrite: nat, now: int, after: int, presented: VkResult, gpu: Gpu)
      returns (escaped: bool)
      requires src != dst
      modifies frame.cmd, src`lastLayout, src`lastAccess, src`lastStage, dst`lastLayout, dst`lastAccess, dst`lastStage,
               this`timestamp, this`resizeRequested, gpu
      ensures gpu.calls == old(gpu.calls) + Swapchains.PresentCalls(frame, presentationQueue, srcReadyToRead, srcReadyToWrite,
                                                                    targetFrameTime, now - old(timestamp), swapchain, swapIndex)
      ensures frame.cmd.commands == Swapchains.PresentCommands(old(src.State()), src.image, src.aspects, src.extent,
                                                               old(dst.State()), dst.image, dst.aspects, dst.extent)
      ensures src.State() == Images.Target(Swapchains.TO_BLIT_SOURCE) && dst.State() == Images.Target(Swapchains.TO_PRESENT)
      ensures timestamp == after
      ensures resizeRequested == (old(resizeRequested) || presented.Suboptimal? || presented.ErrorOutOfDate?)
      ensures escaped <==> !PresentReturned(presented) && !presented.ErrorOutOfDate?
    {
      ghost var recorded := gpu.calls;
      Swapchains.RecordBlit(frame, src, dst, presentationQueue, srcReadyToRead, srcReadyToWrite, gpu);
      WaitTargetFramerate(now, after, gpu);
      gpu.Emit(Vk.Present(presentationQueue, swapchain, swapIndex, frame.readyToRead));
      escaped := false;
      if presented.Suboptimal? {
        resizeRequested := true;
      } else if presented.ErrorOutOfDate? {
        resizeRequested := true;
      } else if !presented.Success? {
        escaped := true;
      }
      assert gpu.calls == recorded + Swapchains.PresentCalls(frame, presentationQueue, srcReadyToRead, srcReadyToWrite,
                                                             targetFrameTime, now - old(timestamp), swapchain, swapIndex);
    }

    /** wait_target_framerate: holds the frame back by what is left of the target frame time. */
    method WaitTargetFramerate(now: int, after: int, gpu: Gpu)
      modifies this`timestamp, gpu
      ensures gpu.calls == old(gpu.calls) + Swapchains.SleepCalls(targetFrameTime, now - old(timestamp))
      ensures timestamp == after
    {
      var diff := now - timestamp;
      if targetFrameTime > diff {
        gpu.Emit(Sleep(targetFrameTime - diff));
      }
      timestamp := after;
    }
  }
}
