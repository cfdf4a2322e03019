// The part of the Vulkan API that the engine talks to, seen as data.
// Bit-mask flag words are sets of bits: `a | b` is union and `(flags & mask) == mask` is `mask <= flags`.
// Calls into the driver or the memory allocator are recorded in a `Gpu` log and
// commands recorded into a command buffer in that buffer's `commands`.

module Vk {
  import opened Common

  datatype Layout =
    | Undefined
    | General
    | ColorAttachmentOptimal
    | DepthStencilAttachmentOptimal
    | ShaderReadOnlyOptimal
    | TransferSrcOptimal
    | TransferDstOptimal
    | PresentSrc
    | OtherLayout(code: nat)

  datatype Stage =
    | TopOfPipe
    | ColorAttachmentOutput
    | FragmentShader
    | ComputeShader
    | Transfer
    | Blit
    | BottomOfPipe
    | OtherStage(bit: nat)

  datatype Access =
    | MemoryRead
    | MemoryWrite
    | ShaderRead
    | ShaderWrite
    | ColorAttachmentWrite
    | TransferRead
    | TransferWrite
    | OtherAccess(bit: nat)

  type StageMask = set<Stage>
  type AccessMask = set<Access>

  datatype Aspect = Color | Depth | Stencil
  type AspectMask = set<Aspect>

  datatype Format =
    | FormatUndefined
    | R8G8B8A8Unorm
    | B8G8R8A8Unorm
    | R8G8B8A8Srgb
    | B8G8R8A8Srgb
    | R8G8B8Srgb
    | B8G8R8Srgb
    | A2R10G10B10UnormPack32
    | A2B10G10R10UnormPack32
    | R16G16B16A16Unorm
    | R16G16B16A16Sfloat
    | D16UnormS8Uint
    | D24UnormS8Uint
    | D32Sfloat
    | D32SfloatS8Uint
    | OtherFormat(code: nat)

  datatype ColorSpace = SrgbNonlinear | OtherColorSpace(code: nat)
  datatype SurfaceFormat = SurfaceFormat(format: Format, colorSpace: ColorSpace)
  datatype PresentMode = Immediate | Mailbox | Fifo | FifoRelaxed | OtherPresentMode(code: nat)

  datatype Extent2D = Extent2D(width: u32, height: u32)
  datatype Extent3D = Extent3D(width: u32, height: u32, depth: u32)

  /** Result codes the engine distinguishes; every other code is `OtherResult`. */
  datatype VkResult = Success | NotReady | Timeout | Suboptimal | ErrorOutOfDate | OtherResult(code: int)

  datatype ShaderStage = VertexStage | FragmentStage | ComputeStage | OtherShaderStage(bit: nat)
  type ShaderStages = set<ShaderStage>

  /** vk::DescriptorType, by its numeric value (SPIR-V reflection uses the same numbering). */
  type DescriptorType = nat
  const SAMPLER: DescriptorType := 0
  const COMBINED_IMAGE_SAMPLER: DescriptorType := 1
  const SAMPLED_IMAGE: DescriptorType := 2
  const STORAGE_IMAGE: DescriptorType := 3
  const UNIFORM_TEXEL_BUFFER: DescriptorType := 4
  const STORAGE_TEXEL_BUFFER: DescriptorType := 5
  const UNIFORM_BUFFER: DescriptorType := 6
  const STORAGE_BUFFER: DescriptorType := 7

  /** The handle value `nullptr` / VK_NULL_HANDLE; `Gpu.Fresh` never returns it. */
  const NULL: nat := 0

  // ---- command-buffer commands ----

  datatype Barrier = Barrier(
    srcStage: StageMask, srcAccess: AccessMask,
    dstStage: StageMask, dstAccess: AccessMask,
    oldLayout: Layout, newLayout: Layout,
    image: nat, aspects: AspectMask)

  datatype LoadOp = Load | Clear | DontCare
  /** An image a rendering pass draws into: its view, the layout it is in, and how the pass loads it. */
  datatype Attachment = Attachment(view: nat, layout: Layout, load: LoadOp)
  datatype BindPoint = GraphicsPoint | ComputePoint

  datatype Command =
    | PipelineBarrier(barrier: Barrier)
    | BlitImage(src: nat, srcLayout: Layout, srcExtent: Extent3D, srcAspects: AspectMask,
                dst: nat, dstLayout: Layout, dstExtent: Extent3D, dstAspects: AspectMask)
    | CopyBufferToImage(buffer: nat, image: nat, imageLayout: Layout, aspects: AspectMask, extent: Extent3D)
    | BeginRendering(area: Extent2D, color: Attachment, depth: Option<Attachment>, stencil: Option<Attachment>)
    | BindPipeline(point: BindPoint, pipeline: nat)
    | BindDescriptorSets(point: BindPoint, pipelineLayout: nat, sets: seq<nat>)
    | BindVertexBuffer(buffer: nat)
    | BindIndexBuffer(buffer: nat)
    | Draw(vertexCount: nat)
    | DrawIndexed(indexCount: nat)
    | Dispatch(x: u32, y: u32, z: u32)
    | EndRendering

  /** A vk::CommandBuffer: a handle, the pool it came from, and what has been recorded into it. */
  class CommandBuffer {
    const handle: nat
    const pool: nat
    var commands: seq<Command>

    constructor (handle: nat, pool: nat)
      ensures this.handle == handle && this.pool == pool && commands == []
    {
      this.handle := handle;
      this.pool := pool;
      commands := [];
    }

    method Record(c: Command)
      modifies this
      ensures commands == old(commands) + [c]
    {
      commands := commands + [c];
    }

    /** What resetting the pool the buffer came from does to its recording. */
    method Reset()
      modifies this
      ensures commands == []
    {
      commands := [];
    }
  }

  // ---- device-level calls ----

  /** One link of the pNext feature chain handed to vkCreateDevice. */
  datatype FeatureLink = CoreFeatures | Vk11Features | Vk12Features | Vk13Features | ExtraFeatures(id: nat)
  datatype QueueCreateInfo = QueueCreateInfo(family: nat, count: nat)
  datatype DeviceCreateInfo = DeviceCreateInfo(chain: seq<FeatureLink>, queues: seq<QueueCreateInfo>, extensions: seq<string>)

  datatype SharingMode = Exclusive | Concurrent
  datatype BufferDesc = BufferDesc(size: u64, usage: nat, sharing: SharingMode, queueFamilies: seq<nat>,
                                   hostAccess: bool, alignment: Option<u64>)

  datatype SwapchainDesc = SwapchainDesc(minImageCount: u32, format: Format, colorSpace: ColorSpace,
                                         extent: Extent2D, presentMode: PresentMode, oldSwapchain: nat)

  /** Immutable-sampler create info: one given by the caller (by its position in the caller's list)
      or the engine's default sampler (linear filtering and mipmapping, clamp-to-edge addressing,
      no anisotropy, no compare, LOD range 0 to VK_LOD_CLAMP_NONE, opaque black integer border). */
  datatype SamplerDesc = CallerSampler(index: nat) | DefaultSampler

  datatype LayoutBinding = LayoutBinding(binding: nat, descriptorType: DescriptorType, count: nat,
                                         stages: ShaderStages, immutableSampler: Option<nat>)
  datatype PoolSize = PoolSize(descriptorType: DescriptorType, count: nat)

  datatype DescriptorWrite =
    | ImageWrite(dstSet: nat, binding: nat, count: nat, descriptorType: DescriptorType,
                 sampler: nat, view: nat, layout: Layout)
    | BufferWrite(dstSet: nat, binding: nat, arrayElement: nat, count: nat, descriptorType: DescriptorType,
                  buffer: nat, offset: nat, range: u64)

  /** A shader stage of a pipeline: its module handle when modules are created the deprecated way,
      otherwise the code is chained inline (`shaderModule == NULL`). */
  datatype StageDesc = StageDesc(stage: ShaderStage, shaderModule: nat, inlineCode: bool, specialized: bool)

  datatype VertexBinding = VertexBinding(binding: nat, stride: nat, perInstance: bool)
  datatype Attribute = Attribute(location: nat, binding: nat, format: nat, offset: nat)

  datatype GraphicsDesc = GraphicsDesc(
    layout: nat, stages: seq<StageDesc>, vertexInput: Option<(VertexBinding, seq<Attribute>)>,
    depthTest: bool, depthWrite: bool, stencilTest: bool, blend: bool,
    colorFormats: seq<Format>, depthFormat: Format, stencilFormat: Format)

  datatype Call =
    | CreateDevice(info: DeviceCreateInfo, device: nat)
    | DestroyDevice(device: nat)
    | GetQueue(device: nat, family: nat, queue: nat)
    | WaitIdle(queue: nat)
    | CreateAllocator(physical: nat, device: nat, allocator: nat)
    | DestroyAllocator(allocator: nat)
    | CreateCommandPool(family: nat, transient: bool, pool: nat)
    | DestroyCommandPool(pool: nat)
    | ResetCommandPool(pool: nat)
    | AllocateCommandBuffer(pool: nat, cmd: nat)
    | FreeCommandBuffer(pool: nat, cmd: nat)
    | BeginCommandBuffer(cmd: nat)
    | EndCommandBuffer(cmd: nat)
    | CreateFence(signaled: bool, fence: nat)
    | DestroyFence(fence: nat)
    | WaitForFence(fence: nat)
    | ResetFence(fence: nat)
    | CreateSemaphore(semaphore: nat)
    | DestroySemaphore(semaphore: nat)
    | Submit(queue: nat, cmd: nat, waits: seq<nat>, signals: seq<nat>, fence: nat)
    | CreateImage(format: Format, extent: Extent3D, usage: nat, image: nat, allocation: nat)
    | CreateImageView(image: nat, format: Format, aspects: AspectMask, view: nat)
    | DestroyImage(image: nat, allocation: nat)
    | DestroyImageView(view: nat)
    | CreateBuffer(bufferDesc: BufferDesc, buffer: nat, allocation: nat)
    | DestroyBuffer(buffer: nat, allocation: nat)
    | MapMemory(allocation: nat)
    | UnmapMemory(allocation: nat)
    | CopyToMapped(allocation: nat, bytes: nat)
    | CopyFromMapped(allocation: nat, bytes: nat)
    | FlushAllocation(allocation: nat, offset: nat, size: nat)
    | CreateSwapchain(swapchainDesc: SwapchainDesc, swapchain: nat)
    | DestroySwapchain(swapchain: nat)
    | AcquireNextImage(swapchain: nat, signal: nat)
    | Present(queue: nat, swapchain: nat, image: nat, wait: nat)
    | Sleep(nanoseconds: int)
    | CreateSampler(samplerDesc: SamplerDesc, sampler: nat)
    | DestroySampler(sampler: nat)
    | CreateSetLayout(bindings: seq<LayoutBinding>, layout: nat)
    | DestroySetLayout(layout: nat)
    | CreateDescriptorPool(maxSets: nat, sizes: seq<PoolSize>, pool: nat)
    | DestroyDescriptorPool(pool: nat)
    | AllocateDescriptorSets(pool: nat, layouts: seq<nat>, sets: seq<nat>)
    | UpdateDescriptorSet(write: DescriptorWrite)
    | CreatePipelineLayout(setLayouts: seq<nat>, layout: nat)
    | DestroyPipelineLayout(layout: nat)
    | CreateShaderModule(stage: ShaderStage, shaderModule: nat)
    | DestroyShaderModule(shaderModule: nat)
    | CreateComputePipeline(layout: nat, computeStage: StageDesc, pipeline: nat)
    | CreateGraphicsPipeline(graphicsDesc: GraphicsDesc, pipeline: nat)
    | DestroyPipeline(pipeline: nat)
    | Diagnostic(message: string)

  /** The driver and allocator, as far as the engine can observe them: the calls made so far and
      a source of fresh, non-null handles. */
  class Gpu {
    var calls: seq<Call>
    var next: nat

    constructor ()
      ensures calls == [] && next == 0
    {
      calls := [];
      next := 0;
    }

    method Fresh() returns (h: nat)
      modifies this
      ensures h == old(next) + 1 && next == h && h != NULL
      ensures calls == old(calls)
    {
      next := next + 1;
      h := next;
    }

    method Emit(c: Call)
      modifies this
      ensures calls == old(calls) + [c] && next == old(next)
    {
      calls := calls + [c];
    }
  }
}
