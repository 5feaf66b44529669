/**
 * Value types shared by the whole model: the slice of the Vulkan API that the
 * renderer touches, with every handle reduced to an opaque number and every
 * bit-flag set reduced to a Dafny `set` of its named bits.
 */
module Vk {

  /** Opaque driver object id (VkBuffer, VkImage, VmaAllocation, ...). */
  type Handle = nat

  const U32_MAX: int := 0xFFFF_FFFF
  const U64_MAX: int := 0xFFFF_FFFF_FFFF_FFFF

  type u32 = x: int | 0 <= x <= U32_MAX

  /** u32 addition as an optimised build does it: modulo 2^32. */
  function WrappingAdd(a: u32, b: u32): (r: u32)
    ensures a + b <= U32_MAX ==> r == a + b
    ensures a + b > U32_MAX ==> r == a + b - (U32_MAX + 1)
  {
    (a + b) % (U32_MAX + 1)
  }
  type byte = x: int | 0 <= x < 256

  /** A 32-bit float, kept as its bit pattern; the model never does float arithmetic. */
  type F32 = u32

  datatype Option<T> = None | Some(value: T)

  /** A prefix one element longer is the shorter prefix with that element appended. */
  lemma PrefixSnoc<T>(s: seq<T>, i: nat)
    requires i < |s|
    ensures s[..i + 1] == s[..i] + [s[i]]
  {
  }

  /** An element of a concatenation comes from the left part or the right part. */
  lemma ConcatAt<T>(a: seq<T>, b: seq<T>, j: nat)
    requires j < |a| + |b|
    ensures (a + b)[j] == if j < |a| then a[j] else b[j - |a|]
  {
  }

  /** How a fallible operation ends: a value, an `Err` returned through `?`, or a panic. */
  datatype Outcome<T> = Ok(value: T) | Err | Panic

  datatype Format =
    | UndefinedFormat
    | R8G8B8A8Srgb
    | B8G8R8A8Srgb
    | R8G8B8A8Unorm
    | B8G8R8A8Unorm
    | R32G32B32Sfloat
    | D32Sfloat
    | OtherFormat(code: nat)

  datatype ColorSpace = SrgbNonlinear | OtherColorSpace(code: nat)

  datatype SurfaceFormat = SurfaceFormat(format: Format, colorSpace: ColorSpace)

  datatype PresentMode = Immediate | Mailbox | Fifo | FifoRelaxed

  datatype PhysicalDeviceType = OtherGpu | IntegratedGpu | DiscreteGpu | VirtualGpu | CpuDevice

  datatype Extent2D = Extent2D(width: u32, height: u32)

  datatype Extent3D = Extent3D(width: u32, height: u32, depth: u32)

  datatype Offset2D = Offset2D(x: int, y: int)

  datatype Rect2D = Rect2D(offset: Offset2D, extent: Extent2D)

  datatype SurfaceCapabilities = SurfaceCapabilities(
    minImageCount: u32,
    maxImageCount: u32,
    currentExtent: Extent2D,
    currentTransform: nat)

  datatype ImageAspect = ColorAspect | DepthAspect

  /** VkImageSubresourceRange; base mip level and base array layer are always 0 here. */
  datatype SubresourceRange = SubresourceRange(aspectMask: set<ImageAspect>, levelCount: nat, layerCount: nat)

  datatype ImageViewType = View2D

  datatype ImageViewCreateInfo = ImageViewCreateInfo(
    image: Handle,
    viewType: ImageViewType,
    format: Format,
    range: SubresourceRange)

  datatype ImageType = Image2D

  datatype ImageTiling = OptimalTiling | LinearTiling

  datatype ImageUsage = ColorAttachmentUsage | DepthStencilAttachmentUsage

  datatype ImageCreateInfo = ImageCreateInfo(
    format: Format,
    usage: set<ImageUsage>,
    extent: Extent3D,
    samples: nat,
    tiling: ImageTiling,
    mipLevels: nat,
    arrayLayers: nat,
    imageType: ImageType)

  datatype MemoryUsage = AutoUsage

  datatype AllocationFlag = HostAccessSequentialWrite

  datatype MemoryProperty = DeviceLocal

  /** VmaAllocationCreateInfo: the fields the renderer sets, the rest at their defaults. */
  datatype AllocationCreateInfo = AllocationCreateInfo(
    usage: MemoryUsage,
    flags: set<AllocationFlag>,
    requiredFlags: set<MemoryProperty>)

  datatype BufferUsage = VertexBufferUsage | IndexBufferUsage

  datatype IndexType = Uint16 | Uint32

  datatype ShaderStage = VertexStage | FragmentStage

  datatype ImageLayout = UndefinedLayout | AttachmentOptimal | PresentSrc | DepthAttachmentOptimal

  datatype PipelineStage = ColorAttachmentOutput | EarlyFragmentTests | LateFragmentTests

  datatype Access = ColorAttachmentWrite | DepthStencilAttachmentWrite

  datatype SharingMode = Exclusive | Concurrent

  datatype CompositeAlpha = OpaqueAlpha

  datatype QueueCreateInfo = QueueCreateInfo(queueFamilyIndex: nat, priorityCount: nat)

  datatype DeviceCreateInfo = DeviceCreateInfo(
    enabledExtensions: seq<string>,
    enabledLayers: seq<string>,
    queueCreateInfos: seq<QueueCreateInfo>,
    dynamicRendering: bool,
    synchronization2: bool)

  /** VkSwapchainCreateInfoKHR; flag fields are sets of their named bits (empty = not set). */
  datatype SwapchainCreateInfo = SwapchainCreateInfo(
    surface: Handle,
    imageFormat: Format,
    imageColorSpace: ColorSpace,
    presentMode: PresentMode,
    minImageCount: u32,
    imageArrayLayers: nat,
    compositeAlpha: set<CompositeAlpha>,
    imageUsage: set<ImageUsage>,
    sharingMode: SharingMode,
    imageExtent: Extent2D,
    preTransform: nat,
    clipped: bool)

  datatype VertexInputRate = PerVertex | PerInstance

  datatype VertexInputBinding = VertexInputBinding(binding: u32, stride: u32, inputRate: VertexInputRate)

  datatype VertexInputAttribute = VertexInputAttribute(location: u32, binding: u32, format: Format, offset: u32)

  datatype ShaderStageInfo = ShaderStageInfo(shaderModule: Handle, stage: ShaderStage, entryName: string)

  datatype PrimitiveTopology = TriangleList | TriangleStrip | LineList | PointList

  datatype CullMode = CullFront | CullBack

  datatype FrontFace = CounterClockwise | Clockwise

  datatype PolygonMode = Fill | LineMode | PointMode

  datatype CompareOp = Never | Less | Equal | LessOrEqual | Greater | Always

  datatype ColorComponent = Red | Green | Blue | Alpha

  /** A viewport keeps the integer extent it is built from (the f32 casts are not modelled). */
  datatype Viewport = Viewport(extent: Extent2D)

  /** VkGraphicsPipelineCreateInfo with its chained state structures flattened into one record. */
  datatype GraphicsPipelineInfo = GraphicsPipelineInfo(
    stages: seq<ShaderStageInfo>,
    bindings: seq<VertexInputBinding>,
    attributes: seq<VertexInputAttribute>,
    topology: PrimitiveTopology,
    viewports: seq<Viewport>,
    scissors: seq<Rect2D>,
    cullMode: set<CullMode>,
    frontFace: FrontFace,
    polygonMode: PolygonMode,
    samples: nat,
    blendAttachments: seq<set<ColorComponent>>,
    depthTest: bool,
    depthWrite: bool,
    depthCompare: CompareOp,
    layout: Handle,
    colorFormats: seq<Format>,
    depthFormat: Format)

  /** VkImageMemoryBarrier2. */
  datatype ImageBarrier = ImageBarrier(
    image: Handle,
    oldLayout: ImageLayout,
    newLayout: ImageLayout,
    srcStages: set<PipelineStage>,
    srcAccess: set<Access>,
    dstStages: set<PipelineStage>,
    dstAccess: set<Access>,
    srcQueueFamily: nat,
    dstQueueFamily: nat,
    range: SubresourceRange)

  /** VkRenderingAttachmentInfo; `clear` is load op CLEAR, `store` is store op STORE. */
  datatype Attachment = Attachment(view: Handle, layout: ImageLayout, clear: bool, store: bool)

  datatype RenderingInfo = RenderingInfo(
    colorAttachments: seq<Attachment>,
    depthAttachment: Attachment,
    renderArea: Rect2D,
    layerCount: nat)

  datatype SubmitInfo = SubmitInfo(
    commandBuffers: seq<Handle>,
    waitSemaphores: seq<Handle>,
    waitStages: seq<PipelineStage>,
    signalSemaphores: seq<Handle>)

  datatype PresentInfo = PresentInfo(waitSemaphores: seq<Handle>, swapchains: seq<Handle>, imageIndices: seq<nat>)

  /** Byte size of one `u32` index, `size_of::<u32>()`. */
  const INDEX_SIZE: nat := 4
}
