/**
 * The driver boundary.  Every Vulkan or VMA call the renderer makes that
 * succeeds appends one `Event` to `Driver.log`; a call that fails appends
 * nothing and its caller returns the failure.  The driver also keeps the
 * state the renderer's correctness depends on: the bytes of every live
 * allocation of the memory allocator, which allocations are mapped, and the
 * state of every fence.  New handles are drawn from a counter, so a handle
 * is never reused.
 */
module Gpu {
  import opened Vk

  /**
   * The driver call that fails, if any.  A fault names one call site of the
   * core; every call made before it succeeds and the named call reports an
   * error (a `VkResult` error, or the `Err` of a VMA or loader call).
   */
  datatype Fault =
    // Context::new and the calls it makes
    | InstanceFails
    | DebugMessengerFails
    | SurfaceFails
    | EnumerateDevicesFails
    | SurfaceSupportFails(deviceIndex: nat, familyIndex: nat)
    | SurfaceFormatsFails(deviceIndex: nat)
    | PresentModesFails(deviceIndex: nat)
    | DeviceNameFails
    | SurfaceCapabilitiesFails
    | CreateDeviceFails
    | AllocatorFails
    | CreateSwapchainFails
    | GetSwapchainImagesFails
    | SwapchainViewFails(index: nat)
    | DepthImageFails
    | DepthViewFails
    | ShaderModuleFails(index: nat)
    | PipelineLayoutFails
    | PipelineFails
    | CommandPoolFails
    | CommandBuffersFails
    // Renderer::new
    | FenceFails
    | SemaphoreFails(index: nat)
    // upload_mesh
    | BufferCreateFails(usage: BufferUsage)
    | BufferMapFails(usage: BufferUsage)
    // Renderer::draw
    | WaitFails
    | ResetFencesFails
    | ResetPoolFails
    | AcquireFails
    | BeginFails
    | EndFails
    | SubmitFails
    | PresentFails
    // Renderer::drop
    | WaitIdleFails

  datatype FenceState = Unsignaled | Signaled | Pending

  datatype Event =
    // construction
    | CreateInstance(instance: Handle)
    | CreateDebugMessenger(messenger: Handle)
    | CreateSurface(surface: Handle)
    | CreateDevice(device: Handle, physicalDevice: Handle, deviceInfo: DeviceCreateInfo)
    | GetDeviceQueue(family: nat, queueIndex: nat, queue: Handle)
    | CreateAllocator(allocator: Handle)
    | CreateSwapchain(swapchain: Handle, swapchainInfo: SwapchainCreateInfo)
    | GetSwapchainImages(swapchain: Handle, images: seq<Handle>)
    | CreateImageView(view: Handle, viewInfo: ImageViewCreateInfo)
    | CreateShaderModule(shaderModule: Handle, fileName: string)
    | CreatePipelineLayout(layout: Handle)
    | CreateGraphicsPipeline(pipeline: Handle, pipelineInfo: GraphicsPipelineInfo)
    | DestroyShaderModule(shaderModule: Handle)
    | CreateCommandPool(pool: Handle, family: nat)
    | AllocateCommandBuffers(pool: Handle, commandBuffers: seq<Handle>)
    | CreateFence(fence: Handle, signaled: bool)
    | CreateSemaphore(semaphore: Handle)
    // memory allocator
    | CreateBuffer(buffer: Handle, allocation: Handle, size: nat, usage: BufferUsage, allocationInfo: AllocationCreateInfo)
    | MapMemory(allocation: Handle)
    | CopyMemory(allocation: Handle, size: nat)
    | UnmapMemory(allocation: Handle)
    | CreateImage(image: Handle, allocation: Handle, imageInfo: ImageCreateInfo, allocationInfo: AllocationCreateInfo)
    | DestroyBuffer(buffer: Handle, allocation: Handle)
    | DestroyImage(image: Handle, allocation: Handle)
    | DestroyAllocator(allocator: Handle)
    // one frame
    | WaitForFences(fences: seq<Handle>, waitAll: bool, timeout: nat)
    | ResetFences(fences: seq<Handle>)
    | ResetCommandPool(pool: Handle)
    | AcquireNextImage(swapchain: Handle, timeout: nat, semaphore: Handle, acquireFence: Option<Handle>, imageIndex: nat)
    | BeginCommandBuffer(cb: Handle, oneTimeSubmit: bool)
    | PipelineBarrier(cb: Handle, barriers: seq<ImageBarrier>)
    | BeginRendering(cb: Handle, renderingInfo: RenderingInfo)
    | BindPipeline(cb: Handle, pipeline: Handle)
    | BindVertexBuffers(cb: Handle, firstBinding: nat, buffers: seq<Handle>, offsets: seq<nat>)
    | BindIndexBuffer(cb: Handle, buffer: Handle, offset: nat, indexType: IndexType)
    | DrawIndexed(cb: Handle, indexCount: u32, instanceCount: nat, firstIndex: nat, vertexOffset: int, firstInstance: nat)
    | EndRendering(cb: Handle)
    | EndCommandBuffer(cb: Handle)
    | QueueSubmit(queue: Handle, submits: seq<SubmitInfo>, fence: Handle)
    | QueuePresent(queue: Handle, presentInfo: PresentInfo)
    // teardown
    | DeviceWaitIdle
    | DestroyCommandPool(pool: Handle)
    | DestroyImageView(view: Handle)
    | DestroySwapchain(swapchain: Handle)
    | DestroyPipeline(pipeline: Handle)
    | DestroyPipelineLayout(layout: Handle)
    | DestroyFence(fence: Handle)
    | DestroySemaphore(semaphore: Handle)
    | DestroyDevice(device: Handle)
    | DestroySurface(surface: Handle)
    | DestroyDebugMessenger(messenger: Handle)
    | DestroyInstance(instance: Handle)

  /** Contents of a fresh allocation before anything is copied into it. */
  function Zeros(n: nat): (z: seq<byte>)
    ensures |z| == n
    ensures forall i :: 0 <= i < n ==> z[i] == 0
  {
    seq(n, _ => 0)
  }

  /** The `n` consecutive handles from `start`. */
  function Range(start: nat, n: nat): (r: seq<Handle>)
    ensures |r| == n
    ensures forall i :: 0 <= i < n ==> r[i] == start + i
  {
    seq(n, i => start + i)
  }

  /** A prefix of a range is the shorter range. */
  lemma RangePrefix(start: nat, n: nat, k: nat)
    requires k <= n
    ensures Range(start, n)[..k] == Range(start, k)
  {
  }

  /** One more handle from the same start is appended at the end. */
  lemma RangeSnoc(start: nat, n: nat)
    ensures Range(start, n + 1) == Range(start, n) + [start + n]
  {
    assert Range(start, n + 1)[..n] == Range(start, n);
  }

  /** Regrouping a log extended piece by piece. */
  lemma AppendAssoc(a: seq<Event>, b: seq<Event>, c: seq<Event>)
    ensures a + b + c == a + (b + c)
  {
  }

  /** Outcome of a wait with an unbounded (u64::MAX) timeout. */
  datatype WaitOutcome = Returned | NeverReturns

  class Driver {
    var log: seq<Event>
    var memory: map<Handle, seq<byte>>
    var mapped: set<Handle>
    var fences: map<Handle, FenceState>
    var next: Handle

    ghost predicate Valid()
      reads this`memory, this`mapped, this`fences, this`next
    {
      && (forall a :: a in memory ==> a < next)
      && mapped <= memory.Keys
      && (forall f :: f in fences ==> f < next)
    }

    constructor ()
      ensures Valid()
      ensures log == [] && memory == map[] && mapped == {} && fences == map[]
    {
      log, memory, mapped, fences, next := [], map[], {}, map[], 0;
    }

    /** A handle never handed out before. */
    method Fresh() returns (h: Handle)
      requires Valid()
      modifies this`next
      ensures Valid()
      ensures h == old(next) && next == h + 1
    {
      h := next;
      next := next + 1;
    }

    /** `n` handles never handed out before, in increasing order. */
    method FreshRange(n: nat) returns (hs: seq<Handle>)
      requires Valid()
      modifies this`next
      ensures Valid()
      ensures hs == Range(old(next), n) && next == old(next) + n
    {
      hs := Range(next, n);
      next := next + n;
    }

    /** A call whose only effect the model tracks is its place in the log. */
    method Record(e: Event)
      requires Valid()
      modifies this`log
      ensures Valid()
      ensures log == old(log) + [e]
    {
      log := log + [e];
    }

    /** `vma::create_buffer`: a new buffer bound to a new allocation of `size` bytes. */
    method CreateBuffer(size: nat, usage: BufferUsage, info: AllocationCreateInfo) returns (buffer: Handle, allocation: Handle)
      requires Valid()
      modifies this`log, this`memory, this`next
      ensures Valid()
      ensures buffer == old(next) && allocation == old(next) + 1 && next == old(next) + 2
      ensures memory == old(memory)[allocation := Zeros(size)]
      ensures log == old(log) + [Event.CreateBuffer(buffer, allocation, size, usage, info)]
    {
      buffer, allocation := next, next + 1;
      next := next + 2;
      memory := memory[allocation := Zeros(size)];
      log := log + [Event.CreateBuffer(buffer, allocation, size, usage, info)];
    }

    method MapMemory(allocation: Handle)
      requires Valid() && allocation in memory
      modifies this`log, this`mapped
      ensures Valid()
      ensures mapped == old(mapped) + {allocation}
      ensures log == old(log) + [Event.MapMemory(allocation)]
    {
      mapped := mapped + {allocation};
      log := log + [Event.MapMemory(allocation)];
    }

    /** `copy_nonoverlapping` of `data` to the start of a mapped allocation. */
    method CopyMemory(allocation: Handle, data: seq<byte>)
      requires Valid() && allocation in mapped && |data| <= |memory[allocation]|
      modifies this`log, this`memory
      ensures Valid()
      ensures memory == old(memory)[allocation := data + old(memory)[allocation][|data|..]]
      ensures log == old(log) + [Event.CopyMemory(allocation, |data|)]
    {
      memory := memory[allocation := data + memory[allocation][|data|..]];
      log := log + [Event.CopyMemory(allocation, |data|)];
    }

    method UnmapMemory(allocation: Handle)
      requires Valid() && allocation in mapped
      modifies this`log, this`mapped
      ensures Valid()
      ensures mapped == old(mapped) - {allocation}
      ensures log == old(log) + [Event.UnmapMemory(allocation)]
    {
      mapped := mapped - {allocation};
      log := log + [Event.UnmapMemory(allocation)];
    }

    /** `vma::create_image`; image memory is device-local, so its bytes are not modelled. */
    method CreateImage(info: ImageCreateInfo, allocationInfo: AllocationCreateInfo) returns (image: Handle, allocation: Handle)
      requires Valid()
      modifies this`log, this`memory, this`next
      ensures Valid()
      ensures image == old(next) && allocation == old(next) + 1 && next == old(next) + 2
      ensures memory == old(memory)[allocation := []]
      ensures log == old(log) + [Event.CreateImage(image, allocation, info, allocationInfo)]
    {
      image, allocation := next, next + 1;
      next := next + 2;
      memory := memory[allocation := []];
      log := log + [Event.CreateImage(image, allocation, info, allocationInfo)];
    }

    /** `vma::destroy_buffer`: releasing an allocation that is not live is undefined, hence the requires. */
    method DestroyBuffer(buffer: Handle, allocation: Handle)
      requires Valid() && allocation in memory && allocation !in mapped
      modifies this`log, this`memory
      ensures Valid()
      ensures memory == old(memory) - {allocation}
      ensures log == old(log) + [Event.DestroyBuffer(buffer, allocation)]
    {
      memory := memory - {allocation};
      log := log + [Event.DestroyBuffer(buffer, allocation)];
    }

    method DestroyImage(image: Handle, allocation: Handle)
      requires Valid() && allocation in memory && allocation !in mapped
      modifies this`log, this`memory
      ensures Valid()
      ensures memory == old(memory) - {allocation}
      ensures log == old(log) + [Event.DestroyImage(image, allocation)]
    {
      memory := memory - {allocation};
      log := log + [Event.DestroyImage(image, allocation)];
    }

    method CreateFence(signaled: bool) returns (fence: Handle)
      requires Valid()
      modifies this`log, this`fences, this`next
      ensures Valid()
      ensures fence == old(next) && next == old(next) + 1
      ensures fences == old(fences)[fence := if signaled then Signaled else Unsignaled]
      ensures log == old(log) + [Event.CreateFence(fence, signaled)]
    {
      fence := next;
      next := next + 1;
      fences := fences[fence := if signaled then Signaled else Unsignaled];
      log := log + [Event.CreateFence(fence, signaled)];
    }

    /**
     * `wait_for_fences(fences, true, u64::MAX)`: returns once every fence is
     * signalled.  A pending fence is signalled by the GPU when its batch
     * retires; an unsignalled fence that no submission will signal makes the
     * call never return.
     */
    method WaitForFences(fs: seq<Handle>) returns (outcome: WaitOutcome)
      requires Valid() && forall f :: f in fs ==> f in fences
      modifies this`log, this`fences
      ensures Valid()
      ensures outcome == NeverReturns <==> exists f :: f in fs && old(fences)[f] == Unsignaled
      ensures outcome == NeverReturns ==> fences == old(fences) && log == old(log)
      ensures outcome == Returned ==>
                fences.Keys == old(fences).Keys &&
                (forall f :: f in fences ==> fences[f] == if f in fs then Signaled else old(fences)[f]) &&
                log == old(log) + [Event.WaitForFences(fs, true, U64_MAX)]
    {
      if exists f :: f in fs && fences[f] == Unsignaled {
        outcome := NeverReturns;
      } else {
        outcome := Returned;
        fences := map f | f in fences :: if f in fs then Signaled else fences[f];
        log := log + [Event.WaitForFences(fs, true, U64_MAX)];
      }
    }

    method ResetFences(fs: seq<Handle>)
      requires Valid() && forall f :: f in fs ==> f in fences
      modifies this`log, this`fences
      ensures Valid()
      ensures fences.Keys == old(fences).Keys
      ensures forall f :: f in fences ==> fences[f] == if f in fs then Unsignaled else old(fences)[f]
      ensures log == old(log) + [Event.ResetFences(fs)]
    {
      fences := map f | f in fences :: if f in fs then Unsignaled else fences[f];
      log := log + [Event.ResetFences(fs)];
    }

    /** `queue_submit`: the fence is signalled later, when the GPU has run the batch. */
    method QueueSubmit(queue: Handle, submits: seq<SubmitInfo>, fence: Handle)
      requires Valid() && fence in fences
      modifies this`log, this`fences
      ensures Valid()
      ensures fences == old(fences)[fence := Pending]
      ensures log == old(log) + [Event.QueueSubmit(queue, submits, fence)]
    {
      fences := fences[fence := Pending];
      log := log + [Event.QueueSubmit(queue, submits, fence)];
    }
  }
}
