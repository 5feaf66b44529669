/**
 * The Vulkan context of the renderer (src/engine/renderer/context.rs and
 * src/engine/renderer/context/command.rs): the construction sequence of
 * `Context::new`, and the per-frame helpers `reset_fences`,
 * `reset_commmand_buffers` and `get_image`.
 */
module Context {
  import opened Vk
  import opened Gpu
  import opened DeviceSelection
  import Swapchain
  import Depth
  import Shader
  import Pipeline
  import Resources

  // ---------------------------------------------------------------------------
  // Command

  /** The command pool and the primary command buffers allocated from it. */
  datatype Command = Command(commandPool: Handle, commandBuffers: seq<Handle>)

  function CommandEvents(queueFamilyIndex: nat, c: Command): seq<Event> {
    [Event.CreateCommandPool(c.commandPool, queueFamilyIndex), Event.AllocateCommandBuffers(c.commandPool, c.commandBuffers)]
  }

  predicate CommandFault(fault: Option<Fault>) {
    fault == Some(CommandPoolFails) || fault == Some(CommandBuffersFails)
  }

  /**
   * `Command::new`: a pool on the given queue family, then `imageCount`
   * primary buffers from it.  Either failure is returned with `?`; a failed
   * allocation leaves the pool created and not destroyed.
   */
  method NewCommand(driver: Driver, queueFamilyIndex: nat, imageCount: u32, fault: Option<Fault>) returns (r: Outcome<Command>)
    requires driver.Valid()
    modifies driver`log, driver`next
    ensures driver.Valid()
    ensures !r.Panic?
    ensures r.Err? <==> CommandFault(fault)
    ensures fault == Some(CommandPoolFails) ==> driver.log == old(driver.log)
    ensures fault == Some(CommandBuffersFails) ==>
              driver.log == old(driver.log) + [Event.CreateCommandPool(old(driver.next), queueFamilyIndex)]
    ensures r.Ok? ==>
              && r.value.commandPool == old(driver.next)
              && r.value.commandBuffers == Range(old(driver.next) + 1, imageCount)
              && driver.log == old(driver.log) + CommandEvents(queueFamilyIndex, r.value)
  {
    if fault == Some(CommandPoolFails) {
      return Err;
    }
    var pool := driver.Fresh();
    driver.Record(Event.CreateCommandPool(pool, queueFamilyIndex));
    if fault == Some(CommandBuffersFails) {
      return Err;
    }
    var buffers := driver.FreshRange(imageCount);
    driver.Record(Event.AllocateCommandBuffers(pool, buffers));
    r := Ok(Command(pool, buffers));
  }

  // ---------------------------------------------------------------------------
  // Shader-module destruction

  /** One `destroy_shader_module` per module, in module order. */
  function DestroyModuleEvents(modules: seq<Shader.StagedModule>): (es: seq<Event>)
    ensures |es| == |modules|
  {
    if modules == [] then []
    else
      var n := |modules| - 1;
      DestroyModuleEvents(modules[..n]) + [Event.DestroyShaderModule(modules[n].shaderModule)]
  }

  lemma DestroyModuleEventsSnoc(modules: seq<Shader.StagedModule>, m: Shader.StagedModule)
    ensures DestroyModuleEvents(modules + [m]) == DestroyModuleEvents(modules) + [Event.DestroyShaderModule(m.shaderModule)]
  {
    assert (modules + [m])[..|modules|] == modules;
  }

  /** The i-th destroy call is that of the i-th module. */
  lemma {:induction false} DestroyModuleEventsAt(modules: seq<Shader.StagedModule>, i: nat)
    requires i < |modules|
    ensures DestroyModuleEvents(modules)[i] == Event.DestroyShaderModule(modules[i].shaderModule)
  {
    var n := |modules| - 1;
    if i < n {
      DestroyModuleEventsAt(modules[..n], i);
    }
  }

  /** The `for_each` over the shader handle's modules. */
  method DestroyShaderModules(driver: Driver, modules: seq<Shader.StagedModule>)
    requires driver.Valid()
    modifies driver`log
    ensures driver.Valid()
    ensures driver.log == old(driver.log) + DestroyModuleEvents(modules)
  {
    var i := 0;
    while i < |modules|
      invariant 0 <= i <= |modules|
      invariant driver.Valid()
      invariant driver.log == old(driver.log) + DestroyModuleEvents(modules[..i])
    {
      var event := Event.DestroyShaderModule(modules[i].shaderModule);
      driver.Record(event);
      PrefixSnoc(modules, i);
      DestroyModuleEventsSnoc(modules[..i], modules[i]);
      AppendAssoc(old(driver.log), DestroyModuleEvents(modules[..i]), [event]);
      i := i + 1;
    }
    assert modules[..i] == modules;
  }

  // ---------------------------------------------------------------------------
  // Instance, surface and device

  /** Instance, debug messenger (with `validation`) and surface. */
  function InstanceEvents(instance: Handle, debugMessenger: Option<Handle>, surface: Handle): seq<Event> {
    [Event.CreateInstance(instance)] +
    (if debugMessenger.Some? then [Event.CreateDebugMessenger(debugMessenger.value)] else []) +
    [Event.CreateSurface(surface)]
  }

  predicate InstanceFault(fault: Option<Fault>, validation: bool) {
    fault == Some(InstanceFails) || (validation && fault == Some(DebugMessengerFails)) || fault == Some(SurfaceFails)
  }

  /**
   * The first three steps of `Context::new`: the instance, the debug messenger
   * when the `validation` feature is on, and the window surface, each failure
   * returned with `?`.
   */
  method CreateInstance(driver: Driver, validation: bool, fault: Option<Fault>)
    returns (r: Outcome<(Handle, Option<Handle>, Handle)>)
    requires driver.Valid()
    modifies driver`log, driver`next
    ensures driver.Valid()
    ensures !r.Panic?
    ensures r.Err? <==> InstanceFault(fault, validation)
    ensures r.Ok? ==>
              var (instance, debugMessenger, surface) := r.value;
              && (debugMessenger.Some? <==> validation)
              && driver.log == old(driver.log) + InstanceEvents(instance, debugMessenger, surface)
  {
    if fault == Some(InstanceFails) {
      return Err;
    }
    var instance := driver.Fresh();
    driver.Record(Event.CreateInstance(instance));
    var debugMessenger := None;
    if validation {
      if fault == Some(DebugMessengerFails) {
        return Err;
      }
      var m := driver.Fresh();
      driver.Record(Event.CreateDebugMessenger(m));
      debugMessenger := Some(m);
    }
    if fault == Some(SurfaceFails) {
      return Err;
    }
    var surface := driver.Fresh();
    driver.Record(Event.CreateSurface(surface));
    r := Ok((instance, debugMessenger, surface));
  }

  /** `create_device` for the selected candidate `c`, then queue 0 of the device's family. */
  function DeviceEvents(d: DeviceHandle, c: Candidate, validation: bool): seq<Event>
  {
    [Event.CreateDevice(d.device, d.physicalDevice, DeviceInfo(c, validation)),
     Event.GetDeviceQueue(d.queueFamilyIndex, 0, d.queue)]
  }

  /** The driver calls up to the logical device and its queue. */
  function BaseEvents(instance: Handle, debugMessenger: Option<Handle>, surface: Handle, d: DeviceHandle,
                      c: Candidate, validation: bool): seq<Event>
  {
    InstanceEvents(instance, debugMessenger, surface) + DeviceEvents(d, c, validation)
  }

  /** The faults of the steps up to the logical device. */
  predicate BaseFault(fault: Option<Fault>, validation: bool) {
    InstanceFault(fault, validation) || fault == Some(EnumerateDevicesFails) || fault == Some(CreateDeviceFails)
  }

  /**
   * Instance, debug messenger, surface, then the logical device of the
   * selected physical device (src/engine/renderer/context.rs:35-46).  No
   * compatible device is a panic.
   */
  method CreateBase(driver: Driver, validation: bool, devices: seq<PhysicalDevice>, fault: Option<Fault>)
    returns (r: Outcome<(Handle, Option<Handle>, Handle, DeviceHandle)>)
    requires driver.Valid()
    modifies driver`log, driver`next
    ensures driver.Valid()
    ensures r.Ok? <==> DeviceReady(devices, fault) && !BaseFault(fault, validation)
    ensures r.Err? ==> BaseFault(fault, validation)
    ensures r.Ok? ==>
              var (instance, debugMessenger, surface, d) := r.value;
              var c := SelectDevice(devices).candidate;
              && (debugMessenger.Some? <==> validation)
              && d.queueFamilyIndex == c.queueFamilyIndex && d.capabilities == c.capabilities
              && d.format == c.format && d.presentMode == c.presentMode
              && driver.log == old(driver.log) + BaseEvents(instance, debugMessenger, surface, d, c, validation)
  {
    var base := CreateInstance(driver, validation, fault);
    if base.Err? {
      return Err;
    }
    var (instance, debugMessenger, surface) := base.value;
    var device := NewDeviceHandle(driver, devices, validation, fault);
    if device.Err? {
      return Err;
    } else if device.Panic? {
      return Panic;
    }
    AppendAssoc(old(driver.log), InstanceEvents(instance, debugMessenger, surface), DeviceEvents(device.value, SelectDevice(devices).candidate, validation));
    r := Ok((instance, debugMessenger, surface, device.value));
  }

  // ---------------------------------------------------------------------------
  // Swapchain and depth buffer

  /** The depth buffer covers the swapchain images: their extent, one deep. */
  function DepthExtent(extent: Extent2D): Extent3D {
    Extent3D(extent.width, extent.height, 1)
  }

  /** The driver calls of the swapchain step and then of the depth step. */
  function TargetEvents(surface: Handle, d: DeviceHandle, sc: Swapchain.SwapchainHandle, db: Depth.DepthBuffer): seq<Event>
    requires |sc.images| == |sc.imageViews|
  {
    Swapchain.SwapchainEvents(surface, d, sc) + Depth.DepthEvents(DepthExtent(sc.imageExtent), db)
  }

  /** The faults of the swapchain and depth steps. */
  predicate TargetFault(fault: Option<Fault>, imageCount: nat) {
    || fault == Some(CreateSwapchainFails) || fault == Some(GetSwapchainImagesFails)
    || Swapchain.ViewFailsBefore(fault, imageCount)
    || fault == Some(DepthImageFails) || fault == Some(DepthViewFails)
  }

  /** The resources own exactly one image: the depth image with its allocation, the next handle after it. */
  ghost predicate OwnsDepthImage(resources: Resources.Resources, db: Depth.DepthBuffer)
    reads resources
  {
    resources.images == [Resources.Image(db.image, db.image + 1)]
  }

  /** The allocator memory while construction can still fail: as before, or plus the depth image's empty allocation. */
  ghost predicate Unwindable(m0: map<Handle, seq<byte>>, m: map<Handle, seq<byte>>, images: seq<Resources.Image>) {
    || (images == [] && m == m0)
    || (|images| == 1 && images[0].allocation !in m0 && m == m0[images[0].allocation := []])
  }

  /** Dropping the resources of a construction that fails gives the allocator memory back as it was. */
  lemma UnwoundMemory(m0: map<Handle, seq<byte>>, m: map<Handle, seq<byte>>, images: seq<Resources.Image>)
    requires Unwindable(m0, m, images)
    ensures m - Resources.AllocationSet(Resources.Releases([], [], images)) == m0
  {
    if images == [] {
      assert Resources.Allocations(Resources.Releases([], [], images)) == [];
    } else {
      var a := images[0].allocation;
      assert images[1..] == [];
      assert Resources.ImageReleases(images) == [Resources.ReleaseImage(images[0].image, a)];
      assert Resources.Releases([], [], images) == [Resources.ReleaseImage(images[0].image, a)];
      assert Resources.Allocations(Resources.Releases([], [], images)) == [a];
      assert Resources.AllocationSet(Resources.Releases([], [], images)) == {a};
    }
  }

  /**
   * The swapchain with its views (src/engine/renderer/context.rs:55-61) and
   * the depth buffer of the same extent (63-72).  The depth image is owned by
   * the resources as soon as it exists, so a failing depth view leaves it
   * there for `Resources`'s drop.
   */
  method CreateTargets(driver: Driver, resources: Resources.Resources, surface: Handle, d: DeviceHandle,
                       window: Extent2D, imageCount: u32, fault: Option<Fault>)
    returns (r: Outcome<(Swapchain.SwapchainHandle, Depth.DepthBuffer)>)
    requires resources.Valid(driver) && resources.images == []
    modifies resources, driver`log, driver`memory, driver`next
    ensures resources.Valid(driver)
    ensures r.Ok? <==> !TargetFault(fault, imageCount)
    ensures r.Panic? <==> Swapchain.ViewFailsBefore(fault, imageCount)
    ensures !r.Ok? ==> Unwindable(old(driver.memory), driver.memory, resources.images)
    ensures r.Ok? ==>
              var (sc, db) := r.value;
              && sc.imageExtent == Swapchain.ChooseExtent(d.capabilities, window)
              && |sc.images| == |sc.imageViews| == imageCount
              && OwnsDepthImage(resources, db)
              && Unwindable(old(driver.memory), driver.memory, resources.images)
              && driver.log == old(driver.log) + TargetEvents(surface, d, sc, db)
  {
    var swapchain := Swapchain.New(driver, surface, d, window, imageCount, fault);
    if !swapchain.Ok? {
      r := if swapchain.Err? then Err else Panic;
      return;
    }
    var sc := swapchain.value;
    ghost var next := driver.next;
    assert next + 1 !in old(driver.memory);
    var depth := Depth.New(driver, resources, DepthExtent(sc.imageExtent), fault);
    if depth.Err? {
      return Err;
    }
    AppendAssoc(old(driver.log), Swapchain.SwapchainEvents(surface, d, sc), Depth.DepthEvents(DepthExtent(sc.imageExtent), depth.value));
    r := Ok((sc, depth.value));
  }

  // ---------------------------------------------------------------------------
  // Shaders and pipeline

  /** Shader modules, pipeline layout and pipeline, then one destroy per module. */
  function PipelineTrace(files: seq<string>, first: Handle, p: Pipeline.PipelineHandle, format: Format, extent: Extent2D): seq<Event>
    requires Shader.Stages(files).Some?
  {
    var modules := Shader.StagedModules(Shader.Stages(files).value, first);
    Shader.ModuleEvents(files, first) +
    Pipeline.PipelineEvents(p, modules, format, extent) +
    DestroyModuleEvents(modules)
  }

  /** The faults of the shader and pipeline steps. */
  predicate PipelineFault(fault: Option<Fault>, moduleCount: nat) {
    Shader.ModuleFailsBefore(fault, moduleCount) || fault == Some(PipelineLayoutFails) || fault == Some(PipelineFails)
  }

  /**
   * The shader handle, the pipeline built from it, and the destruction of its
   * modules (src/engine/renderer/context.rs:74-93).  The first module handle
   * is a ghost result so that the trace can name the modules.  A failing
   * pipeline leaves the modules alive: they are destroyed only after a
   * successful build.
   */
  method CreatePipeline(driver: Driver, d: DeviceHandle, extent: Extent2D, walk: seq<Shader.WalkEntry>, fault: Option<Fault>)
    returns (r: Outcome<Pipeline.PipelineHandle>, ghost first: Handle)
    requires driver.Valid()
    modifies driver`log, driver`next
    ensures driver.Valid()
    ensures r.Ok? <==> Shader.ShaderFiles(walk) != [] && Shader.Stages(Shader.ShaderFiles(walk)).Some? &&
                       !PipelineFault(fault, |Shader.ShaderFiles(walk)|)
    ensures r.Err? ==> fault == Some(PipelineLayoutFails)
    ensures r.Ok? ==>
              && first == old(driver.next)
              && driver.log == old(driver.log) + PipelineTrace(Shader.ShaderFiles(walk), first, r.value, d.format.format, extent)
  {
    first := driver.next;
    var shaders := Shader.New(driver, walk, fault);
    if !shaders.Ok? {
      return Panic, first;
    }
    ghost var files := Shader.ShaderFiles(walk);
    var pipeline := Pipeline.New(driver, shaders.value, d.format.format, extent, fault);
    if !pipeline.Ok? {
      r := if pipeline.Err? then Err else Panic;
      return r, first;
    }
    ghost var p := Pipeline.PipelineEvents(pipeline.value, shaders.value, d.format.format, extent);
    AppendAssoc(old(driver.log), Shader.ModuleEvents(files, first), p);
    ghost var t := Shader.ModuleEvents(files, first) + p;
    DestroyShaderModules(driver, shaders.value);
    AppendAssoc(old(driver.log), t, DestroyModuleEvents(shaders.value));
    r := pipeline;
  }

  // ---------------------------------------------------------------------------
  // Context::new

  /** What `Context::new` creates once the device and the resources exist. */
  datatype DeviceObjects = DeviceObjects(
    swapchain: Swapchain.SwapchainHandle,
    depth: Depth.DepthBuffer,
    pipeline: Pipeline.PipelineHandle,
    command: Command)

  ghost predicate WellFormed(o: DeviceObjects, files: seq<string>) {
    |o.swapchain.images| == |o.swapchain.imageViews| && Shader.Stages(files).Some?
  }

  /**
   * The driver calls after the allocator: swapchain with its images and
   * views, depth image and view, shader modules, pipeline layout and
   * pipeline, destruction of the shader modules, command pool and buffers.
   */
  function ObjectEvents(surface: Handle, d: DeviceHandle, o: DeviceObjects, files: seq<string>, first: Handle): seq<Event>
    requires WellFormed(o, files)
  {
    TargetEvents(surface, d, o.swapchain, o.depth) +
    PipelineTrace(files, first, o.pipeline, d.format.format, o.swapchain.imageExtent) +
    CommandEvents(d.queueFamilyIndex, o.command)
  }

  /** The faults reached after the resources exist, when the shaders are usable. */
  predicate ObjectFault(fault: Option<Fault>, imageCount: nat, moduleCount: nat) {
    TargetFault(fault, imageCount) || PipelineFault(fault, moduleCount) || CommandFault(fault)
  }

  /**
   * `Context::new` from the swapchain on (src/engine/renderer/context.rs:55-100):
   * swapchain, depth buffer, pipeline, command pool.  When it fails, the
   * resources own nothing or only the depth image.
   */
  method CreateDeviceObjects(driver: Driver, resources: Resources.Resources, surface: Handle, d: DeviceHandle,
                             window: Extent2D, imageCount: u32, walk: seq<Shader.WalkEntry>, fault: Option<Fault>)
    returns (r: Outcome<DeviceObjects>, ghost first: Handle)
    requires resources.Valid(driver) && resources.images == []
    modifies resources, driver`log, driver`memory, driver`next
    ensures resources.Valid(driver)
    ensures r.Ok? <==> Shader.ShaderFiles(walk) != [] && Shader.Stages(Shader.ShaderFiles(walk)).Some? &&
                       !ObjectFault(fault, imageCount, |Shader.ShaderFiles(walk)|)
    ensures r.Err? ==> fault.Some?
    ensures !r.Ok? ==> Unwindable(old(driver.memory), driver.memory, resources.images)
    ensures r.Ok? ==>
              var o := r.value;
              && OwnsDepthImage(resources, o.depth)
              && Unwindable(old(driver.memory), driver.memory, resources.images)
              && o.swapchain.imageExtent == Swapchain.ChooseExtent(d.capabilities, window)
              && |o.swapchain.images| == |o.swapchain.imageViews| == |o.command.commandBuffers| == imageCount
              && WellFormed(o, Shader.ShaderFiles(walk))
              && driver.log == old(driver.log) + ObjectEvents(surface, d, o, Shader.ShaderFiles(walk), first)
  {
    first := 0;
    var targets := CreateTargets(driver, resources, surface, d, window, imageCount, fault);
    if !targets.Ok? {
      r := if targets.Err? then Err else Panic;
      return r, first;
    }
    var (sc, db) := targets.value;
    ghost var t := TargetEvents(surface, d, sc, db);

    var pipeline;
    pipeline, first := CreatePipeline(driver, d, sc.imageExtent, walk, fault);
    if !pipeline.Ok? {
      r := if pipeline.Err? then Err else Panic;
      return r, first;
    }
    ghost var p := PipelineTrace(Shader.ShaderFiles(walk), first, pipeline.value, d.format.format, sc.imageExtent);
    AppendAssoc(old(driver.log), t, p);
    t := t + p;

    var command := NewCommand(driver, d.queueFamilyIndex, |sc.images|, fault);
    if command.Err? {
      return Err, first;
    }
    AppendAssoc(old(driver.log), t, CommandEvents(d.queueFamilyIndex, command.value));
    r := Ok(DeviceObjects(sc, db, pipeline.value, command.value));
  }

  /**
   * `Context::new` from `Resources::new` on (src/engine/renderer/context.rs:48-100).
   * The resources come first, so that every later failure drops them:
   * their `Drop` releases what they own (nothing, or the depth image) and
   * then the allocator, and the allocator memory is as it was before.
   */
  method CreateOwned(driver: Driver, surface: Handle, d: DeviceHandle, window: Extent2D, imageCount: u32,
                     walk: seq<Shader.WalkEntry>, fault: Option<Fault>)
    returns (r: Outcome<(Resources.Resources, DeviceObjects)>, ghost first: Handle)
    requires driver.Valid()
    modifies driver`log, driver`memory, driver`next
    ensures driver.Valid()
    ensures r.Ok? <==> Shader.ShaderFiles(walk) != [] && Shader.Stages(Shader.ShaderFiles(walk)).Some? &&
                       fault != Some(AllocatorFails) && !ObjectFault(fault, imageCount, |Shader.ShaderFiles(walk)|)
    ensures r.Err? ==> fault.Some?
    ensures !r.Ok? ==> driver.memory == old(driver.memory)
    ensures r.Ok? ==>
              var resources := r.value.0;
              var o := r.value.1;
              && fresh(resources) && fresh(resources.buffers)
              && resources.Valid(driver)
              && resources.buffers.vertexBuffers == [] && resources.buffers.indexBuffers == []
              && OwnsDepthImage(resources, o.depth)
              && Unwindable(old(driver.memory), driver.memory, resources.images)
              && o.swapchain.imageExtent == Swapchain.ChooseExtent(d.capabilities, window)
              && |o.swapchain.images| == |o.swapchain.imageViews| == |o.command.commandBuffers| == imageCount
              && WellFormed(o, Shader.ShaderFiles(walk))
              && driver.log == old(driver.log) + ([Event.CreateAllocator(resources.allocator)] +
                                                  ObjectEvents(surface, d, o, Shader.ShaderFiles(walk), first))
  {
    first := 0;
    var res := Resources.New(driver, fault);
    if res.Err? {
      return Err, first;
    }
    var resources := res.value;
    var objects;
    objects, first := CreateDeviceObjects(driver, resources, surface, d, window, imageCount, walk, fault);
    if !objects.Ok? {
      ghost var m := driver.memory;
      resources.Drop(driver);
      UnwoundMemory(old(driver.memory), m, resources.images);
      r := if objects.Err? then Err else Panic;
      return r, first;
    }
    AppendAssoc(old(driver.log), [Event.CreateAllocator(resources.allocator)],
                ObjectEvents(surface, d, objects.value, Shader.ShaderFiles(walk), first));
    r := Ok((resources, objects.value));
  }

  /** The handles `Context` keeps; `debugMessenger` exists exactly with the `validation` feature. */
  datatype Context = Context(
    instance: Handle,
    debugMessenger: Option<Handle>,
    surface: Handle,
    device: DeviceHandle,
    objects: DeviceObjects)

  /** The faults `Context::new` reaches when the device and the shaders are usable. */
  predicate ConstructionFault(fault: Option<Fault>, validation: bool, imageCount: nat, moduleCount: nat) {
    BaseFault(fault, validation) || fault == Some(AllocatorFails) || ObjectFault(fault, imageCount, moduleCount)
  }

  /** The driver calls of a successful `Context::new`, in the order the source makes them. */
  function ConstructionTrace(c: Context, allocator: Handle, candidate: Candidate, validation: bool,
                             files: seq<string>, first: Handle): seq<Event>
    requires WellFormed(c.objects, files)
  {
    BaseEvents(c.instance, c.debugMessenger, c.surface, c.device, candidate, validation) +
    ([Event.CreateAllocator(allocator)] + ObjectEvents(c.surface, c.device, c.objects, files, first))
  }

  /**
   * `Context::new`.  The physical devices, the window size, the number of
   * images the driver gives the swapchain and the shader directory walk are
   * inputs.  A failure before `Resources::new` leaves nothing to drop; every
   * failure after it gives the allocator memory back.
   */
  method New(driver: Driver, validation: bool, devices: seq<PhysicalDevice>, window: Extent2D, imageCount: u32,
             walk: seq<Shader.WalkEntry>, fault: Option<Fault>)
    returns (r: Outcome<(Context, Resources.Resources)>, ghost first: Handle)
    requires driver.Valid()
    modifies driver`log, driver`memory, driver`next
    ensures driver.Valid()
    ensures r.Ok? <==> DeviceReady(devices, fault) && Shader.ShaderFiles(walk) != [] &&
                       Shader.Stages(Shader.ShaderFiles(walk)).Some? &&
                       !ConstructionFault(fault, validation, imageCount, |Shader.ShaderFiles(walk)|)
    ensures r.Err? ==> fault.Some?
    ensures !r.Ok? ==> driver.memory == old(driver.memory)
    ensures r.Ok? ==>
              var c := r.value.0;
              var resources := r.value.1;
              var o := c.objects;
              var candidate := SelectDevice(devices).candidate;
              && fresh(resources) && fresh(resources.buffers)
              && resources.Valid(driver)
              && resources.buffers.vertexBuffers == [] && resources.buffers.indexBuffers == []
              && OwnsDepthImage(resources, o.depth)
              && Unwindable(old(driver.memory), driver.memory, resources.images)
              && (c.debugMessenger.Some? <==> validation)
              && c.device.queueFamilyIndex == candidate.queueFamilyIndex && c.device.format == candidate.format
              && o.swapchain.imageExtent == Swapchain.ChooseExtent(candidate.capabilities, window)
              && |o.swapchain.images| == |o.swapchain.imageViews| == |o.command.commandBuffers| == imageCount
              && WellFormed(o, Shader.ShaderFiles(walk))
              && driver.log == old(driver.log) +
                               ConstructionTrace(c, resources.allocator, candidate, validation, Shader.ShaderFiles(walk), first)
  {
    first := 0;
    var base := CreateBase(driver, validation, devices, fault);
    if !base.Ok? {
      r := if base.Err? then Err else Panic;
      return r, first;
    }
    var (instance, debugMessenger, surface, d) := base.value;
    var owned;
    owned, first := CreateOwned(driver, surface, d, window, imageCount, walk, fault);
    if !owned.Ok? {
      r := if owned.Err? then Err else Panic;
      return r, first;
    }
    var (resources, objects) := owned.value;
    var c := Context(instance, debugMessenger, surface, d, objects);
    AppendAssoc(old(driver.log), BaseEvents(instance, debugMessenger, surface, d, SelectDevice(devices).candidate, validation),
                [Event.CreateAllocator(resources.allocator)] + ObjectEvents(surface, d, objects, Shader.ShaderFiles(walk), first));
    r := Ok((c, resources));
  }

  // ---------------------------------------------------------------------------
  // Per-frame helpers

  /** `create_fence` with the given create-info flag. */
  method CreateFence(driver: Driver, signaled: bool, fault: Option<Fault>) returns (r: Outcome<Handle>)
    requires driver.Valid()
    modifies driver`log, driver`fences, driver`next
    ensures driver.Valid()
    ensures !r.Panic?
    ensures r.Err? <==> fault == Some(FenceFails)
    ensures r.Err? ==> driver.log == old(driver.log) && driver.fences == old(driver.fences) && driver.next == old(driver.next)
    ensures r.Ok? ==>
              && r.value == old(driver.next) && driver.next == old(driver.next) + 1
              && driver.fences == old(driver.fences)[r.value := if signaled then Signaled else Unsignaled]
              && driver.log == old(driver.log) + [Event.CreateFence(r.value, signaled)]
  {
    if fault == Some(FenceFails) {
      return Err;
    }
    var fence := driver.CreateFence(signaled);
    r := Ok(fence);
  }

  /** `create_semaphore`; `index` tells the renderer's first call (0) from its second (1). */
  method CreateSemaphore(driver: Driver, index: nat, fault: Option<Fault>) returns (r: Outcome<Handle>)
    requires driver.Valid()
    modifies driver`log, driver`next
    ensures driver.Valid()
    ensures !r.Panic?
    ensures r.Err? <==> fault == Some(SemaphoreFails(index))
    ensures r.Err? ==> driver.log == old(driver.log) && driver.next == old(driver.next)
    ensures r.Ok? ==> r.value == old(driver.next) && driver.next == old(driver.next) + 1 &&
                      driver.log == old(driver.log) + [Event.CreateSemaphore(r.value)]
  {
    if fault == Some(SemaphoreFails(index)) {
      return Err;
    }
    var semaphore := driver.Fresh();
    driver.Record(Event.CreateSemaphore(semaphore));
    r := Ok(semaphore);
  }

  /** How a call with an unbounded wait ends: it returns an outcome, or it blocks for ever. */
  datatype Progress<T> = Returns(outcome: Outcome<T>) | Hangs

  /** Some fence of `fs` is unsignalled and nothing is pending on it. */
  ghost predicate SomeUnsignaled(fs: seq<Handle>, fences: map<Handle, FenceState>)
    requires forall f :: f in fs ==> f in fences
  {
    exists f :: f in fs && fences[f] == Unsignaled
  }

  /**
   * `reset_fences`: wait for all the fences with a u64::MAX timeout, then
   * reset them.  A failed wait returns at once, so the fences are reset only
   * after a wait that succeeded.
   */
  method ResetFences(driver: Driver, fences: seq<Handle>, fault: Option<Fault>) returns (p: Progress<()>)
    requires driver.Valid() && forall f :: f in fences ==> f in driver.fences
    modifies driver`log, driver`fences
    ensures driver.Valid()
    ensures driver.fences.Keys == old(driver.fences).Keys
    ensures p == Hangs <==> fault != Some(WaitFails) && SomeUnsignaled(fences, old(driver.fences))
    ensures p == Returns(Err) <==>
              fault == Some(WaitFails) || (fault == Some(ResetFencesFails) && !SomeUnsignaled(fences, old(driver.fences)))
    ensures !p.Returns? || p.outcome != Panic
    ensures p == Hangs || fault == Some(WaitFails) ==> driver.log == old(driver.log) && driver.fences == old(driver.fences)
    ensures p.Returns? && fault == Some(ResetFencesFails) ==>
              && driver.log == old(driver.log) + [Event.WaitForFences(fences, true, U64_MAX)]
              && forall f :: f in driver.fences ==> driver.fences[f] == if f in fences then Signaled else old(driver.fences)[f]
    ensures p.Returns? && p.outcome.Ok? ==>
              && driver.log == old(driver.log) + [Event.WaitForFences(fences, true, U64_MAX), Event.ResetFences(fences)]
              && forall f :: f in driver.fences ==> driver.fences[f] == if f in fences then Unsignaled else old(driver.fences)[f]
  {
    if fault == Some(WaitFails) {
      return Returns(Err);
    }
    var waited := driver.WaitForFences(fences);
    if waited == NeverReturns {
      return Hangs;
    }
    if fault == Some(ResetFencesFails) {
      return Returns(Err);
    }
    driver.ResetFences(fences);
    p := Returns(Ok(()));
  }

  /** `reset_commmand_buffers`: reset the one command pool, with no flags. */
  method ResetCommandBuffers(driver: Driver, c: Context, fault: Option<Fault>) returns (r: Outcome<()>)
    requires driver.Valid()
    modifies driver`log
    ensures driver.Valid()
    ensures !r.Panic?
    ensures r.Err? <==> fault == Some(ResetPoolFails)
    ensures r.Err? ==> driver.log == old(driver.log)
    ensures r.Ok? ==> driver.log == old(driver.log) + [Event.ResetCommandPool(c.objects.command.commandPool)]
  {
    if fault == Some(ResetPoolFails) {
      return Err;
    }
    driver.Record(Event.ResetCommandPool(c.objects.command.commandPool));
    r := Ok(());
  }

  /** The acquire call of `get_image`. */
  function AcquireEvent(c: Context, semaphore: Handle, fence: Option<Handle>, acquired: u32): Event {
    Event.AcquireNextImage(c.objects.swapchain.swapchain, U64_MAX, semaphore, fence, acquired)
  }

  /**
   * `get_image`: acquire the next image with a u64::MAX timeout, signalling
   * `semaphore` (and `fence` when there is one), and return the index with
   * the image and the view at that index.  The driver chooses the index
   * (`acquired`); one past either list is an index panic.
   */
  method GetImage(driver: Driver, c: Context, semaphore: Handle, fence: Option<Handle>, acquired: u32, fault: Option<Fault>)
    returns (r: Outcome<(nat, Handle, Handle)>)
    requires driver.Valid()
    modifies driver`log
    ensures driver.Valid()
    ensures r.Err? <==> fault == Some(AcquireFails)
    ensures r.Err? ==> driver.log == old(driver.log)
    ensures r.Panic? <==>
              fault != Some(AcquireFails) &&
              (acquired >= |c.objects.swapchain.images| || acquired >= |c.objects.swapchain.imageViews|)
    ensures !r.Err? ==> driver.log == old(driver.log) + [AcquireEvent(c, semaphore, fence, acquired)]
    ensures r.Ok? ==> r.value == (acquired, c.objects.swapchain.images[acquired], c.objects.swapchain.imageViews[acquired])
  {
    if fault == Some(AcquireFails) {
      return Err;
    }
    driver.Record(AcquireEvent(c, semaphore, fence, acquired));
    var i: nat := acquired;
    if i >= |c.objects.swapchain.images| || i >= |c.objects.swapchain.imageViews| {
      return Panic;
    }
    r := Ok((i, c.objects.swapchain.images[i], c.objects.swapchain.imageViews[i]));
  }

  /** `set_pipeline_barrier`: one `cmd_pipeline_barrier2` with the given image barriers. */
  method SetPipelineBarrier(driver: Driver, commandBuffer: Handle, barriers: seq<ImageBarrier>)
    requires driver.Valid()
    modifies driver`log
    ensures driver.Valid()
    ensures driver.log == old(driver.log) + [Event.PipelineBarrier(commandBuffer, barriers)]
  {
    driver.Record(Event.PipelineBarrier(commandBuffer, barriers));
  }
}
