/**
 * The order of the driver calls of a successful `Context::new`
 * (src/engine/renderer/context.rs:34-116), read off `ConstructionTrace`
 * position by position.  `k` is 1 when there is a debug messenger, 0
 * otherwise; `n` is the swapchain image count and `m` the shader count.
 */
module ContextTrace {
  import opened Vk
  import opened Gpu
  import opened DeviceSelection
  import Swapchain
  import Depth
  import Shader
  import Pipeline
  import opened Context

  // ---------------------------------------------------------------------------
  // The pipeline step

  /** The pipeline step is the module creations, the two pipeline calls and the module destroys. */
  lemma PipelineTraceParts(files: seq<string>, first: Handle, p: Pipeline.PipelineHandle, format: Format, extent: Extent2D)
    requires Shader.Stages(files).Some?
    ensures var modules := Shader.StagedModules(Shader.Stages(files).value, first);
            && PipelineTrace(files, first, p, format, extent) ==
               (Shader.ModuleEvents(files, first) + Pipeline.PipelineEvents(p, modules, format, extent)) + DestroyModuleEvents(modules)
            && |Shader.ModuleEvents(files, first)| == |files| == |DestroyModuleEvents(modules)|
  {
  }

  /** Position `j < m` of the pipeline step: the creation of module `j`. */
  lemma CreatedAt(files: seq<string>, first: Handle, p: Pipeline.PipelineHandle, format: Format, extent: Extent2D, j: nat)
    requires Shader.Stages(files).Some? && j < |files|
    ensures |PipelineTrace(files, first, p, format, extent)| == 2 * |files| + 2
    ensures PipelineTrace(files, first, p, format, extent)[j] == Event.CreateShaderModule(first + j, files[j])
  {
    var modules := Shader.StagedModules(Shader.Stages(files).value, first);
    var me := Shader.ModuleEvents(files, first);
    var pe := Pipeline.PipelineEvents(p, modules, format, extent);
    PipelineTraceParts(files, first, p, format, extent);
    ConcatAt(me + pe, DestroyModuleEvents(modules), j);
    ConcatAt(me, pe, j);
    Shader.ModuleEventsAt(files, first, j);
  }

  /** Positions `m` and `m + 1` of the pipeline step: the layout and the pipeline. */
  lemma PipelineAt(files: seq<string>, first: Handle, p: Pipeline.PipelineHandle, format: Format, extent: Extent2D)
    requires Shader.Stages(files).Some?
    ensures var modules := Shader.StagedModules(Shader.Stages(files).value, first);
            var t := PipelineTrace(files, first, p, format, extent);
            var m := |files|;
            && |t| == 2 * m + 2
            && t[m] == Event.CreatePipelineLayout(p.layout)
            && t[m + 1] == Pipeline.PipelineEvents(p, modules, format, extent)[1]
            && t[m + 1].CreateGraphicsPipeline?
  {
    var modules := Shader.StagedModules(Shader.Stages(files).value, first);
    var me := Shader.ModuleEvents(files, first);
    var pe := Pipeline.PipelineEvents(p, modules, format, extent);
    var m := |files|;
    PipelineTraceParts(files, first, p, format, extent);
    ConcatAt(me + pe, DestroyModuleEvents(modules), m);
    ConcatAt(me + pe, DestroyModuleEvents(modules), m + 1);
    ConcatAt(me, pe, m);
    ConcatAt(me, pe, m + 1);
  }

  /** Behind any prefix, the destroy calls name the staged modules in order. */
  lemma DestroyAfterAt(before: seq<Event>, stages: seq<ShaderStage>, first: Handle, j: nat)
    requires |before| <= j < |before| + |stages|
    ensures |before + DestroyModuleEvents(Shader.StagedModules(stages, first))| == |before| + |stages|
    ensures (before + DestroyModuleEvents(Shader.StagedModules(stages, first)))[j] == Event.DestroyShaderModule(first + (j - |before|))
  {
    var modules := Shader.StagedModules(stages, first);
    ConcatAt(before, DestroyModuleEvents(modules), j);
    DestroyModuleEventsAt(modules, j - |before|);
    Shader.StagedModulesAt(stages, first, j - |before|);
  }

  /** Position `j >= m + 2` of the pipeline step: the destroy of module `j - m - 2`. */
  lemma DestroyedAt(files: seq<string>, first: Handle, p: Pipeline.PipelineHandle, format: Format, extent: Extent2D, j: nat)
    requires Shader.Stages(files).Some? && |files| + 2 <= j < 2 * |files| + 2
    ensures |PipelineTrace(files, first, p, format, extent)| == 2 * |files| + 2
    ensures PipelineTrace(files, first, p, format, extent)[j] == Event.DestroyShaderModule(first + (j - |files| - 2))
  {
    var stages := Shader.Stages(files).value;
    var modules := Shader.StagedModules(stages, first);
    PipelineTraceParts(files, first, p, format, extent);
    DestroyAfterAt(Shader.ModuleEvents(files, first) + Pipeline.PipelineEvents(p, modules, format, extent), stages, first, j);
  }

  /** Module i is created at position i, from file i. */
  lemma ModulesCreatedFirst(files: seq<string>, first: Handle, p: Pipeline.PipelineHandle, format: Format, extent: Extent2D)
    requires Shader.Stages(files).Some?
    ensures var t := PipelineTrace(files, first, p, format, extent);
            && |t| == 2 * |files| + 2
            && forall j :: 0 <= j < |files| ==> t[j] == Event.CreateShaderModule(first + j, files[j])
  {
    PipelineTraceParts(files, first, p, format, extent);
    forall j | 0 <= j < |files|
      ensures PipelineTrace(files, first, p, format, extent)[j] == Event.CreateShaderModule(first + j, files[j])
    {
      CreatedAt(files, first, p, format, extent, j);
    }
  }

  /**
   * After the modules, the layout and then the pipeline, whose stage i is
   * module i with the stage of file i and entry point "main".
   */
  lemma PipelineBuiltFromModules(files: seq<string>, first: Handle, p: Pipeline.PipelineHandle, format: Format, extent: Extent2D)
    requires Shader.Stages(files).Some?
    ensures var t := PipelineTrace(files, first, p, format, extent);
            var m := |files|;
            && |t| == 2 * m + 2
            && t[m] == Event.CreatePipelineLayout(p.layout)
            && t[m + 1].CreateGraphicsPipeline? && t[m + 1].pipeline == p.pipeline
            && t[m + 1].pipelineInfo.layout == p.layout
            && |t[m + 1].pipelineInfo.stages| == m
            && forall i :: 0 <= i < m ==>
                 t[m + 1].pipelineInfo.stages[i] == ShaderStageInfo(first + i, Shader.Stages(files).value[i], Shader.ENTRY_NAME)
  {
    var stages := Shader.Stages(files).value;
    var modules := Shader.StagedModules(stages, first);
    var m := |files|;
    PipelineAt(files, first, p, format, extent);
    var info := Pipeline.PipelineEvents(p, modules, format, extent)[1].pipelineInfo;
    forall i | 0 <= i < m
      ensures info.stages[i] == ShaderStageInfo(first + i, stages[i], Shader.ENTRY_NAME)
    {
      Shader.StagedModulesAt(stages, first, i);
    }
  }

  /** Module i is destroyed at position m + 2 + i, after the pipeline exists. */
  lemma ModulesDestroyedAfter(files: seq<string>, first: Handle, p: Pipeline.PipelineHandle, format: Format, extent: Extent2D)
    requires Shader.Stages(files).Some?
    ensures var t := PipelineTrace(files, first, p, format, extent);
            var m := |files|;
            && |t| == 2 * m + 2
            && forall j :: m + 2 <= j < 2 * m + 2 ==> t[j] == Event.DestroyShaderModule(first + (j - m - 2))
  {
    PipelineTraceParts(files, first, p, format, extent);
    forall j | |files| + 2 <= j < 2 * |files| + 2
      ensures PipelineTrace(files, first, p, format, extent)[j] == Event.DestroyShaderModule(first + (j - |files| - 2))
    {
      DestroyedAt(files, first, p, format, extent, j);
    }
  }

  /** Each module is destroyed once: a destroy call of the step is that of one module, at that module's place. */
  lemma DestroyedOnce(files: seq<string>, first: Handle, p: Pipeline.PipelineHandle, format: Format, extent: Extent2D,
                      j: nat, h: Handle)
    requires Shader.Stages(files).Some?
    requires j < |PipelineTrace(files, first, p, format, extent)|
    requires PipelineTrace(files, first, p, format, extent)[j] == Event.DestroyShaderModule(h)
    ensures first <= h < first + |files| && j == |files| + 2 + (h - first)
  {
    var m := |files|;
    if j < m {
      CreatedAt(files, first, p, format, extent, j);
    } else if j < m + 2 {
      PipelineAt(files, first, p, format, extent);
    } else {
      DestroyedAt(files, first, p, format, extent, j);
    }
  }

  // ---------------------------------------------------------------------------
  // The whole construction

  /** The swapchain, its images, one view per image, then the depth image and its view. */
  lemma TargetEventsShape(surface: Handle, d: DeviceHandle, sc: Swapchain.SwapchainHandle, db: Depth.DepthBuffer)
    requires |sc.images| == |sc.imageViews|
    ensures var t := TargetEvents(surface, d, sc, db);
            var n := |sc.images|;
            && |t| == n + 4
            && t[0] == Event.CreateSwapchain(sc.swapchain,
                         Swapchain.SwapchainInfo(surface, d, Swapchain.MinImageCount(d.capabilities), sc.imageExtent))
            && t[1] == Event.GetSwapchainImages(sc.swapchain, sc.images)
            && (forall j :: 2 <= j < n + 2 ==>
                  t[j] == Event.CreateImageView(sc.imageViews[j - 2], Swapchain.ViewInfo(sc.images[j - 2], d.format.format, {ColorAspect})))
            && t[n + 2] == Event.CreateImage(db.image, db.image + 1, Depth.DepthImageInfo(DepthExtent(sc.imageExtent)), Depth.DEPTH_ALLOCATION)
            && t[n + 3] == Event.CreateImageView(db.imageView, Depth.DepthViewInfo(db.image))
  {
    var t := TargetEvents(surface, d, sc, db);
    var n := |sc.images|;
    var ve := Swapchain.ViewEvents(sc.images, sc.imageViews, d.format.format, {ColorAspect});
    forall j | 2 <= j < n + 2
      ensures t[j] == Event.CreateImageView(sc.imageViews[j - 2], Swapchain.ViewInfo(sc.images[j - 2], d.format.format, {ColorAspect}))
    {
      Swapchain.ViewEventsAt(sc.images, sc.imageViews, d.format.format, {ColorAspect}, j - 2);
      assert t[j] == ve[j - 2];
    }
  }

  /** The instance, the debug messenger when there is one, then the surface. */
  lemma InstanceEventsShape(instance: Handle, debugMessenger: Option<Handle>, surface: Handle)
    ensures var t := InstanceEvents(instance, debugMessenger, surface);
            var k := if debugMessenger.Some? then 1 else 0;
            && |t| == 2 + k
            && t[0] == Event.CreateInstance(instance)
            && (debugMessenger.Some? ==> t[1] == Event.CreateDebugMessenger(debugMessenger.value))
            && t[1 + k] == Event.CreateSurface(surface)
  {
    var t := InstanceEvents(instance, debugMessenger, surface);
    if debugMessenger.Some? {
      assert t == [Event.CreateInstance(instance), Event.CreateDebugMessenger(debugMessenger.value), Event.CreateSurface(surface)];
    } else {
      assert t == [Event.CreateInstance(instance), Event.CreateSurface(surface)];
    }
  }

  /** Instance, debug messenger (when there is one), surface, then the device of candidate `c` and its queue. */
  lemma BaseEventsShape(instance: Handle, debugMessenger: Option<Handle>, surface: Handle, d: DeviceHandle,
                        c: Candidate, validation: bool)
    ensures var t := BaseEvents(instance, debugMessenger, surface, d, c, validation);
            var k := if debugMessenger.Some? then 1 else 0;
            && |t| == 4 + k
            && t[0] == Event.CreateInstance(instance)
            && (debugMessenger.Some? ==> t[1] == Event.CreateDebugMessenger(debugMessenger.value))
            && t[1 + k] == Event.CreateSurface(surface)
            && t[2 + k] == Event.CreateDevice(d.device, d.physicalDevice, DeviceInfo(c, validation))
            && t[3 + k] == Event.GetDeviceQueue(d.queueFamilyIndex, 0, d.queue)
  {
    InstanceEventsShape(instance, debugMessenger, surface);
  }

  /**
   * The construction trace is the steps in source order: instance to queue
   * (4 + k calls), the allocator, swapchain and depth buffer (n + 4), the
   * pipeline step (2m + 2), the command pool and its buffers (2).
   */
  lemma ConstructionSteps(c: Context, allocator: Handle, candidate: Candidate, validation: bool,
                          files: seq<string>, first: Handle)
    requires WellFormed(c.objects, files)
    ensures var o := c.objects;
            var be := BaseEvents(c.instance, c.debugMessenger, c.surface, c.device, candidate, validation);
            var te := TargetEvents(c.surface, c.device, o.swapchain, o.depth);
            var pe := PipelineTrace(files, first, o.pipeline, c.device.format.format, o.swapchain.imageExtent);
            var ce := CommandEvents(c.device.queueFamilyIndex, o.command);
            && ConstructionTrace(c, allocator, candidate, validation, files, first) ==
               be + [Event.CreateAllocator(allocator)] + te + pe + ce
            && |be| == 4 + (if c.debugMessenger.Some? then 1 else 0)
            && |te| == |o.swapchain.images| + 4
            && |pe| == 2 * |files| + 2
            && ce == [Event.CreateCommandPool(o.command.commandPool, c.device.queueFamilyIndex),
                      Event.AllocateCommandBuffers(o.command.commandPool, o.command.commandBuffers)]
  {
    var o := c.objects;
    var be := BaseEvents(c.instance, c.debugMessenger, c.surface, c.device, candidate, validation);
    var te := TargetEvents(c.surface, c.device, o.swapchain, o.depth);
    var pe := PipelineTrace(files, first, o.pipeline, c.device.format.format, o.swapchain.imageExtent);
    var ce := CommandEvents(c.device.queueFamilyIndex, o.command);
    var a := [Event.CreateAllocator(allocator)];
    AppendAssoc(be, a, te + pe + ce);
    AppendAssoc(be + a, te + pe, ce);
    AppendAssoc(be + a, te, pe);
  }
}
