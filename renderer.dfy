/**
 * The renderer (src/engine/renderer.rs): the context and resources, a
 * render fence and two semaphores; `draw` records and submits one frame,
 * `upload_asset` loads a mesh into the allocator, and `Drop` tears
 * everything down.
 */
module Renderer {
  import opened Vk
  import opened Gpu
  import opened DeviceSelection
  import Swapchain
  import Shader
  import Mesh
  import Bytes
  import Buffer
  import Resources
  import Context

  /** The renderer's fields; none of them is reassigned after `new`. */
  datatype Renderer = Renderer(
    context: Context.Context,
    resources: Resources.Resources,
    renderFence: Handle,
    renderSemaphore: Handle,
    presentSemaphore: Handle)

  /** The resources own their allocations soundly and the render fence exists. */
  ghost predicate Valid(rd: Renderer, driver: Driver)
    reads rd.resources, rd.resources.buffers, driver`memory, driver`mapped, driver`fences, driver`next
  {
    rd.resources.Valid(driver) && rd.renderFence in driver.fences
  }

  // ---------------------------------------------------------------------------
  // Renderer::new

  /** The calls of `new` after the context: a signalled fence, the render semaphore, the present semaphore. */
  function SyncEvents(fence: Handle, renderSemaphore: Handle, presentSemaphore: Handle): seq<Event> {
    [Event.CreateFence(fence, true), Event.CreateSemaphore(renderSemaphore), Event.CreateSemaphore(presentSemaphore)]
  }

  /** The faults of the three calls after the context (semaphore 0 is the render one, 1 the present one). */
  predicate SyncFault(fault: Option<Fault>) {
    fault == Some(FenceFails) || fault == Some(SemaphoreFails(0)) || fault == Some(SemaphoreFails(1))
  }

  /**
   * The fence (created signalled, so that the first frame does not wait for
   * ever) and the two semaphores, each failure returned with `?`; the
   * semaphores are the two handles after the fence's.
   */
  method CreateSync(driver: Driver, resources: Resources.Resources, fault: Option<Fault>)
    returns (r: Outcome<Handle>)
    requires resources.Valid(driver)
    modifies driver`log, driver`fences, driver`next
    ensures resources.Valid(driver)
    ensures !r.Panic?
    ensures r.Err? <==> SyncFault(fault)
    ensures r.Ok? ==>
              var f := old(driver.next);
              && r.value == f
              && driver.fences == old(driver.fences)[f := Signaled]
              && driver.log == old(driver.log) + SyncEvents(f, f + 1, f + 2)
  {
    var fence := Context.CreateFence(driver, true, fault);
    if fence.Err? {
      return Err;
    }
    var render := Context.CreateSemaphore(driver, 0, fault);
    if render.Err? {
      return Err;
    }
    var present := Context.CreateSemaphore(driver, 1, fault);
    if present.Err? {
      return Err;
    }
    r := Ok(fence.value);
  }

  /** Dropping the resources of a failed `new`: everything the context took from the allocator goes back. */
  method DropUnwound(driver: Driver, resources: Resources.Resources, ghost m0: map<Handle, seq<byte>>)
    requires resources.Valid(driver)
    requires resources.buffers.vertexBuffers == [] && resources.buffers.indexBuffers == []
    requires Context.Unwindable(m0, driver.memory, resources.images)
    modifies driver`log, driver`memory
    ensures driver.Valid() && driver.memory == m0
  {
    ghost var m := driver.memory;
    resources.Drop(driver);
    Context.UnwoundMemory(m0, m, resources.images);
  }

  /**
   * `Renderer::new`: the context, then the synchronisation objects.  When one
   * of those fails, `?` returns and the resources the context made are
   * dropped, which gives their allocator memory back.
   */
  method New(driver: Driver, validation: bool, devices: seq<PhysicalDevice>, window: Extent2D, imageCount: u32,
             walk: seq<Shader.WalkEntry>, fault: Option<Fault>)
    returns (r: Outcome<Renderer>, ghost first: Handle)
    requires driver.Valid()
    modifies driver`log, driver`memory, driver`fences, driver`next
    ensures driver.Valid()
    ensures r.Ok? <==> DeviceReady(devices, fault) && Shader.ShaderFiles(walk) != [] &&
                       Shader.Stages(Shader.ShaderFiles(walk)).Some? &&
                       !Context.ConstructionFault(fault, validation, imageCount, |Shader.ShaderFiles(walk)|) && !SyncFault(fault)
    ensures r.Err? ==> fault.Some?
    ensures !r.Ok? ==> driver.memory == old(driver.memory)
    ensures r.Ok? ==>
              var rd := r.value;
              var o := rd.context.objects;
              && Valid(rd, driver)
              && driver.fences == old(driver.fences)[rd.renderFence := Signaled]
              && rd.renderSemaphore == rd.renderFence + 1 && rd.presentSemaphore == rd.renderFence + 2
              && Context.WellFormed(o, Shader.ShaderFiles(walk))
              && driver.log == old(driver.log) +
                               Context.ConstructionTrace(rd.context, rd.resources.allocator, SelectDevice(devices).candidate, validation, Shader.ShaderFiles(walk), first) +
                               SyncEvents(rd.renderFence, rd.renderSemaphore, rd.presentSemaphore)
  {
    var built;
    built, first := Context.New(driver, validation, devices, window, imageCount, walk, fault);
    if !built.Ok? {
      r := if built.Err? then Err else Panic;
      return r, first;
    }
    var c := built.value.0;
    var resources := built.value.1;
    ghost var files := Shader.ShaderFiles(walk);
    ghost var trace := Context.ConstructionTrace(c, resources.allocator, SelectDevice(devices).candidate, validation, files, first);
    assert driver.log == old(driver.log) + trace;
    var sync := CreateSync(driver, resources, fault);
    if sync.Err? {
      DropUnwound(driver, resources, old(driver.memory));
      return Err, first;
    }
    var rd := Renderer(c, resources, sync.value, sync.value + 1, sync.value + 2);
    assert Valid(rd, driver);
    assert driver.log == old(driver.log) + trace + SyncEvents(rd.renderFence, rd.renderSemaphore, rd.presentSemaphore);
    r := Ok(rd);
  }

  // ---------------------------------------------------------------------------
  // The commands of one frame

  /** `mesh.indices.len() as u32`: the length modulo 2^32. */
  function IndexCount(n: nat): (c: u32)
    ensures n <= U32_MAX ==> c == n
    ensures (n - c) % (U32_MAX + 1) == 0
  {
    n % (U32_MAX + 1)
  }

  /**
   * The three image barriers of the frame, all in the device's queue family:
   * the swapchain image from undefined to attachment layout for colour
   * writes, the same image from attachment layout to presentation, and the
   * depth image from undefined to depth-attachment layout for the fragment
   * tests.
   */
  function Barriers(c: Context.Context, image: Handle): seq<ImageBarrier> {
    var q := c.device.queueFamilyIndex;
    [ImageBarrier(image, UndefinedLayout, AttachmentOptimal, {}, {}, {ColorAttachmentOutput}, {ColorAttachmentWrite},
                  q, q, SubresourceRange({ColorAspect}, 1, 1)),
     ImageBarrier(image, AttachmentOptimal, PresentSrc, {ColorAttachmentOutput}, {ColorAttachmentWrite}, {ColorAttachmentOutput}, {},
                  q, q, SubresourceRange({ColorAspect}, 1, 1)),
     ImageBarrier(c.objects.depth.image, UndefinedLayout, DepthAttachmentOptimal,
                  {EarlyFragmentTests, LateFragmentTests}, {}, {EarlyFragmentTests, LateFragmentTests}, {DepthStencilAttachmentWrite},
                  q, q, SubresourceRange({DepthAspect}, 1, 1))]
  }

  /** Dynamic rendering into `view` and the depth view, both cleared and stored, over the whole extent. */
  function RenderingFor(c: Context.Context, view: Handle): RenderingInfo {
    RenderingInfo(
      [Attachment(view, AttachmentOptimal, true, true)],
      Attachment(c.objects.depth.imageView, DepthAttachmentOptimal, true, true),
      Rect2D(Offset2D(0, 0), c.objects.swapchain.imageExtent),
      1)
  }

  /** The barrier layouts agree with the attachments the frame renders into and with presentation. */
  lemma BarriersMatchRendering(c: Context.Context, image: Handle, view: Handle)
    ensures var bs := Barriers(c, image);
            var info := RenderingFor(c, view);
            && |bs| == 3 && |info.colorAttachments| == 1
            && bs[0].image == image && bs[1].image == image && bs[2].image == c.objects.depth.image
            && bs[0].newLayout == info.colorAttachments[0].layout == bs[1].oldLayout
            && bs[1].newLayout == PresentSrc
            && bs[2].newLayout == info.depthAttachment.layout && info.depthAttachment.view == c.objects.depth.imageView
            && forall i :: 0 <= i < 3 ==> bs[i].srcQueueFamily == bs[i].dstQueueFamily == c.device.queueFamilyIndex
  {
  }

  /** The image and command buffer one frame uses. */
  datatype Frame = Frame(index: nat, image: Handle, view: Handle, commandBuffer: Handle)

  /** A frame can be recorded for `acquired`: the index is in range of both lists and the pool has a buffer. */
  predicate Presentable(rd: Renderer, acquired: u32) {
    var sc := rd.context.objects.swapchain;
    acquired < |sc.images| && acquired < |sc.imageViews| && rd.context.objects.command.commandBuffers != []
  }

  function FrameFor(rd: Renderer, acquired: u32): Frame
    requires Presentable(rd, acquired)
  {
    var sc := rd.context.objects.swapchain;
    Frame(acquired, sc.images[acquired], sc.imageViews[acquired], rd.context.objects.command.commandBuffers[0])
  }

  /** Wait for and reset the render fence, reset the pool, acquire an image, begin the command buffer. */
  function StartEvents(rd: Renderer, f: Frame): seq<Event> {
    [Event.WaitForFences([rd.renderFence], true, U64_MAX),
     Event.ResetFences([rd.renderFence]),
     Event.ResetCommandPool(rd.context.objects.command.commandPool),
     Event.AcquireNextImage(rd.context.objects.swapchain.swapchain, U64_MAX, rd.presentSemaphore, None, f.index),
     Event.BeginCommandBuffer(f.commandBuffer, true)]
  }

  /** `k` rounds of the draw loop: every buffer pair bound, then one indexed draw. */
  function DrawLoopEvents(vbs: seq<Buffer.VertexBuffers>, ibs: seq<Buffer.IndexBuffer>, cb: Handle, indexCount: u32, k: nat): seq<Event> {
    if k == 0 then []
    else DrawLoopEvents(vbs, ibs, cb, indexCount, k - 1) + Resources.BindEvents(vbs, ibs, cb) +
         [Event.DrawIndexed(cb, indexCount, 1, 0, 0, 0)]
  }

  /** Barrier, begin rendering, bind the pipeline, the draw loop once per vertex-buffer entry, end rendering. */
  function RecordEvents(rd: Renderer, f: Frame, vbs: seq<Buffer.VertexBuffers>, ibs: seq<Buffer.IndexBuffer>, indexCount: u32): seq<Event> {
    [Event.PipelineBarrier(f.commandBuffer, Barriers(rd.context, f.image)),
     Event.BeginRendering(f.commandBuffer, RenderingFor(rd.context, f.view)),
     Event.BindPipeline(f.commandBuffer, rd.context.objects.pipeline.pipeline)] +
    DrawLoopEvents(vbs, ibs, f.commandBuffer, indexCount, |vbs|) +
    [Event.EndRendering(f.commandBuffer)]
  }

  /** The one submission: the command buffer, waiting on the present semaphore, signalling the render semaphore. */
  function SubmitFor(rd: Renderer, f: Frame): SubmitInfo {
    SubmitInfo([f.commandBuffer], [rd.presentSemaphore], [ColorAttachmentOutput], [rd.renderSemaphore])
  }

  function SubmitEvents(rd: Renderer, f: Frame): seq<Event> {
    [Event.EndCommandBuffer(f.commandBuffer),
     Event.QueueSubmit(rd.context.device.queue, [SubmitFor(rd, f)], rd.renderFence)]
  }

  function PresentEvent(rd: Renderer, f: Frame): Event {
    Event.QueuePresent(rd.context.device.queue,
                       PresentInfo([rd.renderSemaphore], [rd.context.objects.swapchain.swapchain], [f.index]))
  }

  /** Every driver call of a frame that succeeds, in order. */
  function FrameEvents(rd: Renderer, f: Frame, vbs: seq<Buffer.VertexBuffers>, ibs: seq<Buffer.IndexBuffer>, indexCount: u32): seq<Event> {
    StartEvents(rd, f) + RecordEvents(rd, f, vbs, ibs, indexCount) + SubmitEvents(rd, f) + [PresentEvent(rd, f)]
  }

  // ---------------------------------------------------------------------------
  // What a frame records

  /** The number of indexed draws in `es`. */
  function Draws(es: seq<Event>): (n: nat)
    ensures n <= |es|
  {
    if es == [] then 0
    else Draws(es[..|es| - 1]) + (if es[|es| - 1].DrawIndexed? then 1 else 0)
  }

  lemma {:induction false} DrawsAppend(a: seq<Event>, b: seq<Event>)
    ensures Draws(a + b) == Draws(a) + Draws(b)
  {
    if b == [] {
      assert a + b == a;
    } else {
      var n := |b| - 1;
      assert (a + b)[..|a + b| - 1] == a + b[..n];
      DrawsAppend(a, b[..n]);
    }
  }

  /** Every indexed draw in `es` is `DrawIndexed(cb, indexCount, 1, 0, 0, 0)`. */
  ghost predicate DrawsOf(es: seq<Event>, cb: Handle, indexCount: u32) {
    forall i :: 0 <= i < |es| && es[i].DrawIndexed? ==> es[i] == Event.DrawIndexed(cb, indexCount, 1, 0, 0, 0)
  }

  lemma DrawsOfAppend(a: seq<Event>, b: seq<Event>, cb: Handle, indexCount: u32)
    requires DrawsOf(a, cb, indexCount) && DrawsOf(b, cb, indexCount)
    ensures DrawsOf(a + b, cb, indexCount)
  {
    forall i | 0 <= i < |a + b| && (a + b)[i].DrawIndexed?
      ensures (a + b)[i] == Event.DrawIndexed(cb, indexCount, 1, 0, 0, 0)
    {
      if i >= |a| {
        assert (a + b)[i] == b[i - |a|];
      }
    }
  }

  /** The binds of one `bind_buffers_per_draw` contain no draw. */
  lemma {:induction false} BindEventsDrawNothing(vbs: seq<Buffer.VertexBuffers>, ibs: seq<Buffer.IndexBuffer>, cb: Handle, indexCount: u32)
    ensures Draws(Resources.BindEvents(vbs, ibs, cb)) == 0
    ensures DrawsOf(Resources.BindEvents(vbs, ibs, cb), cb, indexCount)
  {
    if vbs != [] && ibs != [] {
      var pair := [Event.BindVertexBuffers(cb, 0, vbs[0].buffers, vbs[0].offsets),
                   Event.BindIndexBuffer(cb, ibs[0].buffer, ibs[0].offset, ibs[0].indexType)];
      BindEventsDrawNothing(vbs[1..], ibs[1..], cb, indexCount);
      assert pair[..1] == [pair[0]] && [pair[0]][..0] == [];
      DrawsAppend(pair, Resources.BindEvents(vbs[1..], ibs[1..], cb));
      DrawsOfAppend(pair, Resources.BindEvents(vbs[1..], ibs[1..], cb), cb, indexCount);
    }
  }

  /** `k` rounds of the loop make exactly `k` draws, all of the same mesh's index count into `cb`. */
  lemma {:induction false} DrawLoopDraws(vbs: seq<Buffer.VertexBuffers>, ibs: seq<Buffer.IndexBuffer>, cb: Handle, indexCount: u32, k: nat)
    ensures Draws(DrawLoopEvents(vbs, ibs, cb, indexCount, k)) == k
    ensures DrawsOf(DrawLoopEvents(vbs, ibs, cb, indexCount, k), cb, indexCount)
  {
    if k > 0 {
      var prev := DrawLoopEvents(vbs, ibs, cb, indexCount, k - 1);
      var binds := Resources.BindEvents(vbs, ibs, cb);
      var draw := [Event.DrawIndexed(cb, indexCount, 1, 0, 0, 0)];
      DrawLoopDraws(vbs, ibs, cb, indexCount, k - 1);
      BindEventsDrawNothing(vbs, ibs, cb, indexCount);
      assert draw[..0] == [];
      DrawsAppend(prev, binds);
      DrawsAppend(prev + binds, draw);
      DrawsOfAppend(prev, binds, cb, indexCount);
      DrawsOfAppend(prev + binds, draw, cb, indexCount);
    }
  }

  /**
   * A frame draws once per entry of the vertex-buffer list, and every draw
   * goes into the frame's command buffer with the index count of the mesh
   * passed to `draw`, whichever buffers are bound.
   */
  lemma FrameDraws(rd: Renderer, f: Frame, vbs: seq<Buffer.VertexBuffers>, ibs: seq<Buffer.IndexBuffer>, indexCount: u32)
    ensures Draws(FrameEvents(rd, f, vbs, ibs, indexCount)) == |vbs|
    ensures DrawsOf(FrameEvents(rd, f, vbs, ibs, indexCount), f.commandBuffer, indexCount)
  {
    var cb := f.commandBuffer;
    var start := StartEvents(rd, f);
    var head := RecordEvents(rd, f, vbs, ibs, indexCount)[..3];
    var loop := DrawLoopEvents(vbs, ibs, cb, indexCount, |vbs|);
    var end := [Event.EndRendering(cb)];
    var tail := SubmitEvents(rd, f) + [PresentEvent(rd, f)];
    assert RecordEvents(rd, f, vbs, ibs, indexCount) == head + loop + end;
    DrawLoopDraws(vbs, ibs, cb, indexCount, |vbs|);
    NoDraws(start, cb, indexCount);
    NoDraws(head, cb, indexCount);
    NoDraws(end, cb, indexCount);
    NoDraws(tail, cb, indexCount);
    DrawsAppend(start, head);
    DrawsAppend(start + head, loop);
    DrawsAppend(start + head + loop, end);
    DrawsAppend(start + head + loop + end, tail);
    DrawsOfAppend(start, head, cb, indexCount);
    DrawsOfAppend(start + head, loop, cb, indexCount);
    DrawsOfAppend(start + head + loop, end, cb, indexCount);
    DrawsOfAppend(start + head + loop + end, tail, cb, indexCount);
    AppendAssoc(start, head + loop, end);
    AppendAssoc(start, head, loop);
    assert FrameEvents(rd, f, vbs, ibs, indexCount) == start + head + loop + end + tail;
  }

  /**
   * The number of meshes a frame draws is `allocated_buffers_len()` of the
   * renderer's resources: the draws `draw` logs over the resources' own lists.
   */
  lemma FrameDrawsAllocated(rd: Renderer, f: Frame, indexCount: u32)
    ensures Draws(FrameEvents(rd, f, rd.resources.buffers.vertexBuffers, rd.resources.buffers.indexBuffers, indexCount))
            == rd.resources.AllocatedBuffersLen()
  {
    FrameDraws(rd, f, rd.resources.buffers.vertexBuffers, rd.resources.buffers.indexBuffers, indexCount);
  }

  /** A sequence with no draw in it. */
  lemma {:induction false} NoDraws(es: seq<Event>, cb: Handle, indexCount: u32)
    requires forall i :: 0 <= i < |es| ==> !es[i].DrawIndexed?
    ensures Draws(es) == 0 && DrawsOf(es, cb, indexCount)
  {
    if es != [] {
      NoDraws(es[..|es| - 1], cb, indexCount);
    }
  }

  /** `t` opens with: wait for and reset the render fence, reset the pool, acquire an image, begin the command buffer. */
  ghost predicate Opens(t: seq<Event>, rd: Renderer, f: Frame) {
    && |t| >= 5
    && t[0] == Event.WaitForFences([rd.renderFence], true, U64_MAX) && t[1] == Event.ResetFences([rd.renderFence])
    && t[2] == Event.ResetCommandPool(rd.context.objects.command.commandPool)
    && t[3] == Event.AcquireNextImage(rd.context.objects.swapchain.swapchain, U64_MAX, rd.presentSemaphore, None, f.index)
    && t[4] == Event.BeginCommandBuffer(f.commandBuffer, true)
  }

  /** `t` closes with: end rendering, end the command buffer, submit, present. */
  ghost predicate Closes(t: seq<Event>, rd: Renderer, f: Frame) {
    var n := |t|;
    && n >= 4
    && t[n - 4] == Event.EndRendering(f.commandBuffer)
    && t[n - 3] == Event.EndCommandBuffer(f.commandBuffer)
    && t[n - 2] == Event.QueueSubmit(rd.context.device.queue, [SubmitFor(rd, f)], rd.renderFence)
    && t[n - 1] == PresentEvent(rd, f)
  }

  /** A frame starts by waiting for and resetting the render fence, resetting the pool, acquiring, and beginning. */
  lemma FrameStart(rd: Renderer, f: Frame, vbs: seq<Buffer.VertexBuffers>, ibs: seq<Buffer.IndexBuffer>, indexCount: u32)
    ensures |FrameEvents(rd, f, vbs, ibs, indexCount)| == 12 + |DrawLoopEvents(vbs, ibs, f.commandBuffer, indexCount, |vbs|)|
    ensures Opens(FrameEvents(rd, f, vbs, ibs, indexCount), rd, f)
  {
    var start := StartEvents(rd, f);
    var rest := RecordEvents(rd, f, vbs, ibs, indexCount) + SubmitEvents(rd, f) + [PresentEvent(rd, f)];
    AppendAssoc(start, RecordEvents(rd, f, vbs, ibs, indexCount), SubmitEvents(rd, f));
    AppendAssoc(start, RecordEvents(rd, f, vbs, ibs, indexCount) + SubmitEvents(rd, f), [PresentEvent(rd, f)]);
    assert FrameEvents(rd, f, vbs, ibs, indexCount) == start + rest;
  }

  /** Right after `begin_command_buffer`: the one barrier, then rendering begins, then the pipeline is bound. */
  lemma BarrierBeforeRendering(rd: Renderer, f: Frame, vbs: seq<Buffer.VertexBuffers>, ibs: seq<Buffer.IndexBuffer>, indexCount: u32)
    ensures var t := FrameEvents(rd, f, vbs, ibs, indexCount);
            && |t| >= 12
            && t[5] == Event.PipelineBarrier(f.commandBuffer, Barriers(rd.context, f.image))
            && t[6] == Event.BeginRendering(f.commandBuffer, RenderingFor(rd.context, f.view))
            && t[7] == Event.BindPipeline(f.commandBuffer, rd.context.objects.pipeline.pipeline)
  {
    var start := StartEvents(rd, f);
    var record := RecordEvents(rd, f, vbs, ibs, indexCount);
    var rest := record + SubmitEvents(rd, f) + [PresentEvent(rd, f)];
    AppendAssoc(start, record, SubmitEvents(rd, f));
    AppendAssoc(start, record + SubmitEvents(rd, f), [PresentEvent(rd, f)]);
    assert FrameEvents(rd, f, vbs, ibs, indexCount) == start + rest;
    assert rest[0] == record[0] && rest[1] == record[1] && rest[2] == record[2];
  }

  /** The closing calls of a frame: end rendering, end the command buffer, submit, present. */
  lemma FrameClosing(rd: Renderer, f: Frame, vbs: seq<Buffer.VertexBuffers>, ibs: seq<Buffer.IndexBuffer>, indexCount: u32)
    ensures Closes(FrameEvents(rd, f, vbs, ibs, indexCount), rd, f)
  {
    var front := StartEvents(rd, f) + RecordEvents(rd, f, vbs, ibs, indexCount);
    var tail := SubmitEvents(rd, f) + [PresentEvent(rd, f)];
    var t := FrameEvents(rd, f, vbs, ibs, indexCount);
    AppendAssoc(front, SubmitEvents(rd, f), [PresentEvent(rd, f)]);
    assert t == front + tail;
    assert front[|front| - 1] == Event.EndRendering(f.commandBuffer);
    assert t[|t| - 4] == front[|front| - 1];
  }

  /**
   * In `t`, the submission waits, at colour output, on the semaphore the
   * acquire signals; it carries the command buffer that was begun; and its
   * fence is the one waited for and reset at the start.
   */
  ghost predicate SubmitWaitsForAcquire(t: seq<Event>) {
    var n := |t|;
    && n >= 5
    && t[3].AcquireNextImage? && t[n - 2].QueueSubmit?
    && t[0].WaitForFences? && t[1].ResetFences? && t[4].BeginCommandBuffer?
    && t[0].fences == [t[n - 2].fence] && t[1].fences == [t[n - 2].fence]
    && |t[n - 2].submits| == 1
    && t[n - 2].submits[0].commandBuffers == [t[4].cb]
    && t[n - 2].submits[0].waitSemaphores == [t[3].semaphore]
    && t[n - 2].submits[0].waitStages == [ColorAttachmentOutput]
  }

  /** In `t`, the presentation waits on the semaphore the submission signals and presents the acquired image. */
  ghost predicate PresentWaitsForSubmit(t: seq<Event>) {
    var n := |t|;
    && n >= 5
    && t[3].AcquireNextImage? && t[n - 2].QueueSubmit? && t[n - 1].QueuePresent? && |t[n - 2].submits| == 1
    && t[n - 1].presentInfo.waitSemaphores == t[n - 2].submits[0].signalSemaphores
    && t[n - 1].presentInfo.swapchains == [t[3].swapchain]
    && t[n - 1].presentInfo.imageIndices == [t[3].imageIndex]
  }

  /** Any calls that open and close as a frame does are synchronised as the frame needs. */
  lemma ShapeSynchronised(t: seq<Event>, rd: Renderer, f: Frame)
    requires Opens(t, rd, f) && Closes(t, rd, f)
    ensures SubmitWaitsForAcquire(t) && PresentWaitsForSubmit(t)
  {
  }

  /**
   * A frame's submission waits for its acquire, and its presentation waits
   * for its submission; fence, command buffer, swapchain and image index
   * all agree between the calls.
   */
  lemma FrameSynchronised(rd: Renderer, f: Frame, vbs: seq<Buffer.VertexBuffers>, ibs: seq<Buffer.IndexBuffer>, indexCount: u32)
    ensures |FrameEvents(rd, f, vbs, ibs, indexCount)| >= 12
    ensures SubmitWaitsForAcquire(FrameEvents(rd, f, vbs, ibs, indexCount))
    ensures PresentWaitsForSubmit(FrameEvents(rd, f, vbs, ibs, indexCount))
  {
    var t := FrameEvents(rd, f, vbs, ibs, indexCount);
    FrameStart(rd, f, vbs, ibs, indexCount);
    FrameClosing(rd, f, vbs, ibs, indexCount);
    ShapeSynchronised(t, rd, f);
  }

  // ---------------------------------------------------------------------------
  // Renderer::draw

  /** The faults of the calls before recording: the wait, the fence reset, the pool reset, the acquire. */
  predicate StartFault(fault: Option<Fault>) {
    fault == Some(WaitFails) || fault == Some(ResetFencesFails) || fault == Some(ResetPoolFails) || fault == Some(AcquireFails)
  }

  /** Every fault that makes `draw` return an error. */
  predicate FrameFault(fault: Option<Fault>) {
    StartFault(fault) || fault == Some(BeginFails) || fault == Some(EndFails) || fault == Some(SubmitFails) || fault == Some(PresentFails)
  }

  /** A draw that does not block reaches `queue_submit` and the submission succeeds. */
  predicate Submitted(rd: Renderer, acquired: u32, fault: Option<Fault>) {
    Presentable(rd, acquired) && !StartFault(fault) &&
    fault != Some(BeginFails) && fault != Some(EndFails) && fault != Some(SubmitFails)
  }

  /**
   * The render fence after a draw that found it in state `s0`: unchanged
   * when the wait blocks or fails; signalled when the reset fails; pending
   * once the frame is submitted; unsignalled when anything between the reset
   * and the submission fails, so that the next wait on it never returns.
   */
  function FenceAfterDraw(rd: Renderer, s0: FenceState, acquired: u32, fault: Option<Fault>): FenceState {
    if fault == Some(WaitFails) || s0 == Unsignaled then s0
    else if fault == Some(ResetFencesFails) then Signaled
    else if Submitted(rd, acquired, fault) then Pending
    else Unsignaled
  }

  /** A wait-and-reset of the one fence `k` is a point update of the fence table. */
  lemma PointUpdate(m0: map<Handle, FenceState>, m: map<Handle, FenceState>, k: Handle, v: FenceState)
    requires k in m0 && m.Keys == m0.Keys
    requires forall f :: f in m ==> m[f] == if f in [k] then v else m0[f]
    ensures m == m0[k := v]
  {
    forall f | f in m
      ensures m[f] == m0[k := v][f]
    {
      assert f in [k] <==> f == k;
    }
  }

  /** Line 56 of `draw`: `reset_fences` on the render fence alone, read as an update of that one fence. */
  method ResetRenderFence(driver: Driver, rd: Renderer, fault: Option<Fault>) returns (p: Context.Progress<()>)
    requires Valid(rd, driver)
    modifies driver`log, driver`fences
    ensures Valid(rd, driver)
    ensures var s0 := old(driver.fences)[rd.renderFence];
            && (p == Context.Hangs <==> fault != Some(WaitFails) && s0 == Unsignaled)
            && (p == Context.Returns(Err) <==> fault == Some(WaitFails) || (fault == Some(ResetFencesFails) && s0 != Unsignaled))
            && (p.Returns? ==> p.outcome != Panic)
    ensures p == Context.Hangs || fault == Some(WaitFails) ==> driver.log == old(driver.log) && driver.fences == old(driver.fences)
    ensures p.Returns? && fault == Some(ResetFencesFails) ==>
              && driver.log == old(driver.log) + [Event.WaitForFences([rd.renderFence], true, U64_MAX)]
              && driver.fences == old(driver.fences)[rd.renderFence := Signaled]
    ensures p.Returns? && p.outcome.Ok? ==>
              && driver.log == old(driver.log) + [Event.WaitForFences([rd.renderFence], true, U64_MAX), Event.ResetFences([rd.renderFence])]
              && driver.fences == old(driver.fences)[rd.renderFence := Unsignaled]
  {
    var rf := rd.renderFence;
    assert Context.SomeUnsignaled([rf], driver.fences) <==> driver.fences[rf] == Unsignaled by {
      assert rf in [rf];
    }
    p := Context.ResetFences(driver, [rf], fault);
    if p.Returns? && fault == Some(ResetFencesFails) {
      PointUpdate(old(driver.fences), driver.fences, rf, Signaled);
    } else if p.Returns? && p.outcome.Ok? {
      PointUpdate(old(driver.fences), driver.fences, rf, Unsignaled);
    }
  }

  /**
   * Lines 56-67 of `draw`: wait for and reset the render fence, reset the
   * command pool, acquire the next image (signalling the present semaphore),
   * take the pool's first command buffer and begin it for one submission.
   */
  method BeginFrame(driver: Driver, rd: Renderer, acquired: u32, fault: Option<Fault>) returns (p: Context.Progress<Frame>)
    requires Valid(rd, driver)
    modifies driver`log, driver`fences
    ensures Valid(rd, driver)
    ensures var s0 := old(driver.fences)[rd.renderFence];
            && (p == Context.Hangs <==> fault != Some(WaitFails) && s0 == Unsignaled)
            && (p == Context.Returns(Panic) <==> s0 != Unsignaled && !StartFault(fault) && !Presentable(rd, acquired))
            && (p.Returns? && p.outcome.Ok? <==>
                  s0 != Unsignaled && !StartFault(fault) && Presentable(rd, acquired) && fault != Some(BeginFails))
    ensures p == Context.Hangs || fault == Some(WaitFails) ==> driver.log == old(driver.log) && driver.fences == old(driver.fences)
    ensures p != Context.Hangs && fault != Some(WaitFails) ==>
              driver.fences == old(driver.fences)[rd.renderFence := if fault == Some(ResetFencesFails) then Signaled else Unsignaled]
    ensures p.Returns? && p.outcome.Ok? ==>
              Presentable(rd, acquired) && p.outcome.value == FrameFor(rd, acquired) &&
              driver.log == old(driver.log) + StartEvents(rd, FrameFor(rd, acquired))
  {
    var reset := ResetRenderFence(driver, rd, fault);
    if reset == Context.Hangs {
      return Context.Hangs;
    }
    if reset.outcome.Err? {
      return Context.Returns(Err);
    }
    ghost var l1 := driver.log;
    var pool := Context.ResetCommandBuffers(driver, rd.context, fault);
    if pool.Err? {
      return Context.Returns(Err);
    }
    var image := Context.GetImage(driver, rd.context, rd.presentSemaphore, None, acquired, fault);
    if image.Err? {
      return Context.Returns(Err);
    }
    if image.Panic? {
      return Context.Returns(Panic);
    }
    var commandBuffers := rd.context.objects.command.commandBuffers;
    if |commandBuffers| == 0 {
      return Context.Returns(Panic);
    }
    if fault == Some(BeginFails) {
      return Context.Returns(Err);
    }
    var f := Frame(image.value.0, image.value.1, image.value.2, commandBuffers[0]);
    driver.Record(Event.BeginCommandBuffer(f.commandBuffer, true));
    p := Context.Returns(Ok(f));
    var start := StartEvents(rd, f);
    assert l1 == old(driver.log) + start[..2];
    assert driver.log == l1 + start[2..];
    assert start == start[..2] + start[2..];
    AppendAssoc(old(driver.log), start[..2], start[2..]);
  }

  /** Lines 166-169: once per vertex-buffer entry, bind every buffer pair and draw the mesh's indices. */
  method DrawMeshes(driver: Driver, resources: Resources.Resources, cb: Handle, indexCount: u32)
    requires driver.Valid()
    modifies driver`log
    ensures driver.Valid()
    ensures driver.log == old(driver.log) +
                          DrawLoopEvents(resources.buffers.vertexBuffers, resources.buffers.indexBuffers, cb, indexCount,
                                         |resources.buffers.vertexBuffers|)
  {
    var n := resources.AllocatedBuffersLen();
    var vbs, ibs := resources.buffers.vertexBuffers, resources.buffers.indexBuffers;
    var i := 0;
    while i < n
      invariant 0 <= i <= n
      invariant driver.Valid()
      invariant driver.log == old(driver.log) + DrawLoopEvents(vbs, ibs, cb, indexCount, i)
    {
      resources.BindBuffersPerDraw(driver, cb);
      var draw := Event.DrawIndexed(cb, indexCount, 1, 0, 0, 0);
      driver.Record(draw);
      AppendAssoc(old(driver.log), DrawLoopEvents(vbs, ibs, cb, indexCount, i), Resources.BindEvents(vbs, ibs, cb));
      AppendAssoc(old(driver.log), DrawLoopEvents(vbs, ibs, cb, indexCount, i) + Resources.BindEvents(vbs, ibs, cb), [draw]);
      i := i + 1;
    }
  }

  /**
   * Lines 69-171: the barrier, dynamic rendering into the acquired view and
   * the depth view, the pipeline, the draw loop, the end of rendering.
   */
  method RecordFrame(driver: Driver, rd: Renderer, f: Frame, indexCount: u32)
    requires driver.Valid()
    modifies driver`log
    ensures driver.Valid()
    ensures driver.log == old(driver.log) +
                          RecordEvents(rd, f, rd.resources.buffers.vertexBuffers, rd.resources.buffers.indexBuffers, indexCount)
  {
    var cb := f.commandBuffer;
    var head := [Event.PipelineBarrier(cb, Barriers(rd.context, f.image)),
                 Event.BeginRendering(cb, RenderingFor(rd.context, f.view)),
                 Event.BindPipeline(cb, rd.context.objects.pipeline.pipeline)];
    Context.SetPipelineBarrier(driver, cb, Barriers(rd.context, f.image));
    driver.Record(head[1]);
    driver.Record(head[2]);
    assert driver.log == old(driver.log) + head;
    DrawMeshes(driver, rd.resources, cb, indexCount);
    driver.Record(Event.EndRendering(cb));
    var loop := DrawLoopEvents(rd.resources.buffers.vertexBuffers, rd.resources.buffers.indexBuffers, cb, indexCount,
                               |rd.resources.buffers.vertexBuffers|);
    AppendAssoc(old(driver.log), head, loop);
    AppendAssoc(old(driver.log), head + loop, [Event.EndRendering(cb)]);
  }

  /** Lines 172-197: end the command buffer, submit it with the render fence, present the acquired image. */
  method SubmitFrame(driver: Driver, rd: Renderer, f: Frame, fault: Option<Fault>) returns (r: Outcome<()>)
    requires driver.Valid() && rd.renderFence in driver.fences
    modifies driver`log, driver`fences
    ensures driver.Valid()
    ensures !r.Panic?
    ensures r.Err? <==> fault == Some(EndFails) || fault == Some(SubmitFails) || fault == Some(PresentFails)
    ensures fault == Some(EndFails) ==> driver.log == old(driver.log) && driver.fences == old(driver.fences)
    ensures fault == Some(SubmitFails) ==>
              driver.log == old(driver.log) + [Event.EndCommandBuffer(f.commandBuffer)] && driver.fences == old(driver.fences)
    ensures fault != Some(EndFails) && fault != Some(SubmitFails) ==>
              && driver.fences == old(driver.fences)[rd.renderFence := Pending]
              && driver.log == old(driver.log) + SubmitEvents(rd, f) +
                               (if fault == Some(PresentFails) then [] else [PresentEvent(rd, f)])
  {
    if fault == Some(EndFails) {
      return Err;
    }
    driver.Record(Event.EndCommandBuffer(f.commandBuffer));
    if fault == Some(SubmitFails) {
      return Err;
    }
    driver.QueueSubmit(rd.context.device.queue, [SubmitFor(rd, f)], rd.renderFence);
    assert driver.log == old(driver.log) + SubmitEvents(rd, f);
    if fault == Some(PresentFails) {
      return Err;
    }
    driver.Record(PresentEvent(rd, f));
    r := Ok(());
  }

  /** The driver calls of a draw, regrouped as the method makes them. */
  lemma FrameLog(l0: seq<Event>, start: seq<Event>, record: seq<Event>, submit: seq<Event>, present: seq<Event>)
    ensures l0 + start + record + (submit + present) == l0 + (start + record + submit + present)
  {
    AppendAssoc(l0, start, record);
    AppendAssoc(l0 + start + record, submit, present);
    AppendAssoc(l0, start + record, submit);
    AppendAssoc(l0, start + record + submit, present);
  }

  /**
   * `draw`: one frame.  The driver chooses the acquired index; the render
   * fence's state decides whether the first wait returns.  A successful
   * frame makes exactly the calls of `FrameEvents`.
   */
  method Draw(driver: Driver, rd: Renderer, mesh: Mesh.Mesh, acquired: u32, fault: Option<Fault>) returns (p: Context.Progress<()>)
    requires Valid(rd, driver)
    modifies driver`log, driver`fences
    ensures Valid(rd, driver)
    ensures var s0 := old(driver.fences)[rd.renderFence];
            && (p == Context.Hangs <==> fault != Some(WaitFails) && s0 == Unsignaled)
            && (p == Context.Returns(Panic) <==> s0 != Unsignaled && !StartFault(fault) && !Presentable(rd, acquired))
            && (p == Context.Returns(Ok(())) <==> s0 != Unsignaled && Presentable(rd, acquired) && !FrameFault(fault))
            && driver.fences == old(driver.fences)[rd.renderFence := FenceAfterDraw(rd, s0, acquired, fault)]
    ensures p == Context.Hangs ==> driver.log == old(driver.log)
    ensures p == Context.Returns(Ok(())) ==>
              Presentable(rd, acquired) &&
              driver.log == old(driver.log) + FrameEvents(rd, FrameFor(rd, acquired), rd.resources.buffers.vertexBuffers,
                                                          rd.resources.buffers.indexBuffers, IndexCount(|mesh.indices|))
  {
    var begun := BeginFrame(driver, rd, acquired, fault);
    if begun == Context.Hangs {
      return Context.Hangs;
    }
    if !begun.outcome.Ok? {
      return Context.Returns(if begun.outcome.Err? then Err else Panic);
    }
    var f := begun.outcome.value;
    ghost var l1 := driver.log;
    RecordFrame(driver, rd, f, IndexCount(|mesh.indices|));
    var submitted := SubmitFrame(driver, rd, f, fault);
    if submitted.Err? {
      return Context.Returns(Err);
    }
    FrameLog(old(driver.log), StartEvents(rd, f),
             RecordEvents(rd, f, rd.resources.buffers.vertexBuffers, rd.resources.buffers.indexBuffers, IndexCount(|mesh.indices|)),
             SubmitEvents(rd, f), [PresentEvent(rd, f)]);
    p := Context.Returns(Ok(()));
  }

  // ---------------------------------------------------------------------------
  // Renderer::upload_asset

  /** The faults of `uplaod_mesh`: creating or mapping either of its two buffers. */
  predicate UploadFault(fault: Option<Fault>) {
    fault in {Some(BufferCreateFails(VertexBufferUsage)), Some(BufferMapFails(VertexBufferUsage)),
              Some(BufferCreateFails(IndexBufferUsage)), Some(BufferMapFails(IndexBufferUsage))}
  }

  /**
   * `upload_asset`: load the mesh (`models` is what the OBJ loader returns,
   * `None` for a load error), upload it, and return it.  The uploaded bytes
   * read back as the returned mesh.
   */
  method UploadAsset(driver: Driver, rd: Renderer, models: Option<seq<Mesh.Model>>, fault: Option<Fault>)
    returns (r: Outcome<Mesh.Mesh>)
    requires Valid(rd, driver)
    modifies rd.resources.buffers, driver`log, driver`memory, driver`mapped, driver`next
    ensures Valid(rd, driver)
    ensures r.Err? <==> models == None || (models != Some([]) && UploadFault(fault))
    ensures r.Panic? <==> models == Some([])
    ensures models == None || models == Some([]) ==>
              && driver.log == old(driver.log) && driver.memory == old(driver.memory)
              && rd.resources.buffers.vertexBuffers == old(rd.resources.buffers.vertexBuffers)
              && rd.resources.buffers.indexBuffers == old(rd.resources.buffers.indexBuffers)
    ensures models != None && models != Some([]) &&
            fault in {Some(BufferCreateFails(VertexBufferUsage)), Some(BufferMapFails(VertexBufferUsage))} ==>
              && rd.resources.buffers.vertexBuffers == old(rd.resources.buffers.vertexBuffers)
              && rd.resources.buffers.indexBuffers == old(rd.resources.buffers.indexBuffers)
    ensures models != None && models != Some([]) &&
            fault in {Some(BufferCreateFails(IndexBufferUsage)), Some(BufferMapFails(IndexBufferUsage))} ==>
              && rd.resources.buffers.vertexBuffers ==
                 old(rd.resources.buffers.vertexBuffers) + [Buffer.VertexBuffers([old(driver.next)], [0], [old(driver.next) + 1])]
              && rd.resources.buffers.indexBuffers == old(rd.resources.buffers.indexBuffers)
    ensures r.Ok? ==>
              var mesh := r.value;
              var vb, va, ib, ia := old(driver.next), old(driver.next) + 1, old(driver.next) + 2, old(driver.next) + 3;
              && models.Some? && Mesh.MeshFromModels(models.value) == Mesh.Loaded(mesh)
              && rd.resources.buffers.vertexBuffers == old(rd.resources.buffers.vertexBuffers) + [Buffer.VertexBuffers([vb], [0], [va])]
              && rd.resources.buffers.indexBuffers == old(rd.resources.buffers.indexBuffers) + [Buffer.IndexBuffer(ib, Uint32, 0, ia)]
              && driver.next == old(driver.next) + 4
              && driver.memory == old(driver.memory)[va := Mesh.VerticesBytes(mesh.vertices)][ia := Buffer.IndicesBytes(mesh.indices)]
              && driver.log == old(driver.log) +
                               Buffer.UploadEvents(vb, va, Mesh.VERTEX_SIZE * |mesh.vertices|, VertexBufferUsage) +
                               Buffer.UploadEvents(ib, ia, INDEX_SIZE * |mesh.indices|, IndexBufferUsage)
              && |driver.memory[va]| % Mesh.VERTEX_SIZE == 0 && Mesh.VerticesFromBytes(driver.memory[va]) == mesh.vertices
              && |driver.memory[ia]| % 4 == 0 && Bytes.WordsFromBytes(driver.memory[ia]) == mesh.indices
  {
    if models.None? {
      return Err;
    }
    var loaded := Mesh.MeshFromModels(models.value);
    if loaded.NoModelPanic? {
      return Panic;
    }
    var uploaded := rd.resources.UploadMesh(driver, loaded.mesh, fault);
    if uploaded.Err? {
      return Err;
    }
    Buffer.UploadRoundTrip(loaded.mesh);
    r := Ok(loaded.mesh);
  }

  // ---------------------------------------------------------------------------
  // Drop for Renderer

  /** One `destroy_image_view` per swapchain view, in order. */
  function ViewDestroyEvents(views: seq<Handle>): (es: seq<Event>)
    ensures |es| == |views|
  {
    if views == [] then []
    else ViewDestroyEvents(views[..|views| - 1]) + [Event.DestroyImageView(views[|views| - 1])]
  }

  lemma {:induction false} ViewDestroyEventsAt(views: seq<Handle>, i: nat)
    requires i < |views|
    ensures ViewDestroyEvents(views)[i] == Event.DestroyImageView(views[i])
  {
    if i < |views| - 1 {
      ViewDestroyEventsAt(views[..|views| - 1], i);
    }
  }

  /** Lines 222-242: the command pool, every view, the depth view, swapchain, pipeline, layout, fence, semaphores. */
  function DeviceTeardown(rd: Renderer): seq<Event> {
    var o := rd.context.objects;
    [Event.DestroyCommandPool(o.command.commandPool)] +
    ViewDestroyEvents(o.swapchain.imageViews) +
    [Event.DestroyImageView(o.depth.imageView),
     Event.DestroySwapchain(o.swapchain.swapchain),
     Event.DestroyPipeline(o.pipeline.pipeline),
     Event.DestroyPipelineLayout(o.pipeline.layout),
     Event.DestroyFence(rd.renderFence),
     Event.DestroySemaphore(rd.presentSemaphore),
     Event.DestroySemaphore(rd.renderSemaphore)]
  }

  /** Lines 246-259: the device, the surface, the debug messenger when there is one, the instance. */
  function InstanceTeardown(c: Context.Context): (es: seq<Event>)
    ensures |es| >= 3
  {
    [Event.DestroyDevice(c.device.device), Event.DestroySurface(c.surface)] +
    (if c.debugMessenger.Some? then [Event.DestroyDebugMessenger(c.debugMessenger.value)] else []) +
    [Event.DestroyInstance(c.instance)]
  }

  /** Every call of the teardown, with `releases` the resources' own destroys. */
  function TeardownEvents(rd: Renderer, releases: seq<Resources.Release>): seq<Event> {
    [Event.DeviceWaitIdle] + DeviceTeardown(rd) +
    (Resources.ReleaseEvents(releases) + [Event.DestroyAllocator(rd.resources.allocator)]) +
    InstanceTeardown(rd.context)
  }

  /** Lines 222-242 as calls. */
  method DestroyDeviceObjects(driver: Driver, rd: Renderer)
    requires driver.Valid()
    modifies driver`log
    ensures driver.Valid()
    ensures driver.log == old(driver.log) + DeviceTeardown(rd)
  {
    var o := rd.context.objects;
    driver.Record(Event.DestroyCommandPool(o.command.commandPool));
    var views := o.swapchain.imageViews;
    var i := 0;
    while i < |views|
      invariant 0 <= i <= |views|
      invariant driver.Valid()
      invariant driver.log == old(driver.log) + [Event.DestroyCommandPool(o.command.commandPool)] + ViewDestroyEvents(views[..i])
    {
      assert views[..i + 1][..i] == views[..i];
      driver.Record(Event.DestroyImageView(views[i]));
      i := i + 1;
    }
    assert views[..i] == views;
    driver.Record(Event.DestroyImageView(o.depth.imageView));
    driver.Record(Event.DestroySwapchain(o.swapchain.swapchain));
    driver.Record(Event.DestroyPipeline(o.pipeline.pipeline));
    driver.Record(Event.DestroyPipelineLayout(o.pipeline.layout));
    driver.Record(Event.DestroyFence(rd.renderFence));
    driver.Record(Event.DestroySemaphore(rd.presentSemaphore));
    driver.Record(Event.DestroySemaphore(rd.renderSemaphore));
    ghost var rest := [Event.DestroyImageView(o.depth.imageView),
                       Event.DestroySwapchain(o.swapchain.swapchain),
                       Event.DestroyPipeline(o.pipeline.pipeline),
                       Event.DestroyPipelineLayout(o.pipeline.layout),
                       Event.DestroyFence(rd.renderFence),
                       Event.DestroySemaphore(rd.presentSemaphore),
                       Event.DestroySemaphore(rd.renderSemaphore)];
    AppendAssoc(old(driver.log), [Event.DestroyCommandPool(o.command.commandPool)] + ViewDestroyEvents(views), rest);
    AppendAssoc(old(driver.log), [Event.DestroyCommandPool(o.command.commandPool)], ViewDestroyEvents(views));
  }

  /** Lines 246-259 as calls. */
  method DestroyInstanceObjects(driver: Driver, c: Context.Context)
    requires driver.Valid()
    modifies driver`log
    ensures driver.Valid()
    ensures driver.log == old(driver.log) + InstanceTeardown(c)
  {
    driver.Record(Event.DestroyDevice(c.device.device));
    driver.Record(Event.DestroySurface(c.surface));
    ghost var mid := driver.log;
    if c.debugMessenger.Some? {
      driver.Record(Event.DestroyDebugMessenger(c.debugMessenger.value));
    }
    driver.Record(Event.DestroyInstance(c.instance));
    var debug := if c.debugMessenger.Some? then [Event.DestroyDebugMessenger(c.debugMessenger.value)] else [];
    assert mid == old(driver.log) + [Event.DestroyDevice(c.device.device), Event.DestroySurface(c.surface)];
    AppendAssoc(old(driver.log), [Event.DestroyDevice(c.device.device), Event.DestroySurface(c.surface)], debug);
    AppendAssoc(old(driver.log), [Event.DestroyDevice(c.device.device), Event.DestroySurface(c.surface)] + debug,
                [Event.DestroyInstance(c.instance)]);
  }

  lemma TeardownLog(l0: seq<Event>, a: seq<Event>, b: seq<Event>, c: seq<Event>, d: seq<Event>)
    ensures l0 + a + b + c + d == l0 + (a + b + c + d)
  {
    AppendAssoc(l0, a, b);
    AppendAssoc(l0, a + b, c);
    AppendAssoc(l0, a + b + c, d);
  }

  /**
   * `Drop`: wait for the device to go idle (a failure is an `unwrap` panic
   * before anything is destroyed), then destroy everything in the order of
   * `TeardownEvents`; the resources give back every allocation they own.
   */
  method Drop(driver: Driver, rd: Renderer, fault: Option<Fault>) returns (r: Outcome<()>)
    requires Valid(rd, driver)
    modifies driver`log, driver`memory
    ensures !r.Err?
    ensures r.Panic? <==> fault == Some(WaitIdleFails)
    ensures r.Panic? ==> driver.log == old(driver.log) && driver.memory == old(driver.memory)
    ensures r.Ok? ==>
              && driver.Valid()
              && driver.memory == old(driver.memory) - Resources.AllocationSet(rd.resources.AllReleases())
              && driver.log == old(driver.log) + TeardownEvents(rd, rd.resources.AllReleases())
  {
    if fault == Some(WaitIdleFails) {
      return Panic;
    }
    driver.Record(Event.DeviceWaitIdle);
    DestroyDeviceObjects(driver, rd);
    ghost var l1 := driver.log;
    rd.resources.Drop(driver);
    DestroyInstanceObjects(driver, rd.context);
    TeardownLog(old(driver.log), [Event.DeviceWaitIdle], DeviceTeardown(rd),
                Resources.ReleaseEvents(rd.resources.AllReleases()) + [Event.DestroyAllocator(rd.resources.allocator)],
                InstanceTeardown(rd.context));
    r := Ok(());
  }

  /** Calls that destroy something the device owns (or wait for it). */
  predicate DeviceLevel(e: Event) {
    e.DeviceWaitIdle? || e.DestroyCommandPool? || e.DestroyImageView? || e.DestroySwapchain? || e.DestroyPipeline? ||
    e.DestroyPipelineLayout? || e.DestroyFence? || e.DestroySemaphore? || e.DestroyBuffer? || e.DestroyImage? ||
    e.DestroyAllocator?
  }

  /** Calls that destroy something the instance owns, or the instance. */
  predicate InstanceLevel(e: Event) {
    e.DestroySurface? || e.DestroyDebugMessenger? || e.DestroyInstance?
  }

  lemma {:induction false} ReleaseEventsFree(rs: seq<Resources.Release>, i: nat)
    requires i < |rs|
    ensures Resources.ReleaseEvents(rs)[i].DestroyBuffer? || Resources.ReleaseEvents(rs)[i].DestroyImage?
  {
    if i > 0 {
      ReleaseEventsFree(rs[1..], i - 1);
    }
  }

  lemma DeviceTeardownLevel(rd: Renderer, i: nat)
    requires i < |DeviceTeardown(rd)|
    ensures DeviceLevel(DeviceTeardown(rd)[i])
  {
    var views := rd.context.objects.swapchain.imageViews;
    var head := [Event.DestroyCommandPool(rd.context.objects.command.commandPool)] + ViewDestroyEvents(views);
    if 1 <= i < |head| {
      ViewDestroyEventsAt(views, i - 1);
      assert DeviceTeardown(rd)[i] == head[i];
    }
  }

  /**
   * The teardown waits for the device first; everything the device owns
   * (pool, views, swapchain, pipeline, fence, semaphores, buffers, images,
   * the allocator last) is destroyed before the device; after it come only
   * the surface, the debug messenger and, last, the instance.
   */
  lemma TeardownOrder(rd: Renderer, releases: seq<Resources.Release>)
    ensures var t := TeardownEvents(rd, releases);
            var p := |t| - |InstanceTeardown(rd.context)|;
            && 1 <= p < |t|
            && t[0] == Event.DeviceWaitIdle
            && t[p - 1] == Event.DestroyAllocator(rd.resources.allocator)
            && t[p] == Event.DestroyDevice(rd.context.device.device)
            && t[|t| - 1] == Event.DestroyInstance(rd.context.instance)
            && (forall i :: 0 <= i < p ==> DeviceLevel(t[i]))
            && (forall i :: p < i < |t| ==> InstanceLevel(t[i]))
  {
    var dt := DeviceTeardown(rd);
    var re := Resources.ReleaseEvents(releases);
    var a := [Event.DeviceWaitIdle] + dt + (re + [Event.DestroyAllocator(rd.resources.allocator)]);
    var it := InstanceTeardown(rd.context);
    var t := TeardownEvents(rd, releases);
    assert t == a + it;
    forall i | 0 <= i < |a|
      ensures DeviceLevel(t[i])
    {
      assert t[i] == a[i];
      if 1 <= i < 1 + |dt| {
        DeviceTeardownLevel(rd, i - 1);
      } else if 1 + |dt| <= i < 1 + |dt| + |re| {
        ReleaseEventsFree(releases, i - 1 - |dt|);
      }
    }
    forall i | |a| < i < |t|
      ensures InstanceLevel(t[i])
    {
      assert t[i] == it[i - |a|];
    }
  }

  /** The device-level calls in order: the pool, each view, the depth view, the swapchain, then five more. */
  lemma DeviceTeardownShape(rd: Renderer)
    ensures var dt := DeviceTeardown(rd);
            var views := rd.context.objects.swapchain.imageViews;
            var n := |views|;
            && |dt| == n + 8
            && dt[0] == Event.DestroyCommandPool(rd.context.objects.command.commandPool)
            && (forall i :: 0 <= i < n ==> dt[1 + i] == Event.DestroyImageView(views[i]))
            && dt[n + 1] == Event.DestroyImageView(rd.context.objects.depth.imageView)
            && dt[n + 2] == Event.DestroySwapchain(rd.context.objects.swapchain.swapchain)
  {
    var views := rd.context.objects.swapchain.imageViews;
    var dt := DeviceTeardown(rd);
    forall i | 0 <= i < |views|
      ensures dt[1 + i] == Event.DestroyImageView(views[i])
    {
      ViewDestroyEventsAt(views, i);
    }
  }

  /**
   * Within the teardown: every swapchain view (in order), then the depth
   * view, go before the swapchain; the device goes before the surface,
   * which the debug messenger follows when there is one.
   */
  lemma ViewsBeforeSwapchain(rd: Renderer, releases: seq<Resources.Release>)
    ensures var t := TeardownEvents(rd, releases);
            var views := rd.context.objects.swapchain.imageViews;
            var n := |views|;
            var p := |t| - |InstanceTeardown(rd.context)|;
            && n + 4 <= p && p + 1 < |t|
            && t[1] == Event.DestroyCommandPool(rd.context.objects.command.commandPool)
            && (forall i :: 0 <= i < n ==> t[2 + i] == Event.DestroyImageView(views[i]))
            && t[n + 2] == Event.DestroyImageView(rd.context.objects.depth.imageView)
            && t[n + 3] == Event.DestroySwapchain(rd.context.objects.swapchain.swapchain)
            && t[p] == Event.DestroyDevice(rd.context.device.device)
            && t[p + 1] == Event.DestroySurface(rd.context.surface)
            && (rd.context.debugMessenger.Some? ==>
                  p + 4 == |t| && t[p + 2] == Event.DestroyDebugMessenger(rd.context.debugMessenger.value))
            && (rd.context.debugMessenger.None? ==> p + 3 == |t|)
  {
    var dt := DeviceTeardown(rd);
    var it := InstanceTeardown(rd.context);
    var a := [Event.DeviceWaitIdle] + dt + (Resources.ReleaseEvents(releases) + [Event.DestroyAllocator(rd.resources.allocator)]);
    var t := TeardownEvents(rd, releases);
    assert t == a + it;
    DeviceTeardownShape(rd);
    forall k | 1 <= k <= |dt|
      ensures t[k] == dt[k - 1]
    {
      assert t[k] == a[k];
    }
    assert t[|a|] == it[0] && t[|a| + 1] == it[1];
    if rd.context.debugMessenger.Some? {
      assert t[|a| + 2] == it[2];
    }
  }
}
