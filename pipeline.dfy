/**
 * The graphics pipeline (src/engine/renderer/context/pipeline.rs): one
 * shader-stage record per shader module and a fixed configuration record,
 * turned into a pipeline layout and a graphics pipeline.
 */
module Pipeline {
  import opened Vk
  import opened Gpu
  import Shader
  import Mesh
  import Depth

  /** `create_shader_stages`: the map/collect over the modules, entry point "main". */
  function CreateShaderStages(modules: seq<Shader.StagedModule>): (stages: seq<ShaderStageInfo>)
    ensures |stages| == |modules|
    ensures forall i :: 0 <= i < |modules| ==>
              stages[i] == ShaderStageInfo(modules[i].shaderModule, modules[i].stage, Shader.ENTRY_NAME)
  {
    if modules == [] then []
    else [ShaderStageInfo(modules[0].shaderModule, modules[0].stage, Shader.ENTRY_NAME)] + CreateShaderStages(modules[1..])
  }

  /** The map is order-preserving: it distributes over concatenation. */
  lemma {:induction false} CreateShaderStagesAppend(a: seq<Shader.StagedModule>, b: seq<Shader.StagedModule>)
    ensures CreateShaderStages(a + b) == CreateShaderStages(a) + CreateShaderStages(b)
  {
    if a == [] {
      assert a + b == b;
    } else {
      assert (a + b)[0] == a[0] && (a + b)[1..] == a[1..] + b;
      CreateShaderStagesAppend(a[1..], b);
    }
  }

  /** The write mask `ColorComponentFlags::RGBA`. */
  const RGBA: set<ColorComponent> := {Red, Green, Blue, Alpha}

  /**
   * The create-info of the single graphics pipeline: the stages as given, the
   * vertex description's one binding and its attributes, a triangle list, one
   * viewport and one scissor covering the image extent, front-face culling of
   * counter-clockwise filled triangles, one sample, one RGBA blend
   * attachment, a less-or-equal depth test with depth writes, and dynamic
   * rendering into one colour attachment of `format` and a depth attachment.
   */
  function PipelineInfo(stages: seq<ShaderStageInfo>, description: Mesh.VertexDescription, format: Format,
                        extent: Extent2D, layout: Handle): GraphicsPipelineInfo
  {
    GraphicsPipelineInfo(
      stages, [description.binding], description.attributes, TriangleList,
      [Viewport(extent)], [Rect2D(Offset2D(0, 0), extent)],
      {CullFront}, CounterClockwise, Fill, 1, [RGBA],
      true, true, LessOrEqual, layout, [format], Depth.DEPTH_FORMAT)
  }

  /** What `VertexDescription::new` returns: the vertex binding and its two attributes. */
  const VERTEX_INPUT: Mesh.VertexDescription :=
    Mesh.VertexDescription(
      VertexInputBinding(0, Mesh.VERTEX_SIZE, PerVertex),
      [VertexInputAttribute(0, 0, Mesh.VERTEX_FORMAT, Mesh.POSITION_OFFSET),
       VertexInputAttribute(1, 0, Mesh.VERTEX_FORMAT, Mesh.COLOR_OFFSET)])

  datatype PipelineHandle = PipelineHandle(pipeline: Handle, layout: Handle)

  /** The two driver calls of a successful `PipelineHandle::new`. */
  function PipelineEvents(h: PipelineHandle, modules: seq<Shader.StagedModule>, format: Format, extent: Extent2D): seq<Event> {
    [Event.CreatePipelineLayout(h.layout),
     Event.CreateGraphicsPipeline(h.pipeline, PipelineInfo(CreateShaderStages(modules), VERTEX_INPUT, format, extent, h.layout))]
  }

  /**
   * `PipelineHandle::new`: the layout is created first and a failure there is
   * returned with `?`; a failure of the pipeline itself is an `unwrap` panic,
   * after the layout exists.  On success the pipeline is created from the
   * stages of the given modules, in module order, and the fixed state.
   */
  method New(driver: Driver, modules: seq<Shader.StagedModule>, format: Format, extent: Extent2D, fault: Option<Fault>)
    returns (r: Outcome<PipelineHandle>)
    requires driver.Valid()
    modifies driver`log, driver`next
    ensures driver.Valid()
    ensures r.Err? <==> fault == Some(PipelineLayoutFails)
    ensures r.Panic? <==> fault == Some(PipelineFails)
    ensures r.Err? ==> driver.log == old(driver.log)
    ensures r.Panic? ==> driver.log == old(driver.log) + [Event.CreatePipelineLayout(old(driver.next))]
    ensures r.Ok? ==>
              var h := r.value;
              && h.layout == old(driver.next) && h.pipeline == old(driver.next) + 1
              && driver.log == old(driver.log) + PipelineEvents(h, modules, format, extent)
              && var info := PipelineEvents(h, modules, format, extent)[1].pipelineInfo;
                 && info.stages == CreateShaderStages(modules)
                 && info.bindings == [VertexInputBinding(0, Mesh.VERTEX_SIZE, PerVertex)]
                 && |info.attributes| == 2
                 && (forall i :: 0 <= i < 2 ==>
                       info.attributes[i].location == i && info.attributes[i].binding == 0 &&
                       info.attributes[i].format == Mesh.VERTEX_FORMAT)
                 && info.attributes[0].offset == Mesh.POSITION_OFFSET && info.attributes[1].offset == Mesh.COLOR_OFFSET
                 && info.topology == TriangleList
                 && info.viewports == [Viewport(extent)] && info.scissors == [Rect2D(Offset2D(0, 0), extent)]
                 && info.cullMode == {CullFront} && info.frontFace == CounterClockwise && info.polygonMode == Fill
                 && info.samples == 1 && info.blendAttachments == [RGBA]
                 && info.depthTest && info.depthWrite && info.depthCompare == LessOrEqual
                 && info.layout == h.layout && info.colorFormats == [format] && info.depthFormat == D32Sfloat
  {
    var stages := CreateShaderStages(modules);
    var description := Mesh.NewVertexDescription();
    assert description == VERTEX_INPUT;
    if fault == Some(PipelineLayoutFails) {
      return Err;
    }
    var layout := driver.Fresh();
    driver.Record(Event.CreatePipelineLayout(layout));
    if fault == Some(PipelineFails) {
      return Panic;
    }
    var pipeline := driver.Fresh();
    driver.Record(Event.CreateGraphicsPipeline(pipeline, PipelineInfo(stages, description, format, extent, layout)));
    r := Ok(PipelineHandle(pipeline, layout));
  }
}
