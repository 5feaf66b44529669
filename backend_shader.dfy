/**
 * The backend's shader discovery (src/engine/backend/context/shader.rs): the
 * same walk filter, file-name classification and module creation as the
 * renderer's, without the check that at least one shader was found.
 */
module BackendShader {
  import opened Vk
  import opened Gpu
  import opened Shader

  /**
   * `create_shader_modules`: one module per regular file of the walk, in walk
   * order; an empty walk gives an empty list rather than a panic.
   */
  method CreateShaderModules(driver: Driver, walk: seq<WalkEntry>, fault: Option<Fault>)
    returns (r: Outcome<seq<StagedModule>>)
    requires driver.Valid()
    modifies driver`log, driver`next
    ensures driver.Valid()
    ensures !r.Err?
    ensures ShaderFiles(walk) == [] ==> r == Ok([]) && driver.log == old(driver.log)
    ensures r.Ok? <==> Stages(ShaderFiles(walk)).Some? && !ModuleFailsBefore(fault, |ShaderFiles(walk)|)
    ensures r.Ok? ==>
              var files := ShaderFiles(walk);
              && r.value == StagedModules(Stages(files).value, old(driver.next))
              && driver.log == old(driver.log) + ModuleEvents(files, old(driver.next))
  {
    r := CreateModules(driver, ShaderFiles(walk), fault);
  }
}
