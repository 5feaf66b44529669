# vulkan_learning renderer core, modelled in Dafny

This project models the decision-making and bookkeeping core of the Rust
Vulkan renderer `vulkan_learning`:

- how a physical device is chosen;
- how the swapchain is negotiated;
- how shader files are classified;
- the fixed pipeline state;
- the vertex layout and how meshes are assembled;
- the GPU resources (per-mesh vertex and index buffers, depth images) and their lifetime;
- the order of the driver calls in `Context::new`, `Renderer::new`, `Renderer::draw`, `Renderer::upload_asset` and `Drop for Renderer`.

## How the driver is modelled

Vulkan and VMA objects are opaque `nat` handles. They are handed out in
increasing order by the `Gpu.Driver` class (field `next`).

Every driver call that succeeds appends one `Event` to `Driver.log`. A call
that fails appends nothing, and the caller's result says which step failed.

Other driver state:

- **Allocator memory** is a map from an allocation handle to its bytes (`Driver.memory`).
- **Mapped allocations** are a set (`Driver.mapped`).
- **Fences** are a map to `Unsignaled`, `Signaled` or `Pending` (`Driver.fences`).

Each fallible operation takes `fault: Option<Fault>`. The fault names the one
driver call that fails, or no failure at all. Only the first failure matters,
because `?` returns at once.

How an operation ends:

- **`Outcome<T>`** is `Ok(value)`, `Err` (an error returned with `?`) or `Panic` (an `unwrap`, `assert!`, `panic!` or index panic).
- **`Context.Progress<T>`** is used by the calls that wait with a `u64::MAX` timeout. It adds `Hangs`, for a wait that never returns (an unsignalled fence that nothing will signal).

Inputs that come from outside are parameters of the model:

- the physical devices and what they report;
- the window size;
- the number of images the driver gives the swapchain;
- the shader directory walk;
- the result of the OBJ loader;
- the image index returned by acquire.

The modules follow the source files:

- `Vk`: the Vulkan value types.
- `Gpu`: the driver state.
- `DeviceSelection`: `backend/context/device.rs`.
- `Swapchain` and `BackendSwapchain`: the two `swapchain.rs` files.
- `Shader` and `BackendShader`: the two `shader.rs` files.
- `Pipeline`, `Depth`, `Mesh`, `Buffer`, `Resources`, `Context` and `Renderer`: their files.
- `ContextTrace`: position-by-position facts about the trace of `Context::new`.
- `Bytes`: the byte image of `u32` words.

### Where the code and the repository's description differ

The model follows the code in each case.

- **Device ties.** The description says ties between equally scored devices go to the first device. `Iterator::max_by_key` keeps the last maximum, so the device enumerated last wins (`DeviceSelection.LaterCandidateWinsTies`, `DeviceSelection.TwoDiscreteGpusPickSecond`).
- **Swapchain extension.** The description says support for the swapchain extension is checked. The code never checks it; it only requests the extension (`DeviceSelection.SelectionIgnoresExtensions`).
- **Equal image-count bounds.** The description promises `minImageCount < count <= maxImageCount` whenever the maximum is not 0. When the minimum equals the maximum, the code clamps `min + 1` back to the maximum, so the count equals the minimum and the strict lower bound fails (`Swapchain.EqualBoundsGiveMinimum`, `Swapchain.MinImageCount`). The backend's copy does the same.
- **Shader stage count.** The description requires exactly one vertex and one fragment stage and reports a `PipelineCreationError` otherwise. The code checks no stage count: it passes whatever stages the shader walk produced, and a pipeline the driver rejects is an `unwrap` panic, not an error (`Pipeline.New`).
- **Zero maximum image count.** The description treats a maximum image count of 0 as "no limit". The code clamps the count to 0 (`Swapchain.MinImageCount`).

## Model

| member | source | states |
|---|---|---|
| `Vk.WrappingAdd` | src/engine/renderer/context/swapchain.rs:113 | u32 addition as an optimised build does it: the exact sum when it fits, and the sum minus 2^32 when it does not |
| `DeviceSelection.FindQueueFamily` | src/engine/backend/context/device.rs:30-49 | Returns the index of the first queue family that has GRAPHICS and can present (no earlier family qualifies); `None` exactly when no family qualifies |
| `DeviceSelection.FindSrgbFormat` | src/engine/backend/context/device.rs:59-66 | Returns the first listed format that is R8G8B8A8_SRGB or B8G8R8A8_SRGB with SRGB_NONLINEAR; `None` exactly when no format qualifies |
| `DeviceSelection.ChoosePresentMode` | src/engine/backend/context/device.rs:68-77 | MAILBOX exactly when the device lists it, FIFO otherwise; never a reason to reject a device |
| `DeviceSelection.Score` | src/engine/backend/context/device.rs:90-96 | The `max_by_key` key: discrete 3, integrated 2, every other type 0 (at most 3) |
| `DeviceSelection.Candidacy` | src/engine/backend/context/device.rs:29-89 | A device is kept exactly when it has a queue family that draws and presents and an sRGB format. The kept tuple has the first such family, the first such format, the MAILBOX/FIFO choice, the device's type and its capabilities |
| `DeviceSelection.CandidatesSound` | src/engine/backend/context/device.rs:29-89 | Every kept tuple comes from an enumerated device that qualifies |
| `DeviceSelection.CandidatesComplete` | src/engine/backend/context/device.rs:29-89 | Every enumerated device that qualifies is kept |
| `DeviceSelection.CandidatesAppend` | src/engine/backend/context/device.rs:29-89 | The `filter_map` keeps enumeration order: one more device adds its tuple at the end, or nothing |
| `DeviceSelection.MaxByKey` | src/engine/backend/context/device.rs:90-96 | `None` exactly for an empty list. Otherwise an index whose score is the maximum, and no later candidate has that score (the last maximum) |
| `DeviceSelection.SelectDevice` | src/engine/backend/context/device.rs:24-97 | No device is selected exactly when the candidate list is empty; a selected tuple is one of the candidates |
| `DeviceSelection.SelectDeviceSpec` | src/engine/backend/context/device.rs:24-97 | A panic exactly when no device qualifies. Otherwise the selected tuple is the candidacy of an enumerated device, and its score is at least that of every qualifying device |
| `DeviceSelection.LaterCandidateWinsTies` | src/engine/backend/context/device.rs:90-96 | A qualifying device added last, scoring at least as high as every earlier candidate, is the one selected: ties go to the last |
| `DeviceSelection.TwoDiscreteGpusPickSecond` | src/engine/backend/context/device.rs:90-97 | Of two qualifying discrete GPUs, the second is selected |
| `DeviceSelection.SelectionIgnoresExtensions` | src/engine/backend/context/device.rs:29-97 | The selection is the same whatever extensions the devices report: swapchain support is never checked |
| `DeviceSelection.CandidatesIgnoreExtensions` | src/engine/backend/context/device.rs:29-89 | The candidate list does not depend on the reported extensions |
| `DeviceSelection.SelectedDeviceSetup` | src/engine/backend/context/device.rs:115-139 | The device create-info requests exactly the swapchain extension and exactly one queue create-info (one priority) on the chosen family. That family draws and presents on the chosen device, and the format is one of its sRGB formats |
| `DeviceSelection.SupportQueriesSpec` | src/engine/backend/context/device.rs:30-49 | The `position` walk asks for the surface support of exactly the families with GRAPHICS that no earlier drawing family precedes (`SupportQueries`, the walk itself, against `SupportQueried`, its closed form) |
| `DeviceSelection.FoundFamilyQueriedLast` | src/engine/backend/context/device.rs:30-49 | The family the search returns was asked about, and no family after it was |
| `DeviceSelection.NewDeviceHandle` | src/engine/backend/context/device.rs:20-151 | An enumeration failure or a device-creation failure is `Err`. It panics exactly when no qualifying device is found, or when a surface query the code reaches fails: a support query (:45), the format list (:57), the present modes (:74), the device name's `to_str` (:103) or the capabilities (:112). On success the handle carries the selected tuple, and the log gains `create_device` with that create-info and then `get_device_queue(family, 0)` |
| `Swapchain.MinImageCount` | src/engine/renderer/context/swapchain.rs:110-119 | When `min + 1` does not wrap: `min(min+1, max)`, which is `min+1` whenever `min < max`. A maximum of 0 gives 0, and `min = u32::MAX` wraps to 0 |
| `Swapchain.EqualBoundsGiveMinimum` | src/engine/renderer/context/swapchain.rs:110-119 | When the minimum equals a non-zero maximum below u32::MAX, the count is the minimum itself |
| `Swapchain.ChooseMinImageCount` | src/engine/renderer/context/swapchain.rs:110-119 | The mutable-local clamp computes `MinImageCount` |
| `Swapchain.ChooseExtent` | src/engine/renderer/context/swapchain.rs:93-107 | The window size exactly when the current extent is (u32::MAX, u32::MAX); the current extent otherwise |
| `Swapchain.OneSidedSentinelKeptAsIs` | src/engine/renderer/context/swapchain.rs:97-106 | With only one side at u32::MAX, the current extent is returned unchanged, with its MAX side |
| `Swapchain.ViewEventsAt` | src/engine/renderer/context/swapchain.rs:134-150 | View i is created from image i, as a 2D view with the negotiated format, the given aspects, 1 level and 1 layer |
| `Swapchain.ViewEventsAfter` | src/engine/renderer/context/swapchain.rs:134-150 | Whatever comes before them in the log, the view calls sit at consecutive positions in image order |
| `Swapchain.CreateImageViews` | src/engine/renderer/context/swapchain.rs:134-150 | One fresh view per image, in image order, so there are as many views as images. A failing view creation is an `unwrap` panic, which stops the map after the views before it |
| `Swapchain.CreateSwapchain` | src/engine/renderer/context/swapchain.rs:57-90 | `Err` exactly when `create_swapchain` fails, with the log unchanged; otherwise one fresh handle, logged with the create-info of the given values |
| `Swapchain.CreateImages` | src/engine/renderer/context/swapchain.rs:120-153 | `Err` exactly when `get_swapchain_images` fails, with the log unchanged. A failing view is a panic, and the log then holds the image query and the views made before the failure. On success: fresh images, one COLOR view per image in order |
| `Swapchain.New` | src/engine/renderer/context/swapchain.rs:17-54 | A failure of `create_swapchain` or `get_swapchain_images` is `Err`, and a view failure is a panic. A failed image query leaves the created swapchain in the log (it leaks); a view panic leaves the swapchain, the images and the earlier views. On success the handle keeps `ChooseExtent`'s extent, there is one COLOR view per image, and the log grows by `SwapchainEvents` |
| `Swapchain.CreateInfoFields` | src/engine/renderer/context/swapchain.rs:57-90 | The swapchain call comes first and then the image query. The create-info carries the surface, format, colour space, present mode, `MinImageCount`, 1 layer, OPAQUE alpha, COLOR_ATTACHMENT usage, EXCLUSIVE sharing, the chosen extent, the current transform and clipping |
| `BackendSwapchain.CreateImages` | src/engine/backend/context/swapchain.rs:109-144 | One view per image, in image order, with the aspect mask left empty; a failed `get_swapchain_images` is `Err` with the log unchanged, and a failed view is a panic after the image query and the earlier views |
| `BackendSwapchain.New` | src/engine/backend/context/swapchain.rs:17-107 | The same count and extent negotiation as the renderer's. The create-info sets no composite alpha, and the handle does not keep the extent. A failed image query leaves the created swapchain in the log; a view panic leaves the swapchain, the images and the earlier views |
| `Shader.Split` | src/engine/renderer/context/shader.rs:25-31 | `split('.')` yields at least one piece, and no piece contains a dot |
| `Shader.JoinSplit` | src/engine/renderer/context/shader.rs:25-31 | Joining the pieces with dots gives back the file name |
| `Shader.SplitJoin` | src/engine/renderer/context/shader.rs:25-31 | Splitting dot-free pieces joined with dots gives back the pieces |
| `Shader.Classify` | src/engine/renderer/context/shader.rs:35-45 | VERTEX exactly for three pieces with middle piece "vert", and FRAGMENT exactly for three pieces with middle piece "frag"; `None` (the panic) otherwise |
| `Shader.ClassifyNamed` | src/engine/renderer/context/shader.rs:35-37 | `stem.vert.ext` is VERTEX and `stem.frag.ext` is FRAGMENT, for a dot-free stem and extension |
| `Shader.FourPiecesPanic` | src/engine/renderer/context/shader.rs:38-44 | `a.b.vert.spv` and `triangle.vert` are not classified, so they panic |
| `Shader.ShaderFiles` | src/engine/renderer/context/shader.rs:17-23 | The `filter_map` keeps only regular files of the walk |
| `Shader.ShaderFilesAppend` | src/engine/renderer/context/shader.rs:17-23 | The filter distributes over concatenation, so walk order is kept |
| `Shader.ShaderFilesSingle` | src/engine/renderer/context/shader.rs:19-23 | A regular file is kept; a directory or a walk error is skipped |
| `Shader.StagesSpec` | src/engine/renderer/context/shader.rs:24-52 | The stage list exists exactly when every file classifies, and stage i is that of file i |
| `Shader.StagesFailAt` | src/engine/renderer/context/shader.rs:38-44 | One file that does not classify makes the whole map panic |
| `Shader.StagedModulesAt` | src/engine/renderer/context/shader.rs:47-52 | Entry i pairs module handle `first + i` with stage i |
| `Shader.ModuleEventsAt` | src/engine/renderer/context/shader.rs:62-74 | Module call i creates handle `first + i` from file i |
| `Shader.CreateModule` | src/engine/renderer/context/shader.rs:24-51 | One file: an unknown name is a panic before any driver call, and a failing `create_shader_module` is an `unwrap` panic. Otherwise there is one fresh module with the file's stage |
| `Shader.CreateModules` | src/engine/renderer/context/shader.rs:17-52 | The map over the files succeeds exactly when every file classifies and no module creation fails. It then returns `StagedModules` and logs one creation per file, in order. On a panic the log holds the creations of the files before the panic point (`PanicsAt`) |
| `Shader.PanicPointUnique` | src/engine/renderer/context/shader.rs:24-52 | The file at which the map panics is determined: at most one index satisfies `PanicsAt` |
| `Shader.New` | src/engine/renderer/context/shader.rs:16-60 | An empty file list fails the non-empty assertion, with no driver call. Otherwise this is `CreateModules` on the walk's regular files, including its panic log |
| `BackendShader.CreateShaderModules` | src/engine/backend/context/shader.rs:13-50 | The same classification and order, but an empty walk returns an empty list rather than panicking |
| `Pipeline.CreateShaderStages` | src/engine/renderer/context/pipeline.rs:102-115 | The same length as the modules; stage i has module i's handle and stage and entry name "main" |
| `Pipeline.CreateShaderStagesAppend` | src/engine/renderer/context/pipeline.rs:102-115 | The map distributes over concatenation, so order is preserved |
| `Pipeline.New` | src/engine/renderer/context/pipeline.rs:14-100 | A layout failure is `Err` with nothing logged. A pipeline failure is an `unwrap` panic after the layout exists. On success the pipeline info uses the given stages unchecked, with the fixed state below |
| `Depth.New` | src/engine/renderer/context/depth.rs:14-53 | The image (D32_SFLOAT, DEPTH_STENCIL_ATTACHMENT, the given extent, 1 mip, 1 layer, 1 sample, 2D, OPTIMAL, DEVICE_LOCAL memory) is registered in the resources and returned. Its view has the same image and format, DEPTH aspect, 1 level and 1 layer. A failing view returns `Err` with the image still registered |
| `Mesh.VerticesRoundTrip` | src/engine/asset_system/mesh.rs:10-14 | The bytes of a `[Vertex]` (24 per vertex) read back as the same vertices |
| `Mesh.VertexLayout` | src/engine/asset_system/mesh.rs:10-14 | In the byte image, vertex i's position sits at offset 24i + 0 and its colour at 24i + 12, each as three words |
| `Mesh.CreateAttribute` | src/engine/asset_system/mesh.rs:55-70 | The attribute carries the current location, binding, format and offset, and the counter goes up by exactly one |
| `Mesh.NewVertexDescription` | src/engine/asset_system/mesh.rs:27-52 | Binding 0 with stride `size_of::<Vertex>()` = 24 and VERTEX rate. Exactly two attributes, at locations 0 and 1 on binding 0, both R32G32B32_SFLOAT, at offsets 0 and 12 |
| `Mesh.Chunks3At` | src/engine/asset_system/mesh.rs:97-98 | There are `len/3` chunks; chunk i is elements 3i, 3i+1 and 3i+2, and a trailing partial chunk is dropped |
| `Mesh.ZipVertices` | src/engine/asset_system/mesh.rs:98-103 | The zip stops at the shorter side; vertex i is position i with colour i |
| `Mesh.AssembleVerticesSpec` | src/engine/asset_system/mesh.rs:95-103 | The vertex count is `min(len(positions)/3, len(normals)/3)`; vertex i takes positions[3i..3i+3] and normals[3i..3i+3] |
| `Mesh.MeshFromModels` | src/engine/asset_system/mesh.rs:93-108 | An empty model list is the `remove(0)` panic. Otherwise only the first model is used, with its indices unchanged and its vertices assembled |
| `Bytes.WordsRoundTrip` | src/engine/renderer/resources/buffer.rs:107-123 | The bytes of a `[u32]` read back as the same words |
| `Bytes.WordsBytesAt` | src/engine/renderer/resources/buffer.rs:107-123 | Word i occupies bytes 4i..4i+4 of the image, as that word's own four bytes |
| `Buffer.IndicesBytes` | src/engine/renderer/resources/buffer.rs:107 | `size_of_val(indices)` is 4 bytes per index |
| `Buffer.AllocateBuffer` | src/engine/renderer/resources/buffer.rs:136-157 | create, map, copy, unmap. On success a fresh buffer has an allocation holding exactly the data, and nothing stays mapped. A failed create changes nothing. A failed map leaves the new zeroed allocation live, returned to no one |
| `Buffer.AllocatedBuffers.constructor` | src/engine/renderer/resources/buffer.rs:69-73 | `Default::default()` has both lists empty |
| `Buffer.AllocatedBuffers.UploadMesh` | src/engine/renderer/resources/buffer.rs:78-134 | On success, exactly one vertex set `([buffer], [0], [allocation])` and one UINT32 index buffer at offset 0 are appended. Their allocations hold the vertex bytes (24 per vertex) and the index bytes (4 per index). A failing vertex upload changes neither list; a failing index upload leaves the vertex list one longer |
| `Buffer.UploadRoundTrip` | src/engine/renderer/resources/buffer.rs:150-156 | What is copied into the two buffers decodes back to the mesh's vertices and indices |
| `Resources.BindEventsAt` | src/engine/renderer/resources.rs:66-73 | Bind pair k is vertex set k followed by index buffer k |
| `Resources.BindEventsShape` | src/engine/renderer/resources.rs:66-73 | `min(len(vertex), len(index))` pairs in list order; pair k binds vertex set k and then index buffer k |
| `Resources.OwnsAfterImage` | src/engine/renderer/resources.rs:51-57 | Pushing a freshly allocated image keeps every allocation owned once, live and unmapped |
| `Resources.OwnsAfterUpload` | src/engine/renderer/resources.rs:34-43 | Each of the three ways an upload can end (vertex failure, index failure, success) keeps ownership sound |
| `Resources.TeardownStep` | src/engine/renderer/resources.rs:85-115 | Each destroy of the teardown finds its allocation live and unmapped, and frees only it |
| `Resources.New` | src/engine/renderer/resources.rs:18-31 | A failing `create_allocator` is `Err` with nothing logged. Otherwise there is one `create_allocator`, and all three lists start empty |
| `Resources.Resources.constructor` | src/engine/renderer/resources.rs:26-30 | The allocator is kept, and the vertex, index and image lists are empty |
| `Resources.Resources.UploadMesh` | src/engine/renderer/resources.rs:34-43 | `uplaod_mesh` forwards to the buffer upload and keeps the ownership invariant and the image list. A vertex-buffer failure leaves both lists unchanged. An index-buffer failure leaves the new vertex entry pushed and the index list unchanged. On success both entries are appended, four handles are used, the two allocations hold the mesh's bytes and the rest of memory is unchanged, and the log gains the two uploads |
| `Resources.Resources.AllocateDepthImage` | src/engine/renderer/resources.rs:46-58 | On success exactly one image is appended and its handle returned; a failed `create_image` changes nothing |
| `Resources.Resources.BindBuffersPerDraw` | src/engine/renderer/resources.rs:61-74 | The log gains exactly the bind pairs of the zip of the two lists |
| `Resources.Resources.Drop` | src/engine/renderer/resources.rs:82-119 | Destroys every (buffer, allocation) pair of every vertex set, then every index buffer, then every image, each once. The allocator goes last. The memory loses exactly the owned allocations |
| `Context.NewCommand` | src/engine/renderer/context/command.rs:11-42 | A pool on the given family, then `image_count` fresh buffers from it. A failed pool is `Err` with nothing logged. A failed buffer allocation is `Err` after the pool exists |
| `Context.DestroyModuleEventsAt` | src/engine/renderer/context.rs:84-93 | Destroy call i is that of module i |
| `Context.DestroyShaderModules` | src/engine/renderer/context.rs:84-93 | The `for_each` logs one destroy per module, in module order |
| `Context.CreateInstance` | src/engine/renderer/context.rs:35-43 | Instance, a debug messenger exactly with `validation`, then the surface; each failure is `Err` |
| `Context.CreateBase` | src/engine/renderer/context.rs:35-46 | Up to the device: success exactly when a device qualifies, no surface query on the way panics, and no step fails. The device handle carries the selected family, capabilities, format and present mode |
| `Context.UnwoundMemory` | src/engine/renderer/context.rs:48-72 | Dropping resources that own nothing, or only the depth image, restores the memory from before the construction |
| `Context.CreateTargets` | src/engine/renderer/context.rs:55-72 | The swapchain, with the chosen extent and `imageCount` images and views, then the depth buffer of the same extent and depth 1, owned by the resources. Every failure leaves the memory unwindable |
| `Context.CreatePipeline` | src/engine/renderer/context.rs:74-93 | The shader handle, the pipeline from its modules, then one destroy per module; a failing pipeline leaves the modules alive |
| `Context.CreateDeviceObjects` | src/engine/renderer/context.rs:55-100 | Swapchain, depth buffer, pipeline and command buffers, with as many command buffers as swapchain images; the log is `ObjectEvents` |
| `Context.CreateOwned` | src/engine/renderer/context.rs:48-100 | The resources come first and start empty; any later failure drops them, giving the allocator memory back |
| `Context.New` | src/engine/renderer/context.rs:34-116 | Success exactly when a device qualifies and its queries succeed (`DeviceReady`), there is a classifiable non-empty shader list and no step fails; `Err` only for a driver fault; every failure leaves the memory as it was. On success the log is `ConstructionTrace` |
| `Context.CreateFence` | src/engine/renderer/context.rs:119-127 | A fresh fence in the requested state, or `Err` with nothing changed |
| `Context.CreateSemaphore` | src/engine/renderer/context.rs:130-138 | A fresh semaphore, or `Err` with nothing changed |
| `Context.ResetFences` | src/engine/renderer/context.rs:141-147 | A wait with a u64::MAX timeout hangs exactly when a fence is unsignalled with nothing pending. A failed wait returns `Err` before any reset. Otherwise the fences are reset: unsignalled, or signalled when the reset fails |
| `Context.ResetCommandBuffers` | src/engine/renderer/context.rs:150-155 | One `reset_command_pool` on the context's pool, or `Err` |
| `Context.GetImage` | src/engine/renderer/context.rs:158-174 | `Err` exactly when acquire fails; an index past either list is a panic. Otherwise it returns `(i, images[i], image_views[i])` |
| `Context.SetPipelineBarrier` | src/engine/renderer/context.rs:177-185 | One `cmd_pipeline_barrier2` with the given barriers |
| `ContextTrace.PipelineTraceParts` | src/engine/renderer/context.rs:74-93 | The pipeline step is the m module creations, the two pipeline calls and the m module destroys |
| `ContextTrace.CreatedAt` | src/engine/renderer/context.rs:74-82 | Position j < m of the step creates module `first + j` from file j |
| `ContextTrace.PipelineAt` | src/engine/renderer/context.rs:76-82 | Position m creates the layout and position m + 1 the graphics pipeline |
| `ContextTrace.DestroyAfterAt` | src/engine/renderer/context.rs:84-93 | Whatever precedes them, the destroy calls name the staged modules in order |
| `ContextTrace.DestroyedAt` | src/engine/renderer/context.rs:84-93 | Position m + 2 + i of the step destroys module `first + i` |
| `ContextTrace.ModulesCreatedFirst` | src/engine/renderer/context.rs:74-82 | The pipeline step starts with the module creations, module i from file i |
| `ContextTrace.PipelineBuiltFromModules` | src/engine/renderer/context.rs:76-82 | Then the layout, then the pipeline; the pipeline's stage i is module `first + i` with file i's stage and "main" |
| `ContextTrace.ModulesDestroyedAfter` | src/engine/renderer/context.rs:84-93 | Module i is destroyed at position m + 2 + i, after the pipeline |
| `ContextTrace.DestroyedOnce` | src/engine/renderer/context.rs:76-93 | Every destroy call of the step is the one destroy of one created module, at that module's place |
| `ContextTrace.TargetEventsShape` | src/engine/renderer/context.rs:55-72 | Swapchain, images, one view per image in order, then the depth image of extent (w, h, 1) and its view |
| `ContextTrace.InstanceEventsShape` | src/engine/renderer/context.rs:35-43 | Instance, then the debug messenger when there is one, then the surface |
| `ContextTrace.BaseEventsShape` | src/engine/renderer/context.rs:35-46 | Then the logical device built from the given candidate and validation flag, then queue 0 of the candidate's family |
| `ContextTrace.ConstructionSteps` | src/engine/renderer/context.rs:35-100 | For the selected candidate, `ConstructionTrace` is the steps in source order: base, allocator, swapchain with depth, pipeline step, command pool with its buffers; each step has a known length |
| `Renderer.CreateSync` | src/engine/renderer.rs:27-32 | A fence created signalled, then the render and present semaphores; each failure is `Err` |
| `Renderer.DropUnwound` | src/engine/renderer.rs:25-32 | Dropping a failed `new`'s resources gives the memory back as before the context |
| `Renderer.New` | src/engine/renderer.rs:23-43 | Success exactly when the context succeeds and the sync objects are created. On success the render fence is signalled, so the first wait does not block, and the log is the construction trace plus the three sync calls. Every failure leaves the memory as it was |
| `Renderer.IndexCount` | src/engine/renderer.rs:168 | `len() as u32`: the length when it fits, and equal to it modulo 2^32 |
| `Renderer.BarriersMatchRendering` | src/engine/renderer.rs:69-158 | Three barriers in the device's family: colour to the layout the colour attachment uses, then on to PRESENT_SRC, and depth to the layout the depth attachment uses |
| `Renderer.DrawLoopDraws` | src/engine/renderer.rs:166-169 | k loop rounds make exactly k draws, each `DrawIndexed(cb, count, 1, 0, 0, 0)` |
| `Renderer.BindEventsDrawNothing` | src/engine/renderer.rs:166-167 | The rebinding before each draw makes no draw |
| `Renderer.FrameDraws` | src/engine/renderer.rs:166-169 | A frame draws once per vertex-buffer entry, every draw into the frame's command buffer with the mesh's index count |
| `Renderer.FrameDrawsAllocated` | src/engine/renderer.rs:166-169 | A frame over the renderer's own resources makes exactly `allocated_buffers_len()` indexed draws, the accessor of src/engine/renderer/resources.rs:76-79 |
| `Renderer.FrameStart` | src/engine/renderer.rs:56-67 | A frame begins with the fence wait with a u64::MAX timeout and the fence reset, the pool reset, the acquire signalling the present semaphore and `begin_command_buffer(command_buffers[0])` |
| `Renderer.BarrierBeforeRendering` | src/engine/renderer.rs:122-164 | Next comes the one barrier call with all three transitions, then begin rendering, then bind pipeline |
| `Renderer.FrameClosing` | src/engine/renderer.rs:171-197 | A frame ends with end rendering, end command buffer, the submit carrying the render fence, and present |
| `Renderer.ShapeSynchronised` | src/engine/renderer.rs:174-197 | Calls that open and close as a frame does are synchronised. The submit waits at COLOR_ATTACHMENT_OUTPUT on the semaphore the acquire signalled, carries the begun command buffer and the waited-on fence, and presents on the semaphore it signals, for the acquired index |
| `Renderer.FrameSynchronised` | src/engine/renderer.rs:174-197 | Every frame's trace has those properties |
| `Renderer.ResetRenderFence` | src/engine/renderer.rs:56 | `reset_fences` on the render fence alone: it hangs exactly when the fence is unsignalled. Otherwise it is `Err`, or the fence goes to unsignalled |
| `Renderer.BeginFrame` | src/engine/renderer.rs:56-67 | Hangs exactly when the wait goes ahead on an unsignalled render fence. Panics exactly when a reset, acquire and pool reset that succeed give an index past the image or view list, or there is no command buffer. `ResetFencesFails` leaves the fence signalled, and any later step leaves it unsignalled. On success it returns the frame of image `acquired` and `command_buffers[0]`, and the log gains `StartEvents` |
| `Renderer.DrawMeshes` | src/engine/renderer.rs:166-169 | The loop logs `DrawLoopEvents` for `allocated_buffers_len()` rounds |
| `Renderer.RecordFrame` | src/engine/renderer.rs:69-171 | The barrier, rendering, pipeline, draw loop and end of rendering, as `RecordEvents` |
| `Renderer.SubmitFrame` | src/engine/renderer.rs:172-197 | `end_command_buffer`, submit (the fence becomes pending), present; each failure returns at once |
| `Renderer.Draw` | src/engine/renderer.rs:46-200 | Hangs exactly when the render fence is unsignalled and the wait is made; a hang logs nothing. Panics exactly when the fence is not unsignalled, none of the wait, fence reset, pool reset and acquire fails, and `Presentable` fails: the acquired index is past the image or view list, or the pool has no command buffer. Succeeds exactly when the fence is not unsignalled, `Presentable` holds and no call fails. The render fence ends in `FenceAfterDraw`: pending only after a submit. A successful frame logs exactly `FrameEvents` with index count `len() as u32` |
| `Renderer.UploadAsset` | src/engine/renderer.rs:203-211 | A load error is `Err` and no model is a panic, both with the log, memory and both lists unchanged. An upload failure is `Err`: a vertex-buffer failure leaves both lists unchanged, and an index-buffer failure leaves the new vertex entry pushed and the index list unchanged. On success the mesh is the first model's, one vertex set and one index buffer are appended, the two allocations hold its bytes and read back as the mesh, the rest of memory is unchanged, and the log gains the two uploads |
| `Renderer.ViewDestroyEventsAt` | src/engine/renderer.rs:223-229 | Destroy call i is that of swapchain view i |
| `Renderer.InstanceTeardown` | src/engine/renderer.rs:246-259 | At least three calls; which calls they are, and their order, is proved in `Renderer.TeardownOrder` and `Renderer.ViewsBeforeSwapchain`: device, surface, the debug messenger when there is one, instance |
| `Renderer.DestroyDeviceObjects` | src/engine/renderer.rs:222-242 | Logs `DeviceTeardown` |
| `Renderer.DestroyInstanceObjects` | src/engine/renderer.rs:246-259 | Logs `InstanceTeardown` |
| `Renderer.Drop` | src/engine/renderer.rs:215-262 | A failing `device_wait_idle` panics before anything is destroyed. Otherwise the log gains `TeardownEvents` and the memory loses exactly the allocations the resources own |
| `Renderer.DeviceTeardownLevel` | src/engine/renderer.rs:222-242 | Every call of lines 222-242 destroys a device-owned object |
| `Renderer.DeviceTeardownShape` | src/engine/renderer.rs:222-235 | Pool, then each swapchain view in order, then the depth view, then the swapchain |
| `Renderer.TeardownOrder` | src/engine/renderer.rs:220-259 | `device_wait_idle` first. Everything the device owns goes before the device, with the allocator last of them. After the device come only surface, messenger and instance, with the instance last |
| `Renderer.ViewsBeforeSwapchain` | src/engine/renderer.rs:222-259 | In the whole teardown, the views precede the swapchain and the surface directly follows the device. With a debug messenger its destroy is next and the instance last; without one the instance follows the surface |

### What the pipeline contract fixes

`Pipeline.New`'s success case says all of the following about the pipeline info:

- the stages are `CreateShaderStages(modules)`, used as given;
- one binding `(0, 24, VERTEX)`;
- the two attributes of `VertexDescription::new`;
- TRIANGLE_LIST;
- one viewport and one scissor at offset (0,0) over the image extent;
- cull FRONT, COUNTER_CLOCKWISE, FILL, one sample;
- depth test and write with LESS_OR_EQUAL;
- one blend attachment writing RGBA;
- colour format `[format]` and depth format D32_SFLOAT;
- the new layout.

## Left out

- **Host glue.** Instance, surface and debug-messenger creation are FFI, as are the event loop, logging and profiling. They appear only as handles and log entries.
- **The renderer's own device module.** `src/engine/renderer/context/device.rs` is not part of this model. `Context.New` uses the backend's selector (`DeviceSelection`) for the device step.
- **File-system and loader work.** The shader directory walk, SPIR-V reading and OBJ parsing are inputs: the walk entries, and the models or `None` for a load error.
- **Floating point.** Floats are opaque 32-bit patterns. The clear colours, the depth clear value 1.0, line width, queue priority and the f32 casts of the viewport are not modelled. A viewport keeps its integer extent.
- **Byte order.** The host is taken to be little-endian in the byte image of vertices and indices.
- `Vk.WrappingAdd`: `min_image_count + 1` is modelled as the release-build wrap. A debug build panics on the overflow instead, and that panic is not modelled.
- **GPU asynchrony.** A submitted fence is `Pending` and the later GPU signal is not modelled. A wait on a pending fence returns; a wait on an unsignalled fence hangs. Semaphore states are not tracked, only which semaphores each call waits on and signals.
- **Driver result codes.** They are abstract: one `Fault` per failing driver call (the surface queries of `DeviceHandle::new` included), and `Err` without the code.
- **Shader file names.** `src/engine/renderer/context/shader.rs:33` prints "TEST" to stdout once per shader file, and that output is not modelled. Both `shader.rs` files take the file name with `file_name().unwrap_or_log().to_str().unwrap()` (src/engine/renderer/context/shader.rs:25-29, src/engine/backend/context/shader.rs:24-28), which panics on a name that is not UTF-8. File names are sequences of characters in the model, so that panic cannot arise.
- **Destroyed fences.** `Renderer.Drop`: `destroy_fence` is logged, but the fence stays in the `Driver.fences` table.
- **Semaphore values.** `Renderer.CreateSync` leaves semaphores as handles with no state.
- `Renderer.New`: its success contract does not restate what `Context.New` promises, namely fresh resources, empty buffer lists and one command buffer per swapchain image. `Context.New` states those.
- **Leaks on a failed `new`.** The handle types of the renderer's context have no `Drop` impl: `InstaceHandle`, `SurfaceHandle`, `DebugHandle`, `SwapchainHandle`, `PipelineHandle`, `Command` and `DepthBuffer`. The only `Drop` impls are those of `Renderer` (src/engine/renderer.rs:215), `Resources` (src/engine/renderer/resources.rs:82), the backend `Context` and the backend `DeviceHandle`. So when `Context::new` fails after a step, or `Renderer::new` fails after the context is built, nothing destroys the Vulkan objects already made. That covers the instance, the debug messenger, the surface, the swapchain and its views, the depth view, the pipeline and its layout, and the command pool, plus the fence and the first semaphore in `Renderer::new`. Only the dropped `Resources` gives something back: the allocator memory of the depth image. The model states exactly that. The log keeps those objects' creations and gains no destroy calls, and every failure leaves `Driver.memory` as it was (`Context.New`, `Renderer.New`, `Renderer.DropUnwound`). The renderer's own `DeviceHandle` is declared in `src/engine/renderer/context/device.rs`, which is not part of this model, so whether the logical device is destroyed then is not modelled.
- `Renderer.Draw`: the log of a draw that fails part-way is not stated beyond the fence state. Which calls precede the failure follows from `BeginFrame`, `RecordFrame` and `SubmitFrame`.
- **Field drops after `Drop for Renderer`.** `Renderer.Drop` models src/engine/renderer.rs:215-259, which destroys every object explicitly and drops the `ManuallyDrop` resources in the middle. The context's fields are dropped afterwards. In the modelled files their types have no `Drop` impl, so those drops do nothing. The one exception could be the renderer's `DeviceHandle`, which is declared in `src/engine/renderer/context/device.rs`. That file is not part of this model, so a second `destroy_device` from a drop of its own is not modelled.
- **`par_chunks_exact` parallelism.** It is modelled as the sequential, order-preserving chunking it is equivalent to.
- **The backend `Context`.** `src/engine/backend/context.rs` is not reachable from the engine. Its device and shader modules are modelled on their own (`DeviceSelection`, `BackendShader`, `BackendSwapchain`).

## Observations

- **A failed draw would hang the next one.** Suppose a draw stops after the fence reset and before `queue_submit`. That happens when the pool reset, the acquire, `begin_command_buffer`, `end_command_buffer` or the submit returns an error, or when an out-of-range index panics (a panic, not a `?` error). The render fence is then left unsignalled, so a caller that drew again would wait forever (`Renderer.FenceAfterDraw`, `Renderer.Draw`). This program never does: `engine.draw().unwrap()` in src/main.rs:43 turns every `Err` from `draw` into a panic, so no further draw happens.
- **Both colour transitions are in one barrier.** They are recorded before rendering begins, so the transition to PRESENT_SRC is ordered before the rendering it should follow (`Renderer.BarrierBeforeRendering`).
- **Leaks in `allocate_buffer`.** A failed map leaks the buffer just created. A failed index upload leaves the vertex entry pushed, so the vertex list is one longer than the index list, and `draw` then binds only the pairs of the zip (`Buffer.AllocateBuffer`, `Buffer.AllocatedBuffers.UploadMesh`, `Resources.BindEventsShape`).
- **Every frame records into the same command buffer.** `command_buffers[0]` is always the one recorded, whatever the acquired index (`Renderer.FrameFor`).
