# GraphicsEngine core, modelled in Dafny

This project models the engine side of a small deferred OpenGL renderer:

- `Input`, the keyboard, mouse and window state that the GLFW callbacks fill in and the engine latches once per frame;
- the two OBJ loaders, which de-duplicate vertices into a vertex list and an index buffer;
- `ResourceManager`, the string-keyed model cache;
- `SceneBase`, a named list of models plus three light lists, with the point lights swinging along x;
- `RenderSystem`:
  - the program cache compiled from the renderer configuration, and the programs `Init` and `Render` look up;
  - the viewport size and projection;
  - the SSAO kernel and noise;
  - the two render loops, and the fixed pass order of one frame;
- `Engine`:
  - the scene registry and the active scene;
  - click-to-select;
  - view-frustum culling;
  - the order of the per-frame updates;
  - the frame counter that restarts once per second.

GPU work is recorded as a trace of abstract commands (`RenderTrace.Command`). The trace keeps only what the renderer itself decides:

- which program is bound;
- which model uniform is set;
- which draws are issued, and with how many indices;
- which light and kernel uniforms are sent.

Modules follow the source files:

| module | file |
|---|---|
| `Wrappers` | `Option`/`Result` |
| `Glm` | vectors over reals |
| `InputSystem` | src/Input.h |
| `ObjIndexing` | the vertex de-duplication shared by src/core/Assets.cpp and src/core/model.cpp |
| `Assets` | src/core/Assets.cpp |
| `Models` | src/core/model.cpp |
| `Resources` | src/resourceManager.cpp |
| `Scenes` | src/SceneBase.cpp |
| `ShaderCache`, `Ssao`, `RenderTrace`, `Rendering` | src/core/RenderSystem.cpp |
| `Engines` | src/Engine.cpp |

Code that updates state in place is modelled as classes:

- `Input`, with its four fixed tables as arrays;
- `Model`;
- `ResourceManager`;
- `SceneBase`;
- `RenderSystem`;
- `Engine`.

Each loop is modelled as a method whose invariant ties it to a specification function. Lemmas state the properties of those functions.

Oracles. The following are function-typed parameters, because their code is not part of this model:

- the OBJ parser (its output, `Assets.ObjParse`);
- the GL program factory;
- `glm::normalize`;
- the stream of values the default-seeded random engine yields;
- the frustum test;
- the ray/box test.

## Model

| member | source | states |
|---|---|---|
| InputSystem.Input.constructor | src/Input.h:12-16 | every key and mouse button starts released in both the current and the previous table, and the flags and sizes start at zero |
| InputSystem.Input.Update | src/Input.h:30-37 | the new state is `Latched` of the old one: the moved and resize flags are cleared and the current tables are copied into the previous ones; afterwards no key and no button reads as pressed (the `IsKeyPressed` press edge of lines 43-49 and the `IsMousePressed` edge of lines 60-66 are both false), and the current tables, position, scroll and size are unchanged |
| InputSystem.Input.KeyPressed | src/Input.h:125-139 | for a key in 0..1023, action 1 sets it down and action 0 sets it up; any other key or action changes nothing, and no other key changes |
| InputSystem.Input.MousePressed | src/Input.h:97-111 | the same rule over buttons 0..7 |
| InputSystem.Input.MouseMoved | src/Input.h:90-94 | raises the moved flag and stores the position; scroll, resize flag and size are kept |
| InputSystem.Input.MouseScroll | src/Input.h:114-117 | stores both offsets and nothing else |
| InputSystem.Input.WindowResized | src/Input.h:142-146 | raises the resize flag and stores each `int` as a `size_t` (modulo 2^64, so a non-negative size is stored as is) |
| ObjIndexing.AssembleAll | src/core/Assets.cpp:34-49 | one vertex per index record, in record order: position and normal triples at 3×index and the uv pair at 2×index with v flipped |
| ObjIndexing.ShapeVertices | src/core/Assets.cpp:30-32 | the vertices of all shapes, shape after shape: as many as there are index records |
| ObjIndexing.IndexOf | src/core/Assets.cpp:51-57 | the first position of a vertex in the vertex list, exactly when it occurs there, and the list's length otherwise |
| ObjIndexing.IndexMeshCorrect | src/core/Assets.cpp:30-61 | de-duplication yields one index per input vertex; every index is in range and names a copy of its vertex; the vertex list has no repetitions and holds exactly the input's vertices |
| ObjIndexing.FirstOccurrencesElements | src/core/Assets.cpp:51-55 | the de-duplicated vertex list holds exactly the vertices of the stream |
| ObjIndexing.FirstOccurrencesDistinct | src/core/Assets.cpp:51-55 | the de-duplicated vertex list has no repetitions |
| ObjIndexing.IndexOfDistinct | src/core/Assets.cpp:53 | in a list without repetitions, the element at i is found at i |
| ObjIndexing.NewVertexIndex | src/core/Assets.cpp:51-57 | a vertex not seen before is appended, and its index is the number of vertices before the push |
| ObjIndexing.IndexMeshPrefix | src/core/Assets.cpp:30-59 | reading more records only appends to the vertex list and the index buffer |
| ObjIndexing.ConsistentIsIndexMesh | src/core/Assets.cpp:26-28 | a loader state with vertex list, index list and map consistent with the stream seen is exactly the reference de-duplication of that stream |
| ObjIndexing.ConsistentNewVertex | src/core/Assets.cpp:51-57 | the branch for a vertex missing from the map keeps the state consistent |
| ObjIndexing.ConsistentSeenVertex | src/core/Assets.cpp:57 | the branch for a vertex already in the map keeps the state consistent |
| ObjIndexing.AppendRecords | src/core/Assets.cpp:32-58 | the inner record loop leaves the state consistent with everything seen before plus the records' vertices |
| Assets.LoadObjFile | src/core/Assets.cpp:13-62 | a failed parse is the runtime error with the warning and error text; otherwise the single mesh is the de-duplication of the vertices of all shapes together |
| Models.Model.FromMesh | src/core/model.cpp:14-17 | keeps the name and ignores the mesh: no meshes, empty path, not selected |
| Models.Model.Loaded | src/core/model.cpp:6-12 | keeps path, name and the loaded meshes; not selected |
| Models.Model.Copy | src/resourceManager.cpp:19 | the copy has the original's name, path, meshes and selection flag |
| Models.CumulativeMeshes | src/core/model.cpp:36-67 | one mesh per shape |
| Models.PerShapeMeshes | src/core/model.cpp:36-67 | one mesh per shape |
| Models.LoadModelAsWritten | src/core/model.cpp:19-67 | as written: a failed parse throws before any mesh is pushed; otherwise mesh k is the de-duplication of the records of shapes 0..k, since the buffers are never reset |
| Models.CumulativeMeshRepeatsPrevious | src/core/model.cpp:32-66 | as written, mesh k starts with the whole of mesh k-1, in its vertices and its indices, and adds exactly shape k's index count |
| Models.LoadModel | src/core/model.cpp:19-67 | corrected: same error path; otherwise mesh k is the de-duplication of shape k's records alone |
| Models.PerShapeMeshExact | src/core/model.cpp:36-66 | corrected: mesh k has one index per record of shape k, each naming that record's vertex, and its vertex list has no repetitions |
| Models.Load | src/core/model.cpp:6-12 | constructing from a path runs the loader as written: it fails exactly when the parse fails, with the load error; otherwise a fresh, unselected model with that name and path whose meshes are the cumulative ones (mesh k holds shapes 0..k) |
| Resources.ResourceManager.constructor | src/resourceManager.cpp:3-22 | the cache starts empty |
| Resources.ResourceManager.GetModel | src/resourceManager.cpp:3-13 | a path that is a key returns its entry and changes nothing; otherwise the model is loaded from the path as `Models.Load` does, with the cumulative meshes; a load failure propagates and leaves the cache, and a loaded model is `try_emplace`d under the name, with the entry under the name returned |
| Resources.ResourceManager.CacheModel | src/resourceManager.cpp:15-22 | with overwrite, or for a new name, a fresh copy is stored under the name and returned; otherwise the existing entry is returned and the cache is unchanged |
| Resources.GetModelHit | src/resourceManager.cpp:5-12 | a hit on the path returns the cached entry and leaves the cache as it is, whatever the load would do |
| Resources.GetModelMissStoresUnderName | src/resourceManager.cpp:7-10 | on a miss the entry goes under the name; the path becomes a key only when it equals the name; an existing name keeps its entry, which is returned |
| Resources.GetModelRepeats | src/resourceManager.cpp:3-13 | with name different from path, the path never becomes a key: a second call loads again, leaves the cache, and returns the first call's entry (or the new load's error) |
| Resources.CacheModelOverwrite | src/resourceManager.cpp:17-20 | overwriting stores the copy under the name and keeps every other key and entry |
| Resources.CacheModelKeep | src/resourceManager.cpp:21 | without overwrite an existing name keeps its entry, which is returned |
| Resources.ApplyKeeps | src/resourceManager.cpp:3-22 | no call removes a key, and only an overwriting `CacheModel` replaces an entry |
| Resources.RunOnlyGrows | src/resourceManager.cpp:3-22 | over any sequence of calls the set of keys only grows |
| Resources.RunKeepsEntries | src/resourceManager.cpp:9-21 | without overwriting calls, every stored entry survives every later call unchanged |
| Scenes.SceneBase.constructor | src/SceneBase.cpp:8-12 | an empty scene: no name, no models, no lights |
| Scenes.SceneBase.Init | src/SceneBase.cpp:8-12 | stores the name and nothing else |
| Scenes.SceneBase.AddModel | src/SceneBase.cpp:50-53 | appends the model at the end; nothing else changes |
| Scenes.SceneBase.AddDirectionalLight | src/SceneBase.cpp:32-35 | appends to the directional list only |
| Scenes.SceneBase.AddPointLight | src/SceneBase.cpp:38-41 | appends to the point list only |
| Scenes.SceneBase.AddSpotLight | src/SceneBase.cpp:44-47 | appends to the spot list only |
| Scenes.SceneBase.Update | src/SceneBase.cpp:15-29 | visits the point lights in order; each moves by 2·dt in the flag's direction, and the flag flips when x reaches ±10; models and the other lights are unchanged |
| Scenes.MoveLightsOnlyX | src/SceneBase.cpp:17-28 | the update keeps the number of point lights, their colours and their y and z, and moves each x by exactly 2·dt one way or the other |
| ShaderCache.BuiltCacheKeys | src/core/RenderSystem.cpp:400-422 | after compiling, a name is cached exactly when some program of that name compiled |
| ShaderCache.BuiltCacheFirstWins | src/core/RenderSystem.cpp:416-419 | among programs sharing a name, the first that compiles provides the cached program (`try_emplace`) |
| ShaderCache.LookupAll | src/core/RenderSystem.cpp:189-198 | `at` in order: success exactly when every name is cached, with each name's program; otherwise the first missing name is the error, with every earlier name present |
| ShaderCache.LookupBuiltSucceeds | src/core/RenderSystem.cpp:89-93 | looking names up in a freshly compiled cache succeeds exactly when every name has some program of that name that compiled |
| Ssao.LerpBetween | src/core/RenderSystem.cpp:39-42 | for f in [0, 1], `ourLerp` stays between its ends and grows with f |
| Ssao.KernelScaleBounds | src/core/RenderSystem.cpp:726-727 | each of the 64 samples is scaled by a factor in [0.1, 1) |
| Ssao.KernelScaleMonotone | src/core/RenderSystem.cpp:726-727 | later samples are never scaled less than earlier ones, so samples cluster near the centre |
| Ssao.Kernel | src/core/RenderSystem.cpp:719-730 | the kernel has 64 samples |
| Ssao.Noise | src/core/RenderSystem.cpp:734-738 | the noise has 16 vectors |
| Ssao.NoiseInTangentPlane | src/core/RenderSystem.cpp:734-738 | every noise vector has z = 0 and x, y in [-1, 1) |
| RenderTrace.CollectAppend | src/core/RenderSystem.cpp:180-378 | projecting a trace distributes over concatenation |
| RenderTrace.MeshDrawsCollect | src/core/RenderSystem.cpp:464-499 | the mesh loop issues one draw per mesh, with its index count, in order |
| RenderTrace.MeshDrawsKeepModel | src/core/RenderSystem.cpp:513-518 | the mesh loop sets no model uniform and binds no program |
| RenderTrace.ModelDrawsCollect | src/core/RenderSystem.cpp:449-522 | both render loops set the model uniform once per entry in render-list order, draw every mesh with its index count, and bind no program |
| RenderTrace.MeshCountsLength | src/core/RenderSystem.cpp:504-522 | a render loop issues as many draws as there are meshes in the render list |
| RenderTrace.KernelUploads | src/core/RenderSystem.cpp:266-267 | exactly 64 kernel uniforms are sent |
| RenderTrace.KernelUploadIndices | src/core/RenderSystem.cpp:266-267 | the kernel uniforms are samples 0..63, in order |
| RenderTrace.ShadowLoopLights | src/core/RenderSystem.cpp:224-245 | the shadow loop sends one light's uniforms per point light, in order |
| RenderTrace.ShadowLoopDraws | src/core/RenderSystem.cpp:224-245 | each round of the shadow loop draws every mesh of the render list once, in order |
| RenderTrace.LightBoxesCollect | src/core/RenderSystem.cpp:357-367 | one light box per point light, in order |
| RenderTrace.FramePrograms | src/core/RenderSystem.cpp:224-367 | a frame binds, in this order: Shadows, GeometryPass, SSAO, SSAOBlur, LightingPass, DeferredLightBox |
| RenderTrace.FrameShadowLights | src/core/RenderSystem.cpp:224-245 | the per-light shadow uniforms of a frame are exactly lights 0..n-1, in order |
| RenderTrace.FrameDraws | src/core/RenderSystem.cpp:224-259 | a frame draws the render list's meshes once per point light in the shadow pass, then once more in the geometry pass |
| RenderTrace.FrameDrawCount | src/core/RenderSystem.cpp:224-259 | a frame issues (lights + 1) × meshes draw calls |
| RenderTrace.FrameKernel | src/core/RenderSystem.cpp:261-280 | a frame uploads kernel samples 0..63, once each, in order |
| RenderTrace.FrameLightCount | src/core/RenderSystem.cpp:291-336 | the light count is sent exactly once per frame, and it is the number of point lights |
| RenderTrace.FrameLightBoxes | src/core/RenderSystem.cpp:354-367 | a frame draws one light box per point light, in order |
| Rendering.RenderSystem.constructor | src/core/RenderSystem.cpp:180-198 | an empty renderer whose frame lookups are the nine programs `Render` asks for |
| Rendering.RenderSystem.CompileShaders | src/core/RenderSystem.cpp:400-422 | the cache becomes the one built from the configured programs (cleared, then `try_emplace` of each program the factory builds); nothing else changes |
| Rendering.RenderSystem.SetupSsaoBuffer | src/core/RenderSystem.cpp:687-747 | appends the 64 kernel samples and the 16 noise vectors drawn from one random stream; nothing else changes |
| Rendering.RenderSystem.SampleKernel | src/core/RenderSystem.cpp:714-730 | the kernel loop yields exactly `Kernel` of the draws: sample i takes draws 4i to 4i + 3, is normalised, scaled by its draw and by the lerp of (i / 64) squared |
| Rendering.RenderSystem.SampleNoise | src/core/RenderSystem.cpp:732-738 | the noise loop yields exactly `Noise` of the draws: vector j takes the two draws after the kernel's 256, with z = 0 |
| Rendering.RenderSystem.Init | src/core/RenderSystem.cpp:44-148 | takes size and programs from the configuration, compiles, builds the SSAO data; the result names the first of the five `Init` programs missing from the cache, exactly when one is missing |
| Rendering.RenderSystem.UpdateView | src/core/RenderSystem.cpp:392-397 | the projection is recomputed for the current size |
| Rendering.RenderSystem.Update | src/core/RenderSystem.cpp:151-168 | only on a resize are the size copied from the input and the projection recomputed; cache and SSAO data are kept |
| Rendering.RenderSystem.Shutdown | src/core/RenderSystem.cpp:171-177 | deletes the program of every cache entry, exactly once each, and nothing else |
| Rendering.RenderSystem.RenderModels | src/core/RenderSystem.cpp:449-522 | the loops issue exactly `ModelDraws` of the render list |
| Rendering.RenderSystem.ShadowPass | src/core/RenderSystem.cpp:224-245 | the shadow stage: bind, per light its uniforms and an untextured render loop |
| Rendering.RenderSystem.SsaoPass | src/core/RenderSystem.cpp:261-280 | the SSAO stage: bind, the first 64 kernel samples, the screen quad |
| Rendering.RenderSystem.LightingPass | src/core/RenderSystem.cpp:291-336 | the lighting stage: bind, per light its uniforms, the light count, the screen quad |
| Rendering.RenderSystem.LightBoxPass | src/core/RenderSystem.cpp:354-367 | the light boxes: bind, one cube per point light |
| Rendering.RenderSystem.Render | src/core/RenderSystem.cpp:180-378 | the first of the nine programs missing from the cache is the error; otherwise the frame is the fixed pass sequence over the scene's point lights and the render list |
| Rendering.InitThenRender | src/core/RenderSystem.cpp:189-198 | after compiling a configuration, a frame can be rendered exactly when each of the nine programs compiled under its name |
| Engines.Visible | src/Engine.cpp:269-305 | the render list is never longer than the scene |
| Engines.KeptIndices | src/Engine.cpp:276-282 | the render list is the scene's subsequence at increasing positions, and those positions are exactly the ones whose test answers INSIDE or INTERSECT |
| Engines.VisibleMembers | src/Engine.cpp:278-281 | a model is in the render list exactly when it is in the scene and not OUTSIDE |
| Engines.VisibleAppend | src/Engine.cpp:276-282 | culling distributes over concatenation, so the scene's order is kept |
| Engines.VisibleAll | src/Engine.cpp:276-282 | when nothing is OUTSIDE, the render list is the whole scene |
| Engines.FirstHit | src/Engine.cpp:212-222 | the first position the ray meets, with no hit before it, or the length when there is none |
| Engines.SelectFirstHit | src/Engine.cpp:212-222 | the loop stops at the first hit; that model ends selected, the models before it end deselected, and later ones keep their flag |
| Engines.RegisterAllKeys | src/Engine.cpp:104-107 | a name is registered exactly when some added scene carries it |
| Engines.RegisterAllFirstWins | src/Engine.cpp:104-107 | the first scene added under a name is the one kept |
| Engines.FrameCountNoTick | src/Engine.cpp:253 | with no one-second flag, the counter holds the number of frames modulo 2^32 |
| Engines.FrameCountSinceTick | src/Engine.cpp:182-191 | after the last flag, at frame i, the counter holds the frames from i on (modulo 2^32) |
| Engines.FrameCountStep | src/Engine.cpp:182-253 | one pass of the loop restarts the counter when the flag is up, then counts the frame |
| Engines.Ticks | src/Engine.cpp:170-172 | one flag per frame |
| Engines.Engine.constructor | src/Engine.cpp:72-101 | an engine over the given input and renderer, with no scenes and no active scene |
| Engines.Engine.AddScene | src/Engine.cpp:104-107 | `try_emplace` under the scene's name; the active scene is kept |
| Engines.Engine.SetActiveScene | src/Engine.cpp:110-122 | an unknown name changes nothing; a known one becomes active and the projection is recomputed, with the rest of the renderer unchanged |
| Engines.Engine.CullViewFrustum | src/Engine.cpp:269-305 | the render list is `Visible` of the active scene's models |
| Engines.Engine.Pick | src/Engine.cpp:195-223 | the loop runs exactly on the press edge of mouse button 1, and then selects the first hit as `SelectFirstHit` states; otherwise no flag changes |
| Engines.Engine.Deliver | src/Engine.cpp:20-55 | the input state after one callback is `Delivered` of the old one: a key or button callback sets or clears its table entry on press or release (an out-of-range code does nothing), a cursor callback sets the moved flag and position, a scroll the offsets, a resize the flag and the size, and text changes nothing |
| Engines.Engine.DeliverAll | src/Engine.cpp:20-55 | the callbacks of a frame, in order: the new input state is `DeliveredAll` of the old one |
| Engines.DeliveredAllParts | src/Input.h:90-146 | each kind of callback reaches only its own part of the state: without a key event the key table is kept, without a button event the button table, without a resize event the flag and size; the previous-frame tables are never touched |
| Engines.NoEventsNoPress | src/Input.h:30-49 | after the latch, a frame with no key and no button callback has current tables equal to the previous ones, so no press edge can fire |
| Engines.Engine.Advance | src/Engine.cpp:193-239 | the first half of a frame: on the press edge of button 1 each model's flag becomes `Picked` (the first hit selected, the models before it deselected, later ones kept), otherwise flags are kept; the input is `DeliveredAll` of the latched old input; the point lights and direction move as `MoveLights` by dt; the scene's name, model list and other lights are kept |
| Engines.Engine.RunFrame | src/Engine.cpp:193-246 | everything `Advance` states; a pending resize gives the renderer the input's size and its projection, otherwise size and projection are kept; the frame fails exactly when a `Render` lookup fails, with that name; a frame that renders yields `FrameTrace` of the looked-up programs, the moved point lights, the visible models of the scene, the kernel and the size; models, cache and kernel are kept |
| Engines.Engine.Pass | src/Engine.cpp:178-252 | one pass of the loop: the lookup outcome decides whether the frame renders, with the lookup's error when it does not; a frame that renders moves the counter by `CounterStep` of the one-second flag; models, cache and kernel are kept |
| Engines.Engine.MainLoop | src/Engine.cpp:175-254 | with every program present, every frame renders and the counter is `FrameCount` of the flags; otherwise the first frame ends the loop with the missing name |
| Engines.Engine.Execute | src/Engine.cpp:156-257 | no active scene stops at once with the abort message; otherwise the main loop runs and, when it ends normally, every cached program is deleted once |

## Left out

- Engines.Engine.Execute: each frame's trace is stated by `RunFrame` (`FrameTrace` of that frame's state). `Execute` and `MainLoop` give the number of traces and the counter, not their contents.
- Engines.Engine.Pass: states the counter step and the lookup outcome of one pass, not the frame's effects, which `RunFrame` states. This keeps the main loop's proof small.
- ObjIndexing.Vertex: vertices are compared by structural equality over reals. `Vertex::operator==` is only declared (src/core/vertex.h:11) and its definition is not part of this model, so a comparison with a tolerance, or by position alone, is not captured.
- InputSystem.Input.IsKeyPressed, IsKeyHeld, IsMousePressed, IsMouseHeld are plain predicates over the tables, with no ensures of their own. They are stated through `Update`, `KeyPressed`, `MousePressed` and `Pick`.
- InputSystem.Input.TextInput: the source handler is empty. It is modelled, with no contract.
- Window events are given as a per-frame list of callbacks. The window, GLFW, the camera, the GUI and the swap chain are not part of this model.
- The one-second timer is a per-frame flag. Frame time, FPS and memory statistics (src/Engine.cpp:60-69, 184-187) are not modelled.
- `Execute` runs over a finite sequence of frames instead of until the window closes.
- `std::abort` on a missing active scene is a `Failure`. The `gladLoad` abort and the configuration loading in the `Engine` constructor are not modelled: the constructor takes an initialised input and renderer.
- `rayIntersectsBoundingBox`, `glm::unProject`, `ViewFrustum::TestIntersection` and `glm::normalize` are parameters.
- The lookups in `Render` and `Init` are function-local `static` references, so the source performs them on the first call only. The model looks them up on every call. The cache never changes after `Init`, so each call finds the same programs. The model does not capture those static references outliving a later `compileShaders`, which clears the map.
- Floats and doubles are reals: no rounding, no NaN. The `uint32_t` index cast and the `int` casts of `NR_LIGHTS` and the blit size are not modelled.
- Random draws are taken left to right inside each sample. C++ leaves the order of argument evaluation unspecified.
- Light attenuation and radius (the `sqrt` at src/core/RenderSystem.cpp:326-328) are not modelled.
- The shadow transforms and the six-face matrices are one abstract command per light.
- The light-box cube mesh is one command per light.
- `renderShadowMap`, `renderDepthPass`, the screen quad setup, the G-buffer setup and the framebuffers are GL-only and not modelled.
- The bool result of `Model::loadModel` is not modelled: the function falls off its end without a `return`. The `cerr` and `cout` messages of `Model(Path, Name)` and elsewhere are not modelled either.
- Model materials, textures and bounding boxes are not modelled. The textured render loop records the albedo binding as one command per mesh.
- The definition of `StaticSpotLight` and the initial value of `SceneBase::direction` (SceneBase.h) are not part of this model: the scene constructor takes the flag as a parameter.
- `ResourceManager::ReleaseAllResources` and `GUISystem::Shutdown` are not modelled. Of the engine shutdown, only the renderer's program deletion is.
- `GetModel` looks up by path but stores under the name. This is the source's own behaviour and is modelled as written (`Resources.GetModelRepeats`).

## Findings

| source | as written | input that shows it | evidently intended | confidence | as-written member | corrected member |
|---|---|---|---|---|---|---|
| src/core/model.cpp:32-66 | `vertices`, `indices` and `uniqueVertices` are declared once, outside the shape loop. So the mesh pushed after shape k holds the records of shapes 0..k. | An OBJ file with two shapes: the second mesh repeats the whole first mesh, and shape 0 is drawn twice. | One mesh per shape, built from that shape's records only. `Models.Load` and `GetModel` keep the loader as written; `LoadModel` is the corrected loader, with its property proved. | medium, not executed | Models.LoadModelAsWritten, Models.CumulativeMeshRepeatsPrevious | Models.LoadModel, Models.PerShapeMeshExact |
