/**
 * The bookkeeping of `RenderSystem` (src/core/RenderSystem.cpp): the
 * program cache built from the renderer configuration, the viewport size
 * and projection, the SSAO kernel and noise, the render loops and the pass
 * order of one frame.  GPU work is recorded as the commands of RenderTrace.
 */
module Rendering {
  import opened Wrappers
  import opened Glm
  import opened Models
  import opened Scenes
  import opened ShaderCache
  import opened RenderTrace
  import opened Ssao
  import opened InputSystem

  /** `m_projMatrix`: the camera's projection for a viewport size (the matrix entries are not modelled). */
  datatype Projection = Projection(width: nat, height: nat)

  /** The `Renderer` node of the engine configuration: its size attributes and its `Program` entries in order. */
  datatype RendererConfig = RendererConfig(width: nat, height: nat, programs: seq<ProgramDesc>)

  /** The programs `Init` binds to set their sampler units, in lookup order. */
  const InitPrograms: seq<string> := ["Deferred", "LightingPass", "SSAO", "SSAOBlur", "PostProcess_HDR"]

  class RenderSystem {
    var width: nat
    var height: nat
    /** The `Program` entries of `m_rendererNode`. */
    var programs: seq<ProgramDesc>
    var shaderCache: Cache
    var ssaoKernel: seq<Vec3>
    var ssaoNoise: seq<Vec3>
    var projection: Projection
    /** The programs `Render` looks up, in order: always `RenderPrograms`. */
    const lookups: seq<string>

    constructor ()
      ensures lookups == RenderPrograms
      ensures width == 0 && height == 0 && programs == [] && shaderCache == map[]
      ensures ssaoKernel == [] && ssaoNoise == [] && projection == Projection(0, 0)
    {
      width, height := 0, 0;
      programs := [];
      shaderCache := map[];
      ssaoKernel, ssaoNoise := [], [];
      projection := Projection(0, 0);
      lookups := RenderPrograms;
    }

    /**
     * `compileShaders`: empties the cache, then for each program gathers its
     * shader stages in document order and keeps the factory's result, if
     * any, under the program's name unless that name is already present.
     */
    method CompileShaders(factory: Factory)
      modifies this
      ensures shaderCache == BuiltCache(programs, factory)
      ensures width == old(width) && height == old(height) && programs == old(programs)
      ensures ssaoKernel == old(ssaoKernel) && ssaoNoise == old(ssaoNoise) && projection == old(projection)
    {
      shaderCache := map[];
      var p := 0;
      while p < |programs|
        invariant 0 <= p <= |programs|
        invariant shaderCache == BuiltCache(programs[..p], factory)
        invariant width == old(width) && height == old(height) && programs == old(programs)
        invariant ssaoKernel == old(ssaoKernel) && ssaoNoise == old(ssaoNoise) && projection == old(projection)
      {
        var program := programs[p];
        var stages: seq<ShaderStage> := [];
        var j := 0;
        while j < |program.shaders|
          invariant 0 <= j <= |program.shaders|
          invariant stages == program.shaders[..j]
        {
          var shader := program.shaders[j];
          stages := stages + [ShaderStage(shader.path, shader.kind)];
          j := j + 1;
        }
        assert stages == program.shaders;
        assert programs[..p + 1][..p] == programs[..p];
        var built := factory(program.name, stages);
        if built.Some? && program.name !in shaderCache {
          shaderCache := shaderCache[program.name := built.value];
        }
        p := p + 1;
      }
      assert programs[..p] == programs;
    }

    /**
     * The kernel and noise loops of `setupSSAOBuffer`: 64 kernel samples and
     * 16 noise vectors are appended, drawing from a freshly constructed,
     * default-seeded engine.
     */
    method SetupSsaoBuffer(draws: Draws, normalize: Vec3 -> Vec3)
      modifies this
      ensures ssaoKernel == old(ssaoKernel) + Kernel(draws, normalize)
      ensures ssaoNoise == old(ssaoNoise) + Noise(draws)
      ensures width == old(width) && height == old(height) && programs == old(programs)
      ensures shaderCache == old(shaderCache) && projection == old(projection)
    {
      var kernel := SampleKernel(draws, normalize);
      var noise := SampleNoise(draws);
      ssaoKernel := ssaoKernel + kernel;
      ssaoNoise := ssaoNoise + noise;
    }

    /** The kernel loop: sample i takes draws 4i to 4i + 3 and is scaled by its lerp. */
    static method SampleKernel(draws: Draws, normalize: Vec3 -> Vec3) returns (kernel: seq<Vec3>)
      ensures kernel == Kernel(draws, normalize)
    {
      kernel := [];
      var next := 0;
      var i := 0;
      while i < KernelSize
        invariant 0 <= i <= KernelSize && next == 4 * i
        invariant kernel == Kernel(draws, normalize)[..i]
      {
        var sample := Vec3(draws(next) * 2.0 - 1.0, draws(next + 1) * 2.0 - 1.0, draws(next + 2));
        sample := normalize(sample);
        sample := Scale(sample, draws(next + 3));
        next := next + 4;
        var scale := i as real / 64.0;
        scale := Lerp(0.1, 1.0, scale * scale);
        sample := Scale(sample, scale);
        assert sample == KernelSample(draws, normalize, i);
        assert Kernel(draws, normalize)[..i + 1] == Kernel(draws, normalize)[..i] + [sample];
        kernel := kernel + [sample];
        i := i + 1;
      }
      assert Kernel(draws, normalize)[..i] == Kernel(draws, normalize);
    }

    /** The noise loop: vector j takes the two draws after the kernel's, at 256 + 2j. */
    static method SampleNoise(draws: Draws) returns (noise: seq<Vec3>)
      ensures noise == Noise(draws)
    {
      noise := [];
      var next := 4 * KernelSize;
      var j := 0;
      while j < NoiseSize
        invariant 0 <= j <= NoiseSize && next == 4 * KernelSize + 2 * j
        invariant noise == Noise(draws)[..j]
      {
        var v := Vec3(draws(next) * 2.0 - 1.0, draws(next + 1) * 2.0 - 1.0, 0.0);
        next := next + 2;
        assert v == NoiseSample(draws, j);
        assert Noise(draws)[..j + 1] == Noise(draws)[..j] + [v];
        noise := noise + [v];
        j := j + 1;
      }
      assert Noise(draws)[..j] == Noise(draws);
    }

    /**
     * `Init`: takes the size and program list from the configuration,
     * compiles the programs and builds the SSAO data; the first of
     * `InitPrograms` missing from the cache is the `std::out_of_range` that
     * ends initialisation (the state changes before it remain).
     */
    method Init(config: RendererConfig, factory: Factory, draws: Draws, normalize: Vec3 -> Vec3)
      returns (missing: Option<string>)
      modifies this
      ensures width == config.width && height == config.height && programs == config.programs
      ensures shaderCache == BuiltCache(config.programs, factory)
      ensures ssaoKernel == old(ssaoKernel) + Kernel(draws, normalize)
      ensures ssaoNoise == old(ssaoNoise) + Noise(draws)
      ensures projection == old(projection)
      ensures missing.None? <==> LookupAll(shaderCache, InitPrograms).Success?
      ensures missing.Some? ==> LookupAll(shaderCache, InitPrograms) == Failure(missing.value)
    {
      programs := config.programs;
      width, height := config.width, config.height;
      CompileShaders(factory);
      SetupSsaoBuffer(draws, normalize);
      var found := LookupAll(shaderCache, InitPrograms);
      missing := if found.Failure? then Some(found.error) else None;
    }

    /** `UpdateView`: recomputes the projection for the current size. */
    method UpdateView()
      modifies this
      ensures projection == Projection(width, height)
      ensures width == old(width) && height == old(height) && programs == old(programs)
      ensures shaderCache == old(shaderCache) && ssaoKernel == old(ssaoKernel) && ssaoNoise == old(ssaoNoise)
    {
      projection := Projection(width, height);
    }

    /**
     * `Update`: only when the input reports a resize are the size copied
     * from it and the projection recomputed; nothing else changes.
     */
    method Update(input: Input)
      modifies this
      ensures input.shouldResize ==>
        width == input.width && height == input.height && projection == Projection(input.width, input.height)
      ensures !input.shouldResize ==>
        width == old(width) && height == old(height) && projection == old(projection)
      ensures programs == old(programs) && shaderCache == old(shaderCache)
      ensures ssaoKernel == old(ssaoKernel) && ssaoNoise == old(ssaoNoise)
    {
      if input.shouldResize {
        width := input.width;
        height := input.height;
        UpdateView();
      }
    }

    /**
     * `Shutdown`: deletes the program of every cache entry, each exactly
     * once, in the map's own (unspecified) order.
     */
    method Shutdown() returns (deleted: seq<(string, ProgramHandle)>)
      ensures forall k :: 0 <= k < |deleted| ==> deleted[k].0 in shaderCache && deleted[k].1 == shaderCache[deleted[k].0]
      ensures forall name :: name in shaderCache ==> exists k :: 0 <= k < |deleted| && deleted[k].0 == name
      ensures forall i, j :: 0 <= i < j < |deleted| ==> deleted[i].0 != deleted[j].0
    {
      deleted := [];
      var remaining := shaderCache.Keys;
      while remaining != {}
        invariant remaining <= shaderCache.Keys
        invariant forall k :: 0 <= k < |deleted| ==>
          deleted[k].0 in shaderCache && deleted[k].0 !in remaining && deleted[k].1 == shaderCache[deleted[k].0]
        invariant forall name :: name in shaderCache ==>
          name in remaining || exists k :: 0 <= k < |deleted| && deleted[k].0 == name
        invariant forall i, j :: 0 <= i < j < |deleted| ==> deleted[i].0 != deleted[j].0
        decreases |remaining|
      {
        var name :| name in remaining;
        ghost var before := deleted;
        deleted := deleted + [(name, shaderCache[name])];
        remaining := remaining - {name};
        assert deleted[|before|].0 == name;
        assert forall k :: 0 <= k < |before| ==> deleted[k] == before[k];
      }
    }

    /**
     * `renderModelsWithTextures` (textured) and `renderModelsNoTextures`:
     * the render list in order, the model uniform per entry, then per mesh
     * the albedo binding when textured and one indexed draw.
     */
    method RenderModels(models: seq<Model>, textured: bool) returns (cmds: seq<Command>)
      ensures cmds == ModelDraws(models, textured)
    {
      cmds := [];
      var i := 0;
      while i < |models|
        invariant 0 <= i <= |models|
        invariant cmds == ModelDraws(models[..i], textured)
      {
        var model := models[i];
        var meshes := model.meshes;
        assert models[..i + 1][..i] == models[..i];
        cmds := cmds + [SetModel(model)];
        var j := 0;
        while j < |meshes|
          invariant 0 <= j <= |meshes|
          invariant cmds == ModelDraws(models[..i], textured) + [SetModel(model)] + MeshDraws(meshes[..j], textured)
        {
          assert meshes[..j + 1][..j] == meshes[..j];
          if textured {
            cmds := cmds + [BindAlbedo];
          }
          cmds := cmds + [DrawElements(meshes[j].IndexCount())];
          j := j + 1;
        }
        assert meshes[..j] == meshes;
        i := i + 1;
      }
      assert models[..i] == models;
    }

    /** Step 0 of `Render`: per point light its uniforms, then the untextured render loop. */
    method ShadowPass(h: ProgramHandle, lights: seq<PointLight>, models: seq<Model>) returns (cmds: seq<Command>)
      ensures cmds == ShadowStage(h, lights, models)
    {
      cmds := [UseProgram("Shadows", h)];
      var i := 0;
      while i < |lights|
        invariant 0 <= i <= |lights|
        invariant cmds == [UseProgram("Shadows", h)] + ShadowLoop(lights[..i], models)
      {
        assert lights[..i + 1][..i] == lights[..i];
        cmds := cmds + [SetShadowLight(i, lights[i].position)];
        var draws := RenderModels(models, false);
        cmds := cmds + draws;
        i := i + 1;
      }
      assert lights[..i] == lights;
    }

    /** Step 2 of `Render`: the first 64 kernel samples, then the screen quad. */
    method SsaoPass(h: ProgramHandle, kernel: seq<Vec3>) returns (cmds: seq<Command>)
      requires |kernel| >= UploadedSamples
      ensures cmds == SsaoStage(h, kernel)
    {
      cmds := [UseProgram("SSAO", h)];
      var i := 0;
      while i < UploadedSamples
        invariant 0 <= i <= UploadedSamples
        invariant cmds == [UseProgram("SSAO", h)] + KernelUploads(kernel)[..i]
      {
        assert KernelUploads(kernel)[..i + 1] == KernelUploads(kernel)[..i] + [UploadKernelSample(i, kernel[i])];
        cmds := cmds + [UploadKernelSample(i, kernel[i])];
        i := i + 1;
      }
      assert KernelUploads(kernel)[..i] == KernelUploads(kernel);
      cmds := cmds + [DrawQuad];
    }

    /** Step 4 of `Render`: per point light its uniforms, the light count, then the screen quad. */
    method LightingPass(h: ProgramHandle, lights: seq<PointLight>) returns (cmds: seq<Command>)
      ensures cmds == LightingStage(h, lights)
    {
      cmds := [UseProgram("LightingPass", h)];
      var i := 0;
      while i < |lights|
        invariant 0 <= i <= |lights|
        invariant cmds == [UseProgram("LightingPass", h)] + LightUniforms(lights)[..i]
      {
        assert LightUniforms(lights)[..i + 1] == LightUniforms(lights)[..i] + [SetLight(i, lights[i])];
        cmds := cmds + [SetLight(i, lights[i])];
        i := i + 1;
      }
      assert LightUniforms(lights)[..i] == LightUniforms(lights);
      cmds := cmds + [SetLightCount(|lights|), DrawQuad];
    }

    /** The light boxes after the depth blit: one cube per point light. */
    method LightBoxPass(h: ProgramHandle, lights: seq<PointLight>) returns (cmds: seq<Command>)
      ensures cmds == LightBoxStage(h, lights)
    {
      cmds := [UseProgram("DeferredLightBox", h)];
      var i := 0;
      while i < |lights|
        invariant 0 <= i <= |lights|
        invariant cmds == [UseProgram("DeferredLightBox", h)] + LightBoxes(lights)[..i]
      {
        assert LightBoxes(lights)[..i + 1] == LightBoxes(lights)[..i] + [DrawLightBox(i, lights[i])];
        cmds := cmds + [DrawLightBox(i, lights[i])];
        i := i + 1;
      }
      assert LightBoxes(lights)[..i] == LightBoxes(lights);
    }

    /**
     * `Render`: the nine program lookups, where the first missing name is
     * the `std::out_of_range` that escapes, then the passes in their fixed
     * order over the scene's point lights and the render list.
     */
    method Render(scene: SceneBase, renderList: seq<Model>) returns (r: Result<seq<Command>, string>)
      requires |lookups| == |RenderPrograms| && |ssaoKernel| >= UploadedSamples
      ensures LookupAll(shaderCache, lookups).Failure? ==> r == Failure(LookupAll(shaderCache, lookups).error)
      ensures LookupAll(shaderCache, lookups).Success? ==>
        r == Success(FrameTrace(LookupAll(shaderCache, lookups).value, scene.pointLights, renderList,
                                ssaoKernel, width, height))
    {
      var found := LookupAll(shaderCache, lookups);
      if found.Failure? {
        return Failure(found.error);
      }
      var handles := found.value;
      var lights := scene.pointLights;
      var shadow := ShadowPass(handles[8], lights, renderList);
      var geometry := RenderModels(renderList, true);
      geometry := [UseProgram("GeometryPass", handles[3])] + geometry;
      var ssao := SsaoPass(handles[5], ssaoKernel);
      var blur := [UseProgram("SSAOBlur", handles[6]), DrawQuad];
      var lighting := LightingPass(handles[4], lights);
      var boxes := LightBoxPass(handles[2], lights);
      assert shadow + geometry + ssao == ScenePasses(handles, lights, renderList, ssaoKernel);
      assert blur + lighting + [BlitDepth(width, height)] + boxes == ScreenPasses(handles, lights, width, height);
      r := Success((shadow + geometry + ssao) + (blur + lighting + [BlitDepth(width, height)] + boxes));
    }
  }

  /**
   * After `Init`, the renderer can draw a frame exactly when every program
   * `Render` looks up compiled under its name in the configuration.
   */
  lemma InitThenRender(config: RendererConfig, factory: Factory)
    ensures LookupAll(BuiltCache(config.programs, factory), RenderPrograms).Success? <==>
      forall k :: 0 <= k < |RenderPrograms| ==>
        exists i :: 0 <= i < |config.programs| && config.programs[i].name == RenderPrograms[k]
          && Compiles(config.programs[i], factory)
  {
    LookupBuiltSucceeds(config.programs, factory, RenderPrograms);
  }
}
