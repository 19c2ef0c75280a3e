/**
 * The GPU work of a frame, as a trace of abstract commands
 * (src/core/RenderSystem.cpp).  Only the events whose order and number
 * the renderer decides are kept: which program is bound, which model is
 * drawn with how many indices, which light and kernel uniforms are sent.
 */
module RenderTrace {
  import opened Wrappers
  import opened Glm
  import opened ObjIndexing
  import opened Models
  import opened Scenes
  import opened ShaderCache

  datatype Command =
    | UseProgram(name: string, handle: ProgramHandle)
    /** The shadow pass's per-light uniforms (`far_plane`, `lightPos`, six face matrices). */
    | SetShadowLight(index: nat, position: Vec3)
    /** The `model` matrix uniform of one render-list entry. */
    | SetModel(model: Model)
    /** Binding a mesh's albedo texture to unit 0 (textured draws only). */
    | BindAlbedo
    /** `glDrawElements` with a mesh's index count. */
    | DrawElements(count: nat)
    | UploadKernelSample(index: nat, sample: Vec3)
    | DrawQuad
    /** `lights[i]`: position and colour (attenuation and radius are not modelled). */
    | SetLight(index: nat, light: PointLight)
    | SetLightCount(count: nat)
    /** Copying the G-buffer's depth to the default framebuffer at the given size. */
    | BlitDepth(width: nat, height: nat)
    | DrawLightBox(index: nat, light: PointLight)

  /** The elements some commands carry, in trace order. */
  function Collect<T>(cmds: seq<Command>, f: Command -> Option<T>): seq<T>
    decreases |cmds|
  {
    if cmds == [] then []
    else
      var init := Collect(cmds[..|cmds| - 1], f);
      match f(cmds[|cmds| - 1])
      case None => init
      case Some(x) => init + [x]
  }

  lemma {:induction false} CollectAppend<T>(a: seq<Command>, b: seq<Command>, f: Command -> Option<T>)
    ensures Collect(a + b, f) == Collect(a, f) + Collect(b, f)
    decreases |b|
  {
    if b == [] {
      assert a + b == a;
    } else {
      var init := b[..|b| - 1];
      assert (a + b)[..|a + b| - 1] == a + init;
      CollectAppend(a, init, f);
    }
  }

  function ProgramOf(c: Command): Option<string>
  {
    if c.UseProgram? then Some(c.name) else None
  }

  function DrawOf(c: Command): Option<nat>
  {
    if c.DrawElements? then Some(c.count) else None
  }

  function ModelOf(c: Command): Option<Model>
  {
    if c.SetModel? then Some(c.model) else None
  }

  function ShadowLightOf(c: Command): Option<nat>
  {
    if c.SetShadowLight? then Some(c.index) else None
  }

  function KernelIndexOf(c: Command): Option<nat>
  {
    if c.UploadKernelSample? then Some(c.index) else None
  }

  function LightCountOf(c: Command): Option<nat>
  {
    if c.SetLightCount? then Some(c.count) else None
  }

  function LightBoxOf(c: Command): Option<PointLight>
  {
    if c.DrawLightBox? then Some(c.light) else None
  }

  /** The index counts of every mesh of every model, in render-list order. */
  function MeshCounts(models: seq<Model>): seq<nat>
    decreases |models|
  {
    if models == [] then []
    else
      MeshCounts(models[..|models| - 1])
      + seq(|models[|models| - 1].meshes|, k requires 0 <= k < |models[|models| - 1].meshes| =>
              models[|models| - 1].meshes[k].IndexCount())
  }

  /** The number of meshes over the whole render list. */
  function TotalMeshes(models: seq<Model>): nat
    decreases |models|
  {
    if models == [] then 0 else TotalMeshes(models[..|models| - 1]) + |models[|models| - 1].meshes|
  }

  /** One indexed draw per mesh, after binding its albedo texture when textured. */
  function MeshDraws(meshes: seq<Mesh>, textured: bool): seq<Command>
    decreases |meshes|
  {
    if meshes == [] then []
    else
      MeshDraws(meshes[..|meshes| - 1], textured)
      + (if textured then [BindAlbedo] else [])
      + [DrawElements(meshes[|meshes| - 1].IndexCount())]
  }

  /** `renderModelsWithTextures` / `renderModelsNoTextures` over a render list. */
  function ModelDraws(models: seq<Model>, textured: bool): seq<Command>
    decreases |models|
  {
    if models == [] then []
    else
      var m := models[|models| - 1];
      ModelDraws(models[..|models| - 1], textured) + [SetModel(m)] + MeshDraws(m.meshes, textured)
  }

  /** What the mesh loop issues: one draw per mesh, with its index count. */
  lemma {:induction false} MeshDrawsCollect(meshes: seq<Mesh>, textured: bool)
    ensures Collect(MeshDraws(meshes, textured), DrawOf)
         == seq(|meshes|, k requires 0 <= k < |meshes| => meshes[k].IndexCount())
    decreases |meshes|
  {
    if meshes != [] {
      var init := meshes[..|meshes| - 1];
      var draw := DrawElements(meshes[|meshes| - 1].IndexCount());
      var tail := (if textured then [BindAlbedo] else []) + [draw];
      MeshDrawsCollect(init, textured);
      assert MeshDraws(meshes, textured) == MeshDraws(init, textured) + tail;
      CollectAppend(MeshDraws(init, textured), tail, DrawOf);
      CollectOne(draw, DrawOf);
      if textured {
        CollectOne(BindAlbedo, DrawOf);
        CollectAppend([BindAlbedo], [draw], DrawOf);
      }
    }
  }

  /** The mesh loop changes neither the program nor the model uniform. */
  lemma {:induction false} MeshDrawsKeepModel(meshes: seq<Mesh>, textured: bool)
    ensures Collect(MeshDraws(meshes, textured), ModelOf) == []
    ensures Collect(MeshDraws(meshes, textured), ProgramOf) == []
    decreases |meshes|
  {
    if meshes != [] {
      var init := meshes[..|meshes| - 1];
      var draw := DrawElements(meshes[|meshes| - 1].IndexCount());
      var tail := (if textured then [BindAlbedo] else []) + [draw];
      MeshDrawsKeepModel(init, textured);
      assert MeshDraws(meshes, textured) == MeshDraws(init, textured) + tail;
      CollectAppend(MeshDraws(init, textured), tail, ModelOf);
      CollectAppend(MeshDraws(init, textured), tail, ProgramOf);
      CollectOne(draw, ModelOf);
      CollectOne(draw, ProgramOf);
      if textured {
        CollectOne(BindAlbedo, ModelOf);
        CollectOne(BindAlbedo, ProgramOf);
        CollectAppend([BindAlbedo], [draw], ModelOf);
        CollectAppend([BindAlbedo], [draw], ProgramOf);
      }
    }
  }

  /**
   * The render loops set the model uniform once per entry, in render-list
   * order, issue one draw per mesh with that mesh's index count, and bind no
   * program.
   */
  lemma {:induction false} ModelDrawsCollect(models: seq<Model>, textured: bool)
    ensures Collect(ModelDraws(models, textured), ModelOf) == models
    ensures Collect(ModelDraws(models, textured), DrawOf) == MeshCounts(models)
    ensures Collect(ModelDraws(models, textured), ProgramOf) == []
    decreases |models|
  {
    if models != [] {
      var init := models[..|models| - 1];
      var m := models[|models| - 1];
      var head := ModelDraws(init, textured) + [SetModel(m)];
      ModelDrawsCollect(init, textured);
      MeshDrawsCollect(m.meshes, textured);
      MeshDrawsKeepModel(m.meshes, textured);
      CollectAppend(ModelDraws(init, textured), [SetModel(m)], ModelOf);
      CollectAppend(ModelDraws(init, textured), [SetModel(m)], DrawOf);
      CollectAppend(ModelDraws(init, textured), [SetModel(m)], ProgramOf);
      CollectAppend(head, MeshDraws(m.meshes, textured), ModelOf);
      CollectAppend(head, MeshDraws(m.meshes, textured), DrawOf);
      CollectAppend(head, MeshDraws(m.meshes, textured), ProgramOf);
      assert init + [m] == models;
    }
  }

  /** The draw count of a render loop is the total number of meshes. */
  lemma {:induction false} MeshCountsLength(models: seq<Model>)
    ensures |MeshCounts(models)| == TotalMeshes(models)
    decreases |models|
  {
    if models != [] {
      MeshCountsLength(models[..|models| - 1]);
    }
  }

  lemma CollectNone<T>(cmds: seq<Command>, f: Command -> Option<T>)
    requires forall i :: 0 <= i < |cmds| ==> f(cmds[i]).None?
    ensures Collect(cmds, f) == []
    decreases |cmds|
  {
    if cmds != [] {
      CollectNone(cmds[..|cmds| - 1], f);
    }
  }

  lemma CollectWhole<T>(cmds: seq<Command>, f: Command -> Option<T>)
    requires forall i :: 0 <= i < |cmds| ==> f(cmds[i]).Some?
    ensures |Collect(cmds, f)| == |cmds|
    ensures forall i :: 0 <= i < |cmds| ==> Collect(cmds, f)[i] == f(cmds[i]).value
    decreases |cmds|
  {
    if cmds != [] {
      var init := cmds[..|cmds| - 1];
      CollectWhole(init, f);
      assert forall i :: 0 <= i < |init| ==> init[i] == cmds[i];
    }
  }

  /** The programs `Render` looks up, in the order of its lookups. */
  const RenderPrograms: seq<string> :=
    ["GBuffer", "Deferred", "DeferredLightBox", "GeometryPass", "LightingPass",
     "SSAO", "SSAOBlur", "PostProcess_HDR", "Shadows"]

  /** The number of kernel samples `Render` uploads. */
  const UploadedSamples: nat := 64

  /** The shadow loop: per point light its uniforms, then the untextured render loop. */
  function ShadowLoop(lights: seq<PointLight>, models: seq<Model>): seq<Command>
    decreases |lights|
  {
    if lights == [] then []
    else
      var init := lights[..|lights| - 1];
      ShadowLoop(init, models) + [SetShadowLight(|init|, lights[|lights| - 1].position)] + ModelDraws(models, false)
  }

  function KernelUploads(kernel: seq<Vec3>): (cmds: seq<Command>)
    requires |kernel| >= UploadedSamples
    ensures |cmds| == UploadedSamples
  {
    seq(UploadedSamples, i requires 0 <= i < UploadedSamples => UploadKernelSample(i, kernel[i]))
  }

  function LightUniforms(lights: seq<PointLight>): seq<Command>
  {
    seq(|lights|, i requires 0 <= i < |lights| => SetLight(i, lights[i]))
  }

  function LightBoxes(lights: seq<PointLight>): seq<Command>
  {
    seq(|lights|, i requires 0 <= i < |lights| => DrawLightBox(i, lights[i]))
  }

  function ShadowStage(h: ProgramHandle, lights: seq<PointLight>, models: seq<Model>): seq<Command>
  {
    [UseProgram("Shadows", h)] + ShadowLoop(lights, models)
  }

  function GeometryStage(h: ProgramHandle, models: seq<Model>): seq<Command>
  {
    [UseProgram("GeometryPass", h)] + ModelDraws(models, true)
  }

  function SsaoStage(h: ProgramHandle, kernel: seq<Vec3>): seq<Command>
    requires |kernel| >= UploadedSamples
  {
    [UseProgram("SSAO", h)] + KernelUploads(kernel) + [DrawQuad]
  }

  function BlurStage(h: ProgramHandle): seq<Command>
  {
    [UseProgram("SSAOBlur", h), DrawQuad]
  }

  function LightingStage(h: ProgramHandle, lights: seq<PointLight>): seq<Command>
  {
    [UseProgram("LightingPass", h)] + LightUniforms(lights) + [SetLightCount(|lights|), DrawQuad]
  }

  function LightBoxStage(h: ProgramHandle, lights: seq<PointLight>): seq<Command>
  {
    [UseProgram("DeferredLightBox", h)] + LightBoxes(lights)
  }

  /** The passes over scene geometry: shadows, geometry buffer, SSAO. */
  function ScenePasses(handles: seq<ProgramHandle>, lights: seq<PointLight>, models: seq<Model>, kernel: seq<Vec3>): seq<Command>
    requires |handles| == |RenderPrograms| && |kernel| >= UploadedSamples
  {
    ShadowStage(handles[8], lights, models) + GeometryStage(handles[3], models) + SsaoStage(handles[5], kernel)
  }

  /** The screen-space passes: blur, lighting, depth blit, light boxes. */
  function ScreenPasses(handles: seq<ProgramHandle>, lights: seq<PointLight>, width: nat, height: nat): seq<Command>
    requires |handles| == |RenderPrograms|
  {
    BlurStage(handles[6]) + LightingStage(handles[4], lights) + [BlitDepth(width, height)] + LightBoxStage(handles[2], lights)
  }

  /**
   * One frame of `Render`, given the handles of `RenderPrograms` in lookup
   * order: shadows, geometry, SSAO, blur, lighting, depth blit, light boxes.
   */
  function FrameTrace(handles: seq<ProgramHandle>, lights: seq<PointLight>, models: seq<Model>,
                      kernel: seq<Vec3>, width: nat, height: nat): seq<Command>
    requires |handles| == |RenderPrograms| && |kernel| >= UploadedSamples
  {
    ScenePasses(handles, lights, models, kernel) + ScreenPasses(handles, lights, width, height)
  }

  lemma ScenePassesCollect<T>(handles: seq<ProgramHandle>, lights: seq<PointLight>, models: seq<Model>,
                              kernel: seq<Vec3>, f: Command -> Option<T>)
    requires |handles| == |RenderPrograms| && |kernel| >= UploadedSamples
    ensures Collect(ScenePasses(handles, lights, models, kernel), f)
         == Collect(ShadowStage(handles[8], lights, models), f)
          + Collect(GeometryStage(handles[3], models), f)
          + Collect(SsaoStage(handles[5], kernel), f)
  {
    var s1, s2, s3 := ShadowStage(handles[8], lights, models), GeometryStage(handles[3], models), SsaoStage(handles[5], kernel);
    CollectAppend(s1, s2, f);
    CollectAppend(s1 + s2, s3, f);
  }

  lemma ScreenPassesCollect<T>(handles: seq<ProgramHandle>, lights: seq<PointLight>, width: nat, height: nat,
                               f: Command -> Option<T>)
    requires |handles| == |RenderPrograms|
    ensures Collect(ScreenPasses(handles, lights, width, height), f)
         == Collect(BlurStage(handles[6]), f)
          + Collect(LightingStage(handles[4], lights), f)
          + Collect([BlitDepth(width, height)], f)
          + Collect(LightBoxStage(handles[2], lights), f)
  {
    var s4, s5, s6 := BlurStage(handles[6]), LightingStage(handles[4], lights), [BlitDepth(width, height)];
    var s7 := LightBoxStage(handles[2], lights);
    CollectAppend(s4, s5, f);
    CollectAppend(s4 + s5, s6, f);
    CollectAppend(s4 + s5 + s6, s7, f);
  }

  /** What a projection finds in one command. */
  function Found<T>(c: Command, f: Command -> Option<T>): seq<T>
  {
    if f(c).Some? then [f(c).value] else []
  }

  lemma CollectOne<T>(c: Command, f: Command -> Option<T>)
    ensures Collect([c], f) == Found(c, f)
  {
    assert [c][..0] == [];
  }

  lemma {:induction false} MeshDrawsQuiet<T>(meshes: seq<Mesh>, textured: bool, f: Command -> Option<T>)
    requires forall c: Command :: (c.SetModel? || c.BindAlbedo? || c.DrawElements?) ==> f(c).None?
    ensures Collect(MeshDraws(meshes, textured), f) == []
    decreases |meshes|
  {
    if meshes != [] {
      var init := meshes[..|meshes| - 1];
      var draw := [DrawElements(meshes[|meshes| - 1].IndexCount())];
      MeshDrawsQuiet(init, textured, f);
      CollectOne(draw[0], f);
      CollectOne(BindAlbedo, f);
      CollectAppend(MeshDraws(init, textured), if textured then [BindAlbedo] else [], f);
      CollectAppend(MeshDraws(init, textured) + (if textured then [BindAlbedo] else []), draw, f);
    }
  }

  /** A projection that ignores every command of the render loops finds nothing in them. */
  lemma {:induction false} ModelDrawsQuiet<T>(models: seq<Model>, textured: bool, f: Command -> Option<T>)
    requires forall c: Command :: (c.SetModel? || c.BindAlbedo? || c.DrawElements?) ==> f(c).None?
    ensures Collect(ModelDraws(models, textured), f) == []
    decreases |models|
  {
    if models != [] {
      var init := models[..|models| - 1];
      var m := models[|models| - 1];
      ModelDrawsQuiet(init, textured, f);
      MeshDrawsQuiet(m.meshes, textured, f);
      CollectOne(SetModel(m), f);
      CollectAppend(ModelDraws(init, textured), [SetModel(m)], f);
      CollectAppend(ModelDraws(init, textured) + [SetModel(m)], MeshDraws(m.meshes, textured), f);
    }
  }

  /** The shadow loop issues one light's uniforms per point light, in order. */
  lemma {:induction false} ShadowLoopLights(lights: seq<PointLight>, models: seq<Model>)
    ensures Collect(ShadowLoop(lights, models), ShadowLightOf) == seq(|lights|, i => i)
    decreases |lights|
  {
    if lights != [] {
      var init := lights[..|lights| - 1];
      var uniforms := [SetShadowLight(|init|, lights[|lights| - 1].position)];
      ShadowLoopLights(init, models);
      ModelDrawsQuiet(models, false, ShadowLightOf);
      CollectOne(uniforms[0], ShadowLightOf);
      CollectAppend(ShadowLoop(init, models), uniforms, ShadowLightOf);
      CollectAppend(ShadowLoop(init, models) + uniforms, ModelDraws(models, false), ShadowLightOf);
      assert seq(|init|, i => i) + [|init|] == seq(|lights|, i => i);
    }
  }

  /** n copies of s, one after the other. */
  function Repeat<T>(s: seq<T>, n: nat): seq<T>
  {
    if n == 0 then [] else Repeat(s, n - 1) + s
  }

  lemma {:induction false} RepeatLength<T>(s: seq<T>, n: nat)
    ensures |Repeat(s, n)| == n * |s|
  {
    if n > 0 {
      RepeatLength(s, n - 1);
      assert (n - 1) * |s| + |s| == n * |s|;
    }
  }

  /** Each round of the shadow loop draws every mesh of the render list once, in order. */
  lemma {:induction false} ShadowLoopDraws(lights: seq<PointLight>, models: seq<Model>)
    ensures Collect(ShadowLoop(lights, models), DrawOf) == Repeat(MeshCounts(models), |lights|)
    decreases |lights|
  {
    if lights != [] {
      var init := lights[..|lights| - 1];
      var uniforms := [SetShadowLight(|init|, lights[|lights| - 1].position)];
      ShadowLoopDraws(init, models);
      ModelDrawsCollect(models, false);
      CollectOne(uniforms[0], DrawOf);
      CollectAppend(ShadowLoop(init, models), uniforms, DrawOf);
      CollectAppend(ShadowLoop(init, models) + uniforms, ModelDraws(models, false), DrawOf);
    }
  }

  /** What ignores the shadow uniforms and the render loops finds nothing in the shadow loop. */
  lemma {:induction false} ShadowLoopQuiet<T>(lights: seq<PointLight>, models: seq<Model>, f: Command -> Option<T>)
    requires forall c: Command :: (c.SetShadowLight? || c.SetModel? || c.BindAlbedo? || c.DrawElements?) ==> f(c).None?
    ensures Collect(ShadowLoop(lights, models), f) == []
    decreases |lights|
  {
    if lights != [] {
      var init := lights[..|lights| - 1];
      var uniforms := [SetShadowLight(|init|, lights[|lights| - 1].position)];
      ShadowLoopQuiet(init, models, f);
      ModelDrawsQuiet(models, false, f);
      CollectOne(uniforms[0], f);
      CollectAppend(ShadowLoop(init, models), uniforms, f);
      CollectAppend(ShadowLoop(init, models) + uniforms, ModelDraws(models, false), f);
    }
  }

  lemma KernelUploadIndices(kernel: seq<Vec3>)
    requires |kernel| >= UploadedSamples
    ensures Collect(KernelUploads(kernel), KernelIndexOf) == seq(UploadedSamples, i => i)
  {
    CollectWhole(KernelUploads(kernel), KernelIndexOf);
  }

  lemma LightBoxesCollect(lights: seq<PointLight>)
    ensures Collect(LightBoxes(lights), LightBoxOf) == lights
  {
    CollectWhole(LightBoxes(lights), LightBoxOf);
  }

  lemma ShadowStageParts<T>(h: ProgramHandle, lights: seq<PointLight>, models: seq<Model>, f: Command -> Option<T>)
    ensures Collect(ShadowStage(h, lights, models), f) == Found(UseProgram("Shadows", h), f) + Collect(ShadowLoop(lights, models), f)
  {
    CollectOne(UseProgram("Shadows", h), f);
    CollectAppend([UseProgram("Shadows", h)], ShadowLoop(lights, models), f);
  }

  lemma GeometryStageParts<T>(h: ProgramHandle, models: seq<Model>, f: Command -> Option<T>)
    ensures Collect(GeometryStage(h, models), f) == Found(UseProgram("GeometryPass", h), f) + Collect(ModelDraws(models, true), f)
  {
    CollectOne(UseProgram("GeometryPass", h), f);
    CollectAppend([UseProgram("GeometryPass", h)], ModelDraws(models, true), f);
  }

  lemma SsaoStageParts<T>(h: ProgramHandle, kernel: seq<Vec3>, f: Command -> Option<T>)
    requires |kernel| >= UploadedSamples
    ensures Collect(SsaoStage(h, kernel), f)
         == Found(UseProgram("SSAO", h), f) + Collect(KernelUploads(kernel), f) + Found(DrawQuad, f)
  {
    var use := UseProgram("SSAO", h);
    CollectOne(use, f);
    CollectOne(DrawQuad, f);
    CollectAppend([use], KernelUploads(kernel), f);
    CollectAppend([use] + KernelUploads(kernel), [DrawQuad], f);
  }

  lemma BlurStageParts<T>(h: ProgramHandle, f: Command -> Option<T>)
    ensures Collect(BlurStage(h), f) == Found(UseProgram("SSAOBlur", h), f) + Found(DrawQuad, f)
  {
    var use := UseProgram("SSAOBlur", h);
    CollectOne(use, f);
    CollectOne(DrawQuad, f);
    assert BlurStage(h) == [use] + [DrawQuad];
    CollectAppend([use], [DrawQuad], f);
  }

  lemma LightingStageParts<T>(h: ProgramHandle, lights: seq<PointLight>, f: Command -> Option<T>)
    ensures Collect(LightingStage(h, lights), f)
         == Found(UseProgram("LightingPass", h), f) + Collect(LightUniforms(lights), f)
          + Found(SetLightCount(|lights|), f) + Found(DrawQuad, f)
  {
    var use, count := UseProgram("LightingPass", h), SetLightCount(|lights|);
    CollectOne(use, f);
    CollectOne(count, f);
    CollectOne(DrawQuad, f);
    CollectAppend([use], LightUniforms(lights), f);
    CollectAppend([use] + LightUniforms(lights), [count, DrawQuad], f);
    assert [count, DrawQuad] == [count] + [DrawQuad];
    CollectAppend([count], [DrawQuad], f);
  }

  lemma LightBoxStageParts<T>(h: ProgramHandle, lights: seq<PointLight>, f: Command -> Option<T>)
    ensures Collect(LightBoxStage(h, lights), f) == Found(UseProgram("DeferredLightBox", h), f) + Collect(LightBoxes(lights), f)
  {
    CollectOne(UseProgram("DeferredLightBox", h), f);
    CollectAppend([UseProgram("DeferredLightBox", h)], LightBoxes(lights), f);
  }

  lemma FrameProgramsScenePasses(handles: seq<ProgramHandle>, lights: seq<PointLight>, models: seq<Model>, kernel: seq<Vec3>)
    requires |handles| == |RenderPrograms| && |kernel| >= UploadedSamples
    ensures Collect(ScenePasses(handles, lights, models, kernel), ProgramOf) == ["Shadows"] + ["GeometryPass"] + ["SSAO"]
  {
    assert Collect(ShadowStage(handles[8], lights, models), ProgramOf) == ["Shadows"] by {
      ShadowStageParts(handles[8], lights, models, ProgramOf);
      ShadowLoopQuiet(lights, models, ProgramOf);
    }
    assert Collect(GeometryStage(handles[3], models), ProgramOf) == ["GeometryPass"] by {
      GeometryStageParts(handles[3], models, ProgramOf);
      ModelDrawsCollect(models, true);
    }
    assert Collect(SsaoStage(handles[5], kernel), ProgramOf) == ["SSAO"] by {
      SsaoStageParts(handles[5], kernel, ProgramOf);
      CollectNone(KernelUploads(kernel), ProgramOf);
    }
    ScenePassesCollect(handles, lights, models, kernel, ProgramOf);
  }

  lemma FrameProgramsScreenPasses(handles: seq<ProgramHandle>, lights: seq<PointLight>, width: nat, height: nat)
    requires |handles| == |RenderPrograms|
    ensures Collect(ScreenPasses(handles, lights, width, height), ProgramOf) == ["SSAOBlur"] + ["LightingPass"] + ["DeferredLightBox"]
  {
    assert Collect(BlurStage(handles[6]), ProgramOf) == ["SSAOBlur"] by {
      BlurStageParts(handles[6], ProgramOf);
    }
    assert Collect(LightingStage(handles[4], lights), ProgramOf) == ["LightingPass"] by {
      LightingStageParts(handles[4], lights, ProgramOf);
      CollectNone(LightUniforms(lights), ProgramOf);
    }
    assert Collect([BlitDepth(width, height)], ProgramOf) == [] by {
      CollectOne(BlitDepth(width, height), ProgramOf);
    }
    assert Collect(LightBoxStage(handles[2], lights), ProgramOf) == ["DeferredLightBox"] by {
      LightBoxStageParts(handles[2], lights, ProgramOf);
      CollectNone(LightBoxes(lights), ProgramOf);
    }
    ScreenPassesCollect(handles, lights, width, height, ProgramOf);
  }

  /**
   * `Render` binds its programs in a fixed order: shadows, geometry, SSAO,
   * blur, lighting, light boxes.
   */
  lemma FramePrograms(handles: seq<ProgramHandle>, lights: seq<PointLight>, models: seq<Model>,
    kernel: seq<Vec3>, width: nat, height: nat)
    requires |handles| == |RenderPrograms| && |kernel| >= UploadedSamples
    ensures Collect(FrameTrace(handles, lights, models, kernel, width, height), ProgramOf)
         == ["Shadows", "GeometryPass", "SSAO", "SSAOBlur", "LightingPass", "DeferredLightBox"]
  {
    FrameProgramsScenePasses(handles, lights, models, kernel);
    FrameProgramsScreenPasses(handles, lights, width, height);
    CollectAppend(ScenePasses(handles, lights, models, kernel), ScreenPasses(handles, lights, width, height), ProgramOf);
  }

  lemma FrameShadowLightsScenePasses(handles: seq<ProgramHandle>, lights: seq<PointLight>, models: seq<Model>, kernel: seq<Vec3>)
    requires |handles| == |RenderPrograms| && |kernel| >= UploadedSamples
    ensures Collect(ScenePasses(handles, lights, models, kernel), ShadowLightOf) == seq(|lights|, i => i)
  {
    assert Collect(ShadowStage(handles[8], lights, models), ShadowLightOf) == seq(|lights|, i => i) by {
      ShadowStageParts(handles[8], lights, models, ShadowLightOf);
      ShadowLoopLights(lights, models);
    }
    assert Collect(GeometryStage(handles[3], models), ShadowLightOf) == [] by {
      GeometryStageParts(handles[3], models, ShadowLightOf);
      ModelDrawsQuiet(models, true, ShadowLightOf);
    }
    assert Collect(SsaoStage(handles[5], kernel), ShadowLightOf) == [] by {
      SsaoStageParts(handles[5], kernel, ShadowLightOf);
      CollectNone(KernelUploads(kernel), ShadowLightOf);
    }
    ScenePassesCollect(handles, lights, models, kernel, ShadowLightOf);
  }

  lemma FrameShadowLightsScreenPasses(handles: seq<ProgramHandle>, lights: seq<PointLight>, width: nat, height: nat)
    requires |handles| == |RenderPrograms|
    ensures Collect(ScreenPasses(handles, lights, width, height), ShadowLightOf) == []
  {
    assert Collect(BlurStage(handles[6]), ShadowLightOf) == [] by {
      BlurStageParts(handles[6], ShadowLightOf);
    }
    assert Collect(LightingStage(handles[4], lights), ShadowLightOf) == [] by {
      LightingStageParts(handles[4], lights, ShadowLightOf);
      CollectNone(LightUniforms(lights), ShadowLightOf);
    }
    assert Collect([BlitDepth(width, height)], ShadowLightOf) == [] by {
      CollectOne(BlitDepth(width, height), ShadowLightOf);
    }
    assert Collect(LightBoxStage(handles[2], lights), ShadowLightOf) == [] by {
      LightBoxStageParts(handles[2], lights, ShadowLightOf);
      CollectNone(LightBoxes(lights), ShadowLightOf);
    }
    ScreenPassesCollect(handles, lights, width, height, ShadowLightOf);
  }

  /** The shadow pass runs once per point light, in order, and nowhere else. */
  lemma FrameShadowLights(handles: seq<ProgramHandle>, lights: seq<PointLight>, models: seq<Model>,
    kernel: seq<Vec3>, width: nat, height: nat)
    requires |handles| == |RenderPrograms| && |kernel| >= UploadedSamples
    ensures Collect(FrameTrace(handles, lights, models, kernel, width, height), ShadowLightOf)
         == seq(|lights|, i => i)
  {
    FrameShadowLightsScenePasses(handles, lights, models, kernel);
    FrameShadowLightsScreenPasses(handles, lights, width, height);
    CollectAppend(ScenePasses(handles, lights, models, kernel), ScreenPasses(handles, lights, width, height), ShadowLightOf);
  }

  lemma FrameDrawsScenePasses(handles: seq<ProgramHandle>, lights: seq<PointLight>, models: seq<Model>, kernel: seq<Vec3>)
    requires |handles| == |RenderPrograms| && |kernel| >= UploadedSamples
    ensures Collect(ScenePasses(handles, lights, models, kernel), DrawOf) == Repeat(MeshCounts(models), |lights|) + MeshCounts(models)
  {
    assert Collect(ShadowStage(handles[8], lights, models), DrawOf) == Repeat(MeshCounts(models), |lights|) by {
      ShadowStageParts(handles[8], lights, models, DrawOf);
      ShadowLoopDraws(lights, models);
    }
    assert Collect(GeometryStage(handles[3], models), DrawOf) == MeshCounts(models) by {
      GeometryStageParts(handles[3], models, DrawOf);
      ModelDrawsCollect(models, true);
    }
    assert Collect(SsaoStage(handles[5], kernel), DrawOf) == [] by {
      SsaoStageParts(handles[5], kernel, DrawOf);
      CollectNone(KernelUploads(kernel), DrawOf);
    }
    ScenePassesCollect(handles, lights, models, kernel, DrawOf);
  }

  lemma FrameDrawsScreenPasses(handles: seq<ProgramHandle>, lights: seq<PointLight>, width: nat, height: nat)
    requires |handles| == |RenderPrograms|
    ensures Collect(ScreenPasses(handles, lights, width, height), DrawOf) == []
  {
    assert Collect(BlurStage(handles[6]), DrawOf) == [] by {
      BlurStageParts(handles[6], DrawOf);
    }
    assert Collect(LightingStage(handles[4], lights), DrawOf) == [] by {
      LightingStageParts(handles[4], lights, DrawOf);
      CollectNone(LightUniforms(lights), DrawOf);
    }
    assert Collect([BlitDepth(width, height)], DrawOf) == [] by {
      CollectOne(BlitDepth(width, height), DrawOf);
    }
    assert Collect(LightBoxStage(handles[2], lights), DrawOf) == [] by {
      LightBoxStageParts(handles[2], lights, DrawOf);
      CollectNone(LightBoxes(lights), DrawOf);
    }
    ScreenPassesCollect(handles, lights, width, height, DrawOf);
  }

  /**
   * Every mesh of the render list is drawn once per point light in the
   * shadow pass and once more in the geometry pass, with its index count.
   */
  lemma FrameDraws(handles: seq<ProgramHandle>, lights: seq<PointLight>, models: seq<Model>,
    kernel: seq<Vec3>, width: nat, height: nat)
    requires |handles| == |RenderPrograms| && |kernel| >= UploadedSamples
    ensures Collect(FrameTrace(handles, lights, models, kernel, width, height), DrawOf)
         == Repeat(MeshCounts(models), |lights|) + MeshCounts(models)
  {
    FrameDrawsScenePasses(handles, lights, models, kernel);
    FrameDrawsScreenPasses(handles, lights, width, height);
    CollectAppend(ScenePasses(handles, lights, models, kernel), ScreenPasses(handles, lights, width, height), DrawOf);
  }

  /** So a frame issues (lights + 1) draw calls per mesh of the render list. */
  lemma FrameDrawCount(handles: seq<ProgramHandle>, lights: seq<PointLight>, models: seq<Model>,
    kernel: seq<Vec3>, width: nat, height: nat)
    requires |handles| == |RenderPrograms| && |kernel| >= UploadedSamples
    ensures |Collect(FrameTrace(handles, lights, models, kernel, width, height), DrawOf)| == (|lights| + 1) * TotalMeshes(models)
  {
    FrameDraws(handles, lights, models, kernel, width, height);
    RepeatLength(MeshCounts(models), |lights|);
    MeshCountsLength(models);
    assert |lights| * TotalMeshes(models) + TotalMeshes(models) == (|lights| + 1) * TotalMeshes(models);
  }

  lemma FrameKernelScenePasses(handles: seq<ProgramHandle>, lights: seq<PointLight>, models: seq<Model>, kernel: seq<Vec3>)
    requires |handles| == |RenderPrograms| && |kernel| >= UploadedSamples
    ensures Collect(ScenePasses(handles, lights, models, kernel), KernelIndexOf) == seq(UploadedSamples, i => i)
  {
    assert Collect(ShadowStage(handles[8], lights, models), KernelIndexOf) == [] by {
      ShadowStageParts(handles[8], lights, models, KernelIndexOf);
      ShadowLoopQuiet(lights, models, KernelIndexOf);
    }
    assert Collect(GeometryStage(handles[3], models), KernelIndexOf) == [] by {
      GeometryStageParts(handles[3], models, KernelIndexOf);
      ModelDrawsQuiet(models, true, KernelIndexOf);
    }
    assert Collect(SsaoStage(handles[5], kernel), KernelIndexOf) == seq(UploadedSamples, i => i) by {
      SsaoStageParts(handles[5], kernel, KernelIndexOf);
      KernelUploadIndices(kernel);
    }
    ScenePassesCollect(handles, lights, models, kernel, KernelIndexOf);
  }

  lemma FrameKernelScreenPasses(handles: seq<ProgramHandle>, lights: seq<PointLight>, width: nat, height: nat)
    requires |handles| == |RenderPrograms|
    ensures Collect(ScreenPasses(handles, lights, width, height), KernelIndexOf) == []
  {
    assert Collect(BlurStage(handles[6]), KernelIndexOf) == [] by {
      BlurStageParts(handles[6], KernelIndexOf);
    }
    assert Collect(LightingStage(handles[4], lights), KernelIndexOf) == [] by {
      LightingStageParts(handles[4], lights, KernelIndexOf);
      CollectNone(LightUniforms(lights), KernelIndexOf);
    }
    assert Collect([BlitDepth(width, height)], KernelIndexOf) == [] by {
      CollectOne(BlitDepth(width, height), KernelIndexOf);
    }
    assert Collect(LightBoxStage(handles[2], lights), KernelIndexOf) == [] by {
      LightBoxStageParts(handles[2], lights, KernelIndexOf);
      CollectNone(LightBoxes(lights), KernelIndexOf);
    }
    ScreenPassesCollect(handles, lights, width, height, KernelIndexOf);
  }

  /** Kernel samples 0..63 are uploaded, in order, once each. */
  lemma FrameKernel(handles: seq<ProgramHandle>, lights: seq<PointLight>, models: seq<Model>,
    kernel: seq<Vec3>, width: nat, height: nat)
    requires |handles| == |RenderPrograms| && |kernel| >= UploadedSamples
    ensures Collect(FrameTrace(handles, lights, models, kernel, width, height), KernelIndexOf)
         == seq(UploadedSamples, i => i)
  {
    FrameKernelScenePasses(handles, lights, models, kernel);
    FrameKernelScreenPasses(handles, lights, width, height);
    CollectAppend(ScenePasses(handles, lights, models, kernel), ScreenPasses(handles, lights, width, height), KernelIndexOf);
  }

  lemma FrameLightCountScenePasses(handles: seq<ProgramHandle>, lights: seq<PointLight>, models: seq<Model>, kernel: seq<Vec3>)
    requires |handles| == |RenderPrograms| && |kernel| >= UploadedSamples
    ensures Collect(ScenePasses(handles, lights, models, kernel), LightCountOf) == []
  {
    assert Collect(ShadowStage(handles[8], lights, models), LightCountOf) == [] by {
      ShadowStageParts(handles[8], lights, models, LightCountOf);
      ShadowLoopQuiet(lights, models, LightCountOf);
    }
    assert Collect(GeometryStage(handles[3], models), LightCountOf) == [] by {
      GeometryStageParts(handles[3], models, LightCountOf);
      ModelDrawsQuiet(models, true, LightCountOf);
    }
    assert Collect(SsaoStage(handles[5], kernel), LightCountOf) == [] by {
      SsaoStageParts(handles[5], kernel, LightCountOf);
      CollectNone(KernelUploads(kernel), LightCountOf);
    }
    ScenePassesCollect(handles, lights, models, kernel, LightCountOf);
  }

  lemma FrameLightCountScreenPasses(handles: seq<ProgramHandle>, lights: seq<PointLight>, width: nat, height: nat)
    requires |handles| == |RenderPrograms|
    ensures Collect(ScreenPasses(handles, lights, width, height), LightCountOf) == [|lights|]
  {
    assert Collect(BlurStage(handles[6]), LightCountOf) == [] by {
      BlurStageParts(handles[6], LightCountOf);
    }
    assert Collect(LightingStage(handles[4], lights), LightCountOf) == [|lights|] by {
      LightingStageParts(handles[4], lights, LightCountOf);
      CollectNone(LightUniforms(lights), LightCountOf);
    }
    assert Collect([BlitDepth(width, height)], LightCountOf) == [] by {
      CollectOne(BlitDepth(width, height), LightCountOf);
    }
    assert Collect(LightBoxStage(handles[2], lights), LightCountOf) == [] by {
      LightBoxStageParts(handles[2], lights, LightCountOf);
      CollectNone(LightBoxes(lights), LightCountOf);
    }
    ScreenPassesCollect(handles, lights, width, height, LightCountOf);
  }

  /** The lighting pass is told exactly once how many point lights there are. */
  lemma FrameLightCount(handles: seq<ProgramHandle>, lights: seq<PointLight>, models: seq<Model>,
    kernel: seq<Vec3>, width: nat, height: nat)
    requires |handles| == |RenderPrograms| && |kernel| >= UploadedSamples
    ensures Collect(FrameTrace(handles, lights, models, kernel, width, height), LightCountOf)
         == [|lights|]
  {
    FrameLightCountScenePasses(handles, lights, models, kernel);
    FrameLightCountScreenPasses(handles, lights, width, height);
    CollectAppend(ScenePasses(handles, lights, models, kernel), ScreenPasses(handles, lights, width, height), LightCountOf);
  }

  lemma FrameLightBoxesScenePasses(handles: seq<ProgramHandle>, lights: seq<PointLight>, models: seq<Model>, kernel: seq<Vec3>)
    requires |handles| == |RenderPrograms| && |kernel| >= UploadedSamples
    ensures Collect(ScenePasses(handles, lights, models, kernel), LightBoxOf) == []
  {
    assert Collect(ShadowStage(handles[8], lights, models), LightBoxOf) == [] by {
      ShadowStageParts(handles[8], lights, models, LightBoxOf);
      ShadowLoopQuiet(lights, models, LightBoxOf);
    }
    assert Collect(GeometryStage(handles[3], models), LightBoxOf) == [] by {
      GeometryStageParts(handles[3], models, LightBoxOf);
      ModelDrawsQuiet(models, true, LightBoxOf);
    }
    assert Collect(SsaoStage(handles[5], kernel), LightBoxOf) == [] by {
      SsaoStageParts(handles[5], kernel, LightBoxOf);
      CollectNone(KernelUploads(kernel), LightBoxOf);
    }
    ScenePassesCollect(handles, lights, models, kernel, LightBoxOf);
  }

  lemma FrameLightBoxesScreenPasses(handles: seq<ProgramHandle>, lights: seq<PointLight>, width: nat, height: nat)
    requires |handles| == |RenderPrograms|
    ensures Collect(ScreenPasses(handles, lights, width, height), LightBoxOf) == lights
  {
    assert Collect(BlurStage(handles[6]), LightBoxOf) == [] by {
      BlurStageParts(handles[6], LightBoxOf);
    }
    assert Collect(LightingStage(handles[4], lights), LightBoxOf) == [] by {
      LightingStageParts(handles[4], lights, LightBoxOf);
      CollectNone(LightUniforms(lights), LightBoxOf);
    }
    assert Collect([BlitDepth(width, height)], LightBoxOf) == [] by {
      CollectOne(BlitDepth(width, height), LightBoxOf);
    }
    assert Collect(LightBoxStage(handles[2], lights), LightBoxOf) == lights by {
      LightBoxStageParts(handles[2], lights, LightBoxOf);
      LightBoxesCollect(lights);
    }
    ScreenPassesCollect(handles, lights, width, height, LightBoxOf);
  }

  /** One light box is drawn per point light, in order, at the end of the frame. */
  lemma FrameLightBoxes(handles: seq<ProgramHandle>, lights: seq<PointLight>, models: seq<Model>,
    kernel: seq<Vec3>, width: nat, height: nat)
    requires |handles| == |RenderPrograms| && |kernel| >= UploadedSamples
    ensures Collect(FrameTrace(handles, lights, models, kernel, width, height), LightBoxOf)
         == lights
  {
    FrameLightBoxesScenePasses(handles, lights, models, kernel);
    FrameLightBoxesScreenPasses(handles, lights, width, height);
    CollectAppend(ScenePasses(handles, lights, models, kernel), ScreenPasses(handles, lights, width, height), LightBoxOf);
  }
}
