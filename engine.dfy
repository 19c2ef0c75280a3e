/**
 * The frame orchestration of src/Engine.cpp: the scene registry and the
 * active scene, the input callbacks, click-to-select over the active
 * scene's models, view-frustum culling, the per-frame order of updates and
 * the frame counter that restarts once per second.  The frustum test and
 * the ray test are parameters: `ViewFrustum`, `AABB` and the ray-box
 * intersection are not part of this model.
 */
module Engines {
  import opened Wrappers
  import opened Models
  import opened Scenes
  import opened ShaderCache
  import opened RenderTrace
  import opened InputSystem
  import opened Rendering

  /** `BoundingVolume::TestResult`. */
  datatype TestResult = INSIDE | OUTSIDE | INTERSECT

  /** What `ViewFrustum::TestIntersection` answers for a model's bounding box. */
  type FrustumTest = Model -> TestResult

  /** Whether the click ray meets a model's bounding box. */
  type RayTest = Model -> bool

  // ---------------------------------------------------------------------
  // Culling

  /** The render list `cullViewFrustum` builds: the models not OUTSIDE, in scene order. */
  function Visible(models: seq<Model>, test: FrustumTest): (r: seq<Model>)
    ensures |r| <= |models|
    decreases |models|
  {
    if models == [] then []
    else
      var last := models[|models| - 1];
      Visible(models[..|models| - 1], test) + (if test(last) != OUTSIDE then [last] else [])
  }

  /** The positions `Visible` keeps, in increasing order. */
  function Kept(models: seq<Model>, test: FrustumTest): seq<nat>
    decreases |models|
  {
    if models == [] then []
    else
      var init := models[..|models| - 1];
      Kept(init, test) + (if test(models[|models| - 1]) != OUTSIDE then [|init|] else [])
  }

  /**
   * The render list is the subsequence of the scene at increasing positions,
   * and those positions are exactly the ones whose test is INSIDE or INTERSECT.
   */
  lemma {:induction false} KeptIndices(models: seq<Model>, test: FrustumTest)
    ensures |Kept(models, test)| == |Visible(models, test)|
    ensures forall j :: 0 <= j < |Kept(models, test)| ==>
      Kept(models, test)[j] < |models| && Visible(models, test)[j] == models[Kept(models, test)[j]]
    ensures forall j, j' :: 0 <= j < j' < |Kept(models, test)| ==> Kept(models, test)[j] < Kept(models, test)[j']
    ensures forall i :: 0 <= i < |models| ==> (i in Kept(models, test) <==> test(models[i]) != OUTSIDE)
    decreases |models|
  {
    if models != [] {
      var init := models[..|models| - 1];
      KeptIndices(init, test);
      forall i | 0 <= i < |init|
        ensures models[i] == init[i]
      {
      }
    }
  }

  /** A model is rendered exactly when it is in the scene and not OUTSIDE. */
  lemma {:induction false} VisibleMembers(models: seq<Model>, test: FrustumTest, m: Model)
    ensures m in Visible(models, test) <==> m in models && test(m) != OUTSIDE
    decreases |models|
  {
    if models != [] {
      var init := models[..|models| - 1];
      VisibleMembers(init, test, m);
      assert models == init + [models[|models| - 1]];
    }
  }

  /** Culling distributes over concatenation: the scene's order is kept. */
  lemma {:induction false} VisibleAppend(a: seq<Model>, b: seq<Model>, test: FrustumTest)
    ensures Visible(a + b, test) == Visible(a, test) + Visible(b, test)
    decreases |b|
  {
    if b != [] {
      var init := b[..|b| - 1];
      var last := b[|b| - 1];
      assert (a + b)[..|a + b| - 1] == a + init;
      assert (a + b)[|a + b| - 1] == last;
      VisibleAppend(a, init, test);
      assert Visible(b, test) == Visible(init, test) + (if test(last) != OUTSIDE then [last] else []);
    } else {
      assert a + b == a;
    }
  }

  /** With every model inside or intersecting, nothing is culled. */
  lemma {:induction false} VisibleAll(models: seq<Model>, test: FrustumTest)
    requires forall i :: 0 <= i < |models| ==> test(models[i]) != OUTSIDE
    ensures Visible(models, test) == models
    decreases |models|
  {
    if models != [] {
      VisibleAll(models[..|models| - 1], test);
    }
  }

  // ---------------------------------------------------------------------
  // Picking

  /** The position of the first model the ray meets, or the list's length when it meets none. */
  function FirstHit(models: seq<Model>, hit: RayTest): (k: nat)
    ensures k <= |models|
    ensures forall j :: 0 <= j < k ==> !hit(models[j])
    ensures k < |models| ==> hit(models[k])
    decreases |models|
  {
    if models == [] then 0
    else if hit(models[0]) then 0
    else 1 + FirstHit(models[1..], hit)
  }

  /**
   * The selection loop of `Execute`: each model is deselected in turn until
   * the first one the ray meets, which is selected and ends the loop.  A
   * model reached by the loop ends deselected unless it is that first hit;
   * every other model keeps its flag.
   */
  /**
   * A model's selection flag after the selection loop, given the flag it had
   * before: the first hit ends selected, the models before it deselected, and
   * every other model keeps its flag.
   */
  function Picked(models: seq<Model>, hit: RayTest, o: Model, before: bool): bool
  {
    var k := FirstHit(models, hit);
    if k < |models| && o == models[k] then true
    else if o in models[..k] then false
    else before
  }

  method SelectFirstHit(models: seq<Model>, hit: RayTest) returns (k: nat)
    modifies set m | m in models
    ensures k == FirstHit(models, hit)
    ensures forall o :: o in models ==> o.selected == Picked(models, hit, o, old(o.selected))
  {
    k := 0;
    while k < |models|
      invariant 0 <= k <= |models|
      invariant forall j :: 0 <= j < k ==> !hit(models[j])
      invariant forall o :: o in models ==> o.selected == (if o in models[..k] then false else old(o.selected))
    {
      assert models[..k + 1] == models[..k] + [models[k]];
      models[k].selected := false;
      if hit(models[k]) {
        models[k].selected := true;
        return;
      }
      k := k + 1;
    }
  }

  // ---------------------------------------------------------------------
  // Scene registry

  /** `try_emplace` of a scene under its name: an existing name keeps its scene. */
  function Register(scenes: map<string, SceneBase>, name: string, scene: SceneBase): map<string, SceneBase>
  {
    if name in scenes then scenes else scenes[name := scene]
  }

  /** The registry after adding scenes, given by their names, in order. */
  function RegisterAll(entries: seq<(string, SceneBase)>): map<string, SceneBase>
    decreases |entries|
  {
    if entries == [] then map[]
    else
      var last := entries[|entries| - 1];
      Register(RegisterAll(entries[..|entries| - 1]), last.0, last.1)
  }

  /** A name is registered exactly when some added scene carries it. */
  lemma {:induction false} RegisterAllKeys(entries: seq<(string, SceneBase)>, name: string)
    ensures name in RegisterAll(entries) <==> exists i :: 0 <= i < |entries| && entries[i].0 == name
    decreases |entries|
  {
    if entries != [] {
      var init := entries[..|entries| - 1];
      RegisterAllKeys(init, name);
      if name in RegisterAll(init) {
        var i :| 0 <= i < |init| && init[i].0 == name;
        assert entries[i] == init[i];
      }
      if exists i :: 0 <= i < |entries| && entries[i].0 == name {
        var i :| 0 <= i < |entries| && entries[i].0 == name;
        if i < |init| {
          assert init[i] == entries[i];
        }
      }
    }
  }

  /** The first scene added under a name is the one the registry keeps. */
  lemma {:induction false} RegisterAllFirstWins(entries: seq<(string, SceneBase)>, i: nat)
    requires i < |entries|
    requires forall j :: 0 <= j < i ==> entries[j].0 != entries[i].0
    ensures entries[i].0 in RegisterAll(entries) && RegisterAll(entries)[entries[i].0] == entries[i].1
    decreases |entries|
  {
    var init := entries[..|entries| - 1];
    if i < |init| {
      assert init[i] == entries[i];
      RegisterAllFirstWins(init, i);
    } else {
      RegisterAllKeys(init, entries[i].0);
    }
  }

  // ---------------------------------------------------------------------
  // Frame counter

  /** `numFramesRendered` is an `unsigned int`. */
  const CounterModulus: nat := 0x1_0000_0000

  /** One frame: the counter restarts when the one-second flag is up, then counts the frame. */
  function CounterStep(count: nat, secondPassed: bool): nat
  {
    ((if secondPassed then 0 else count) + 1) % CounterModulus
  }

  /** The counter after frames with the given one-second flags, starting from 0. */
  function FrameCount(ticks: seq<bool>): nat
    decreases |ticks|
  {
    if ticks == [] then 0 else CounterStep(FrameCount(ticks[..|ticks| - 1]), ticks[|ticks| - 1])
  }

  lemma SuccessorModulo(a: nat)
    ensures (a % CounterModulus + 1) % CounterModulus == (a + 1) % CounterModulus
  {
  }

  /** Without a one-second flag the counter has counted every frame, wrapping at 2^32. */
  lemma {:induction false} FrameCountNoTick(ticks: seq<bool>)
    requires forall j :: 0 <= j < |ticks| ==> !ticks[j]
    ensures FrameCount(ticks) == |ticks| % CounterModulus
    decreases |ticks|
  {
    if ticks != [] {
      FrameCountNoTick(ticks[..|ticks| - 1]);
      SuccessorModulo(|ticks| - 1);
    }
  }

  /**
   * After the last frame with the one-second flag, at position i, the counter
   * holds the frames from i on, so what is read at the next flag is the number
   * of frames rendered in the second before it.
   */
  lemma {:induction false} FrameCountSinceTick(ticks: seq<bool>, i: nat)
    requires i < |ticks| && ticks[i]
    requires forall j :: i < j < |ticks| ==> !ticks[j]
    ensures FrameCount(ticks) == (|ticks| - i) % CounterModulus
    decreases |ticks|
  {
    if i < |ticks| - 1 {
      FrameCountSinceTick(ticks[..|ticks| - 1], i);
      SuccessorModulo(|ticks| - 1 - i);
    }
  }

  /** One pass of the main loop advances the counter by `CounterStep`. */
  lemma FrameCountStep(frames: seq<Frame>, i: nat)
    requires i < |frames|
    ensures FrameCount(Ticks(frames)[..i + 1]) == CounterStep(FrameCount(Ticks(frames)[..i]), frames[i].secondPassed)
  {
    assert Ticks(frames)[..i + 1][..i] == Ticks(frames)[..i];
  }

  // ---------------------------------------------------------------------
  // The engine

  /** A window callback, as `connectWindowInstanceToInput` forwards it. */
  datatype InputEvent =
    | Key(key: int, scancode: int, action: int, mode: int)
    | Button(button: int, action: int, mods: int)
    | CursorMoved(x: real, y: real)
    | Scrolled(dx: real, dy: real)
    | Text(codepoint: nat)
    | Resized(width: int, height: int)

  /**
   * What one pass of the main loop is given from outside: whether the one-second
   * timer fired, the frame's time step, the callbacks the window delivers, and
   * the answers of the ray and frustum tests for this frame's camera.
   */
  datatype Frame = Frame(secondPassed: bool, dt: real, events: seq<InputEvent>, hit: RayTest, test: FrustumTest)

  function Ticks(frames: seq<Frame>): (ticks: seq<bool>)
    ensures |ticks| == |frames|
  {
    seq(|frames|, i requires 0 <= i < |frames| => frames[i].secondPassed)
  }

  /** A key or button table after a press or release of entry i: entries outside the table and other actions change nothing. */
  function Pressed(table: seq<bool>, i: int, action: int): (t: seq<bool>)
    ensures |t| == |table|
  {
    if 0 <= i < |table| && action == Press then table[i := true]
    else if 0 <= i < |table| && action == Release then table[i := false]
    else table
  }

  /** The input state after one window callback reaches its handler. */
  function Delivered(s: InputState, e: InputEvent): InputState
  {
    match e
    case Key(key, _, action, _) => s.(keys := Pressed(s.keys, key, action))
    case Button(button, action, _) => s.(buttons := Pressed(s.buttons, button, action))
    case CursorMoved(x, y) => s.(moved := true, x := x, y := y)
    case Scrolled(dx, dy) => s.(dx := dx, dy := dy)
    case Text(_) => s
    case Resized(w, h) => s.(resize := true, width := w % SizeModulus, height := h % SizeModulus)
  }

  /** The input state after a frame's callbacks, in order. */
  function DeliveredAll(s: InputState, events: seq<InputEvent>): InputState
    decreases |events|
  {
    if events == [] then s else Delivered(DeliveredAll(s, events[..|events| - 1]), events[|events| - 1])
  }

  /**
   * Each kind of callback reaches only its own part of the state: without a
   * key event the key table is kept, without a button event the button
   * table, and without a resize event the resize flag and the size; the
   * previous-frame tables are never touched.
   */
  lemma {:induction false} DeliveredAllParts(s: InputState, events: seq<InputEvent>)
    ensures DeliveredAll(s, events).prevKeys == s.prevKeys && DeliveredAll(s, events).prevButtons == s.prevButtons
    ensures (forall i :: 0 <= i < |events| ==> !events[i].Key?) ==> DeliveredAll(s, events).keys == s.keys
    ensures (forall i :: 0 <= i < |events| ==> !events[i].Button?) ==> DeliveredAll(s, events).buttons == s.buttons
    ensures (forall i :: 0 <= i < |events| ==> !events[i].Resized?) ==>
      DeliveredAll(s, events).resize == s.resize && DeliveredAll(s, events).width == s.width
      && DeliveredAll(s, events).height == s.height
    decreases |events|
  {
    if events != [] {
      var init := events[..|events| - 1];
      assert forall i :: 0 <= i < |init| ==> init[i] == events[i];
      DeliveredAllParts(s, init);
    }
  }

  /**
   * After the latch, a frame with no key and no button callback leaves no
   * press edge: the current tables equal the previous ones.
   */
  lemma NoEventsNoPress(s: InputState, events: seq<InputEvent>)
    requires forall i :: 0 <= i < |events| ==> !events[i].Key? && !events[i].Button?
    ensures DeliveredAll(Latched(s), events).keys == DeliveredAll(Latched(s), events).prevKeys
    ensures DeliveredAll(Latched(s), events).buttons == DeliveredAll(Latched(s), events).prevButtons
  {
    DeliveredAllParts(Latched(s), events);
  }

  const NoSceneError: string := "Engine Error: No active scene specified!"

  class Engine {
    var scenes: map<string, SceneBase>
    var activeScene: SceneBase?
    const input: Input
    const renderer: RenderSystem

    /** An engine over an initialised input and renderer, with no scenes. */
    constructor (input: Input, renderer: RenderSystem)
      ensures scenes == map[] && activeScene == null
      ensures this.input == input && this.renderer == renderer
    {
      scenes := map[];
      activeScene := null;
      this.input := input;
      this.renderer := renderer;
    }

    /** `AddScene`: registers the scene under its name unless the name is taken. */
    method AddScene(scene: SceneBase)
      modifies this
      ensures scenes == Register(old(scenes), scene.name, scene)
      ensures activeScene == old(activeScene)
    {
      if scene.name !in scenes {
        scenes := scenes[scene.name := scene];
      }
    }

    /**
     * `SetActiveScene`: an unknown name changes nothing; a known one becomes
     * the active scene and the renderer recomputes its projection.
     */
    method SetActiveScene(name: string)
      modifies this, renderer
      ensures scenes == old(scenes)
      ensures name in old(scenes) ==>
        activeScene == old(scenes)[name] && renderer.projection == Projection(renderer.width, renderer.height)
      ensures name !in old(scenes) ==> activeScene == old(activeScene) && unchanged(renderer)
      ensures renderer.width == old(renderer.width) && renderer.height == old(renderer.height)
      ensures renderer.programs == old(renderer.programs) && renderer.shaderCache == old(renderer.shaderCache)
      ensures renderer.ssaoKernel == old(renderer.ssaoKernel) && renderer.ssaoNoise == old(renderer.ssaoNoise)
    {
      if name !in scenes {
        return;
      }
      activeScene := scenes[name];
      renderer.UpdateView();
    }

    /** `cullViewFrustum`: the active scene's models that the frustum test keeps, in order. */
    method CullViewFrustum(test: FrustumTest) returns (renderList: seq<Model>)
      requires activeScene != null
      ensures renderList == Visible(activeScene.sceneModels, test)
    {
      var models := activeScene.sceneModels;
      renderList := [];
      var i := 0;
      while i < |models|
        invariant 0 <= i <= |models|
        invariant renderList == Visible(models[..i], test)
      {
        assert models[..i + 1][..i] == models[..i];
        if test(models[i]) == INSIDE || test(models[i]) == INTERSECT {
          renderList := renderList + [models[i]];
        }
        i := i + 1;
      }
      assert models[..i] == models;
    }

    /**
     * The click handling of `Execute`: only on the press edge of the first
     * mouse button does the selection loop run over the scene's models.
     */
    method Pick(hit: RayTest) returns (clicked: bool, k: nat)
      requires activeScene != null && input.Valid()
      modifies set m | m in activeScene.sceneModels
      ensures clicked == input.IsMousePressed(0)
      ensures clicked ==> k == FirstHit(activeScene.sceneModels, hit)
      ensures forall o :: o in activeScene.sceneModels ==>
        o.selected == (if clicked then Picked(activeScene.sceneModels, hit, o, old(o.selected)) else old(o.selected))
    {
      clicked := input.IsMousePressed(0);
      k := 0;
      if clicked {
        k := SelectFirstHit(activeScene.sceneModels, hit);
      }
    }

    /** Forwards one window callback to its `Input` handler; each reaches only its own part of the state. */
    method Deliver(event: InputEvent)
      requires input.Valid()
      modifies input, input.keys, input.mouseButtons
      ensures !event.Key? ==> input.keys[..] == old(input.keys[..])
      ensures !event.Button? ==> input.mouseButtons[..] == old(input.mouseButtons[..])
      ensures !event.Resized? ==>
        input.shouldResize == old(input.shouldResize) && input.width == old(input.width) && input.height == old(input.height)
      ensures input.State() == Delivered(old(input.State()), event)
    {
      match event
      case Key(key, scancode, action, mode) => input.KeyPressed(key, scancode, action, mode);
      case Button(button, action, mods) => input.MousePressed(button, action, mods);
      case CursorMoved(x, y) => input.MouseMoved(x, y);
      case Scrolled(dx, dy) => input.MouseScroll(dx, dy);
      case Text(codepoint) => input.TextInput(codepoint);
      case Resized(width, height) => input.WindowResized(width, height);
    }

    /** The callbacks the window delivers during one frame, in order. */
    method DeliverAll(events: seq<InputEvent>)
      requires input.Valid()
      modifies input, input.keys, input.mouseButtons
      ensures input.State() == DeliveredAll(old(input.State()), events)
    {
      for i := 0 to |events|
        invariant input.State() == DeliveredAll(old(input.State()), events[..i])
      {
        assert events[..i + 1][..i] == events[..i];
        Deliver(events[i]);
      }
      assert events[..|events|] == events;
    }

    /**
     * The first half of a pass of the main loop: picking, the input latch,
     * the window's callbacks and the scene update.
     */
    method Advance(frame: Frame)
      requires activeScene != null && input.Valid()
      modifies input, input.keys, input.prevKeys, input.mouseButtons, input.prevMouseButtons
      modifies activeScene, set m | m in activeScene.sceneModels
      ensures activeScene.sceneModels == old(activeScene.sceneModels)
      ensures forall o :: o in activeScene.sceneModels ==>
        o.selected == (if old(input.IsMousePressed(0)) then Picked(activeScene.sceneModels, frame.hit, o, old(o.selected))
                       else old(o.selected))
      ensures input.State() == DeliveredAll(Latched(old(input.State())), frame.events)
      ensures (activeScene.pointLights, activeScene.direction)
        == MoveLights(old(activeScene.pointLights), old(activeScene.direction), frame.dt)
      ensures activeScene.name == old(activeScene.name)
      ensures activeScene.directionalLights == old(activeScene.directionalLights)
      ensures activeScene.spotLights == old(activeScene.spotLights)
    {
      var scene := activeScene;
      var _, _ := Pick(frame.hit);
      input.Update();
      DeliverAll(frame.events);
      scene.Update(frame.dt);
    }

    /**
     * One pass of the main loop after the counter check: picking, the input
     * latch, the window's callbacks, the scene update, the renderer update,
     * culling and rendering.
     */
    method RunFrame(frame: Frame) returns (r: Result<seq<Command>, string>)
      requires activeScene != null && input.Valid() && |renderer.lookups| == |RenderPrograms| && |renderer.ssaoKernel| >= UploadedSamples
      modifies input, input.keys, input.prevKeys, input.mouseButtons, input.prevMouseButtons
      modifies renderer, activeScene, set m | m in activeScene.sceneModels
      ensures activeScene.sceneModels == old(activeScene.sceneModels)
      ensures renderer.shaderCache == old(renderer.shaderCache) && renderer.ssaoKernel == old(renderer.ssaoKernel)
      ensures forall o :: o in activeScene.sceneModels ==>
        o.selected == (if old(input.IsMousePressed(0)) then Picked(activeScene.sceneModels, frame.hit, o, old(o.selected))
                       else old(o.selected))
      ensures input.State() == DeliveredAll(Latched(old(input.State())), frame.events)
      ensures (activeScene.pointLights, activeScene.direction)
        == MoveLights(old(activeScene.pointLights), old(activeScene.direction), frame.dt)
      ensures activeScene.name == old(activeScene.name)
      ensures activeScene.directionalLights == old(activeScene.directionalLights)
      ensures activeScene.spotLights == old(activeScene.spotLights)
      ensures input.shouldResize ==>
        renderer.width == input.width && renderer.height == input.height
        && renderer.projection == Projection(input.width, input.height)
      ensures !input.shouldResize ==>
        renderer.width == old(renderer.width) && renderer.height == old(renderer.height)
        && renderer.projection == old(renderer.projection)
      ensures LookupAll(renderer.shaderCache, renderer.lookups).Success? <==> r.Success?
      ensures r.Failure? ==> r.error == LookupAll(renderer.shaderCache, renderer.lookups).error
      ensures r.Success? ==>
        r.value == FrameTrace(LookupAll(renderer.shaderCache, renderer.lookups).value, activeScene.pointLights,
                              Visible(activeScene.sceneModels, frame.test), renderer.ssaoKernel,
                              renderer.width, renderer.height)
    {
      Advance(frame);
      renderer.Update(input);
      var renderList := CullViewFrustum(frame.test);
      r := renderer.Render(activeScene, renderList);
    }

    /**
     * One pass of the main loop: the one-second check restarts the counter,
     * the frame runs, and a frame that renders is counted.
     */
    method Pass(frame: Frame, counter: nat) returns (r: Result<seq<Command>, string>, next: nat)
      requires activeScene != null && input.Valid() && |renderer.lookups| == |RenderPrograms| && |renderer.ssaoKernel| >= UploadedSamples
      modifies input, input.keys, input.prevKeys, input.mouseButtons, input.prevMouseButtons
      modifies renderer, activeScene, set m | m in activeScene.sceneModels
      ensures activeScene.sceneModels == old(activeScene.sceneModels)
      ensures renderer.shaderCache == old(renderer.shaderCache) && renderer.ssaoKernel == old(renderer.ssaoKernel)
      ensures LookupAll(renderer.shaderCache, renderer.lookups).Success? <==> r.Success?
      ensures r.Failure? ==> r.error == LookupAll(renderer.shaderCache, renderer.lookups).error
      ensures r.Success? ==> next == CounterStep(counter, frame.secondPassed)
    {
      next := if frame.secondPassed then 0 else counter;
      r := RunFrame(frame);
      if r.Success? {
        next := (next + 1) % CounterModulus;
      }
    }

    /**
     * The main loop over a finite run of frames: a frame whose program lookup
     * fails ends it, as the exception escapes; the counter is checked at the
     * top of each frame and counts it at the bottom.
     */
    method MainLoop(frames: seq<Frame>) returns (r: Result<seq<seq<Command>>, string>, counter: nat)
      requires activeScene != null && input.Valid() && |renderer.lookups| == |RenderPrograms| && |renderer.ssaoKernel| >= UploadedSamples
      modifies input, input.keys, input.prevKeys, input.mouseButtons, input.prevMouseButtons
      modifies renderer, activeScene, set m | m in activeScene.sceneModels
      ensures renderer.shaderCache == old(renderer.shaderCache)
      ensures LookupAll(renderer.shaderCache, renderer.lookups).Success? ==> r.Success? && |r.value| == |frames|
      ensures LookupAll(renderer.shaderCache, renderer.lookups).Failure? && frames != [] ==>
        r == Failure(LookupAll(renderer.shaderCache, renderer.lookups).error)
      ensures r.Success? ==> counter == FrameCount(Ticks(frames))
    {
      var traces: seq<seq<Command>> := [];
      counter := 0;
      var i := 0;
      while i < |frames|
        invariant 0 <= i <= |frames| && |traces| == i
        invariant input.Valid() && |renderer.lookups| == |RenderPrograms| && |renderer.ssaoKernel| >= UploadedSamples
        invariant renderer.shaderCache == old(renderer.shaderCache)
        invariant activeScene.sceneModels == old(activeScene.sceneModels)
        invariant i > 0 ==> LookupAll(renderer.shaderCache, renderer.lookups).Success?
        invariant counter == FrameCount(Ticks(frames)[..i])
      {
        var trace, next := Pass(frames[i], counter);
        if trace.Failure? {
          return Failure(trace.error), next;
        }
        traces := traces + [trace.value];
        counter := next;
        FrameCountStep(frames, i);
        i := i + 1;
      }
      assert Ticks(frames)[..i] == Ticks(frames);
      r := Success(traces);
    }

    /**
     * `Execute`: without an active scene it stops at once (the source aborts);
     * otherwise it runs the main loop and, when that ends normally, shuts the
     * renderer down.
     */
    method Execute(frames: seq<Frame>)
      returns (r: Result<seq<seq<Command>>, string>, counter: nat, deleted: seq<(string, ProgramHandle)>)
      requires input.Valid() && |renderer.lookups| == |RenderPrograms| && |renderer.ssaoKernel| >= UploadedSamples
      modifies input, input.keys, input.prevKeys, input.mouseButtons, input.prevMouseButtons, renderer, activeScene
      modifies set m | activeScene != null && m in activeScene.sceneModels
      ensures activeScene == null ==> r == Failure(NoSceneError) && deleted == []
      ensures activeScene != null && LookupAll(old(renderer.shaderCache), renderer.lookups).Success? ==>
        r.Success? && |r.value| == |frames|
      ensures activeScene != null && LookupAll(old(renderer.shaderCache), renderer.lookups).Failure? && frames != [] ==>
        r == Failure(LookupAll(old(renderer.shaderCache), renderer.lookups).error)
      ensures r.Success? ==> counter == FrameCount(Ticks(frames))
      ensures r.Success? ==>
        && (forall k :: 0 <= k < |deleted| ==>
             deleted[k].0 in renderer.shaderCache && deleted[k].1 == renderer.shaderCache[deleted[k].0])
        && (forall name :: name in renderer.shaderCache ==> exists k :: 0 <= k < |deleted| && deleted[k].0 == name)
        && (forall i, j :: 0 <= i < j < |deleted| ==> deleted[i].0 != deleted[j].0)
      ensures renderer.shaderCache == old(renderer.shaderCache)
    {
      counter, deleted := 0, [];
      if activeScene == null {
        return Failure(NoSceneError), counter, deleted;
      }
      r, counter := MainLoop(frames);
      if r.Success? {
        deleted := renderer.Shutdown();
      }
    }
  }
}
