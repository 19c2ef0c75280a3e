/**
 * Scene containers (src/SceneBase.cpp): a named scene holding an ordered
 * list of models and three light lists.  Models and lights are only ever
 * appended; the insertion order of the models is the order culling and
 * rendering later follow.
 */
module Scenes {
  import opened Glm
  import opened Models

  /** `StaticPointLight` (src/graphics/StaticPointLight.h). */
  datatype PointLight = PointLight(color: Vec3, position: Vec3)

  /** `StaticDirectionalLight`: a colour and a direction. */
  datatype DirectionalLight = DirectionalLight(color: Vec3, direction: Vec3)

  /** `StaticSpotLight`, whose definition is not part of this model: its fields are kept as opaque numbers. */
  datatype SpotLight = SpotLight(fields: seq<real>)

  /** Point lights move back and forth along x between these bounds. */
  const TurnBound: real := 10.0

  /** One light's step in `SceneBase::Update`, and the direction flag after it. */
  function MoveLight(light: PointLight, direction: bool, dt: real): (PointLight, bool)
  {
    var p := light.position;
    var x := if direction then p.x + 2.0 * dt else p.x - 2.0 * dt;
    var moved := light.(position := p.(x := x));
    (moved, if x <= -TurnBound || x >= TurnBound then !direction else direction)
  }

  /**
   * The lights and flag after `SceneBase::Update(dt)`: the lights are visited
   * in order, each moving by the direction the previous ones left behind.
   */
  function MoveLights(lights: seq<PointLight>, direction: bool, dt: real): (seq<PointLight>, bool)
    decreases |lights|
  {
    if lights == [] then ([], direction)
    else
      var (init, d) := MoveLights(lights[..|lights| - 1], direction, dt);
      var (last, d') := MoveLight(lights[|lights| - 1], d, dt);
      (init + [last], d')
  }

  class SceneBase {
    var name: string
    /** `m_sceneModels`: shared models, in insertion order. */
    var sceneModels: seq<Model>
    var directionalLights: seq<DirectionalLight>
    var pointLights: seq<PointLight>
    var spotLights: seq<SpotLight>
    /** The direction point lights currently move in (true: towards +x). */
    var direction: bool

    /** An empty scene; the flag's initial value comes from SceneBase.h, which is not part of this model. */
    constructor (direction: bool)
      ensures name == "" && sceneModels == [] && directionalLights == [] && pointLights == [] && spotLights == []
      ensures this.direction == direction
    {
      name := "";
      sceneModels := [];
      directionalLights := [];
      pointLights := [];
      spotLights := [];
      this.direction := direction;
    }

    /** `Init(sceneName)`: stores the name and nothing else. */
    method Init(sceneName: string)
      modifies this
      ensures name == sceneName
      ensures sceneModels == old(sceneModels) && directionalLights == old(directionalLights)
      ensures pointLights == old(pointLights) && spotLights == old(spotLights) && direction == old(direction)
    {
      name := sceneName;
    }

    /** `AddModel`: appends at the end. */
    method AddModel(model: Model)
      modifies this
      ensures sceneModels == old(sceneModels) + [model]
      ensures name == old(name) && directionalLights == old(directionalLights)
      ensures pointLights == old(pointLights) && spotLights == old(spotLights) && direction == old(direction)
    {
      sceneModels := sceneModels + [model];
    }

    /** `AddLight(StaticDirectionalLight)`: appends to the directional list only. */
    method AddDirectionalLight(light: DirectionalLight)
      modifies this
      ensures directionalLights == old(directionalLights) + [light]
      ensures name == old(name) && sceneModels == old(sceneModels)
      ensures pointLights == old(pointLights) && spotLights == old(spotLights) && direction == old(direction)
    {
      directionalLights := directionalLights + [light];
    }

    /** `AddLight(StaticPointLight)`: appends to the point list only. */
    method AddPointLight(light: PointLight)
      modifies this
      ensures pointLights == old(pointLights) + [light]
      ensures name == old(name) && sceneModels == old(sceneModels)
      ensures directionalLights == old(directionalLights) && spotLights == old(spotLights) && direction == old(direction)
    {
      pointLights := pointLights + [light];
    }

    /** `AddLight(StaticSpotLight)`: appends to the spot list only. */
    method AddSpotLight(light: SpotLight)
      modifies this
      ensures spotLights == old(spotLights) + [light]
      ensures name == old(name) && sceneModels == old(sceneModels)
      ensures directionalLights == old(directionalLights) && pointLights == old(pointLights) && direction == old(direction)
    {
      spotLights := spotLights + [light];
    }

    /** `Update(dt)`: moves the point lights in place; only they and the flag change. */
    method Update(dt: real)
      modifies this
      ensures (pointLights, direction) == MoveLights(old(pointLights), old(direction), dt)
      ensures name == old(name) && sceneModels == old(sceneModels)
      ensures directionalLights == old(directionalLights) && spotLights == old(spotLights)
    {
      ghost var original := pointLights;
      ghost var startDirection := direction;
      var i := 0;
      while i < |pointLights|
        invariant 0 <= i <= |pointLights| == |original|
        invariant (pointLights[..i], direction) == MoveLights(original[..i], startDirection, dt)
        invariant forall j :: i <= j < |original| ==> pointLights[j] == original[j]
        invariant name == old(name) && sceneModels == old(sceneModels)
        invariant directionalLights == old(directionalLights) && spotLights == old(spotLights)
      {
        assert original[..i + 1][..i] == original[..i];
        var light, d := MoveLight(pointLights[i], direction, dt).0, MoveLight(pointLights[i], direction, dt).1;
        pointLights := pointLights[i := light];
        direction := d;
        assert pointLights[..i + 1] == pointLights[..i] + [light];
        i := i + 1;
      }
      assert pointLights == pointLights[..i] && original == original[..i];
    }
  }

  /**
   * `Update` keeps the number of point lights, their colours and their y and
   * z coordinates; only x moves, by exactly 2*dt either way.
   */
  lemma {:induction false} MoveLightsOnlyX(lights: seq<PointLight>, direction: bool, dt: real)
    ensures var moved := MoveLights(lights, direction, dt).0;
      && |moved| == |lights|
      && forall i :: 0 <= i < |lights| ==>
        && moved[i].color == lights[i].color
        && moved[i].position.y == lights[i].position.y
        && moved[i].position.z == lights[i].position.z
        && (moved[i].position.x == lights[i].position.x + 2.0 * dt
            || moved[i].position.x == lights[i].position.x - 2.0 * dt)
    decreases |lights|
  {
    if lights != [] {
      MoveLightsOnlyX(lights[..|lights| - 1], direction, dt);
    }
  }
}
