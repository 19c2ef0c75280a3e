/** A loaded model and its per-shape mesh loader (src/core/model.cpp, src/Model.h). */
module Models {
  import opened Wrappers
  import opened ObjIndexing
  import opened Assets

  class Model {
    const name: string
    const path: string
    /** Filled once while the model is constructed and never changed afterwards. */
    const meshes: seq<Mesh>
    /** Whether a click picked the model (src/Model.h). */
    var selected: bool

    /** `Model(Name, mesh)`: keeps the name and ignores the mesh, so the model has no meshes. */
    constructor FromMesh(name: string, mesh: Mesh)
      ensures this.name == name && path == "" && meshes == [] && !selected
    {
      this.name := name;
      path := "";
      meshes := [];
      selected := false;
    }

    /** The state `Model(Path, Name)` ends in once loading returned. */
    constructor Loaded(path: string, name: string, meshes: seq<Mesh>)
      ensures this.name == name && this.path == path && this.meshes == meshes && !selected
    {
      this.name := name;
      this.path := path;
      this.meshes := meshes;
      selected := false;
    }

    /** The copy `std::make_shared<Model>(model)` makes. */
    constructor Copy(other: Model)
      ensures name == other.name && path == other.path && meshes == other.meshes
      ensures selected == other.selected
    {
      name := other.name;
      path := other.path;
      meshes := other.meshes;
      selected := other.selected;
    }
  }

  /**
   * The meshes the source's `loadModel` pushes: after shape k it pushes the
   * de-duplication of the records of shapes 0..k, because the vertex list,
   * index list and map are never reset between shapes.
   */
  function CumulativeMeshes(attributes: Attributes, shapes: seq<Shape>): (ms: seq<Mesh>)
    requires ShapesInBounds(attributes, shapes)
    ensures |ms| == |shapes|
  {
    seq(|shapes|, k requires 0 <= k < |shapes| => IndexMesh(ShapeVertices(attributes, shapes[..k + 1])))
  }

  /** One mesh per shape holding exactly that shape's records. */
  function PerShapeMeshes(attributes: Attributes, shapes: seq<Shape>): (ms: seq<Mesh>)
    requires ShapesInBounds(attributes, shapes)
    ensures |ms| == |shapes|
  {
    seq(|shapes|, k requires 0 <= k < |shapes| => IndexMesh(AssembleAll(attributes, shapes[k].indices)))
  }

  /**
   * `Model::loadModel` as written: a failed parse throws before any mesh is
   * added; otherwise one mesh is pushed per shape, built from state shared by
   * all shapes.
   */
  method LoadModelAsWritten(parse: ObjParse) returns (r: Result<seq<Mesh>, string>)
    requires WellIndexed(parse)
    ensures parse.ParseFailed? <==> r.Failure?
    ensures parse.ParseFailed? ==> r == Failure(LoadError(parse))
    ensures parse.Parsed? ==> r == Success(CumulativeMeshes(parse.attributes, parse.shapes))
  {
    if parse.ParseFailed? {
      return Failure(LoadError(parse));
    }
    var attributes, shapes := parse.attributes, parse.shapes;
    var vertices: seq<Vertex>, indices: seq<nat>, unique: map<Vertex, nat> := [], [], map[];
    var meshes: seq<Mesh> := [];
    EmptyConsistent();
    var s := 0;
    while s < |shapes|
      invariant 0 <= s <= |shapes| && ShapesInBounds(attributes, shapes[..s])
      invariant Consistent(ShapeVertices(attributes, shapes[..s]), vertices, indices, unique)
      invariant meshes == CumulativeMeshes(attributes, shapes[..s])
    {
      CumulativeStep(attributes, shapes, s);
      vertices, indices, unique :=
        AppendRecords(attributes, shapes[s].indices, ShapeVertices(attributes, shapes[..s]), vertices, indices, unique);
      ConsistentIsIndexMesh(ShapeVertices(attributes, shapes[..s + 1]), vertices, indices, unique);
      meshes := meshes + [Mesh(vertices, indices)];
      s := s + 1;
    }
    assert shapes[..s] == shapes;
    return Success(meshes);
  }

  lemma ShapeVerticesExtend(attributes: Attributes, shapes: seq<Shape>, shape: Shape)
    requires ShapesInBounds(attributes, shapes) && AllInBounds(attributes, shape.indices)
    ensures ShapesInBounds(attributes, shapes + [shape])
    ensures ShapeVertices(attributes, shapes + [shape])
         == ShapeVertices(attributes, shapes) + AssembleAll(attributes, shape.indices)
  {
    var extended := shapes + [shape];
    assert extended[..|shapes|] == shapes;
    assert extended[|shapes|] == shape;
  }

  lemma CumulativeMeshesExtend(attributes: Attributes, shapes: seq<Shape>, shape: Shape)
    requires ShapesInBounds(attributes, shapes + [shape])
    ensures ShapesInBounds(attributes, shapes)
    ensures CumulativeMeshes(attributes, shapes + [shape])
         == CumulativeMeshes(attributes, shapes) + [IndexMesh(ShapeVertices(attributes, shapes + [shape]))]
  {
    var extended := shapes + [shape];
    ShapesInBoundsPrefix(attributes, extended, |shapes|);
    assert extended[..|shapes|] == shapes;
    var lhs, rhs := CumulativeMeshes(attributes, extended), CumulativeMeshes(attributes, shapes);
    forall k | 0 <= k < |shapes|
      ensures lhs[k] == rhs[k]
    {
      assert extended[..k + 1] == shapes[..k + 1];
    }
    assert extended[..|shapes| + 1] == extended;
  }

  /** One more shape, as `loadModel` as written sees it. */
  lemma CumulativeStep(attributes: Attributes, shapes: seq<Shape>, s: nat)
    requires ShapesInBounds(attributes, shapes) && s < |shapes|
    ensures AllInBounds(attributes, shapes[s].indices)
    ensures ShapesInBounds(attributes, shapes[..s]) && ShapesInBounds(attributes, shapes[..s + 1])
    ensures ShapeVertices(attributes, shapes[..s + 1])
         == ShapeVertices(attributes, shapes[..s]) + AssembleAll(attributes, shapes[s].indices)
    ensures CumulativeMeshes(attributes, shapes[..s + 1])
         == CumulativeMeshes(attributes, shapes[..s]) + [IndexMesh(ShapeVertices(attributes, shapes[..s + 1]))]
  {
    ShapesInBoundsPrefix(attributes, shapes, s);
    assert shapes[..s + 1] == shapes[..s] + [shapes[s]];
    ShapeVerticesExtend(attributes, shapes[..s], shapes[s]);
    CumulativeMeshesExtend(attributes, shapes[..s], shapes[s]);
  }

  lemma PerShapeMeshesExtend(attributes: Attributes, shapes: seq<Shape>, s: nat)
    requires ShapesInBounds(attributes, shapes) && s < |shapes|
    ensures AllInBounds(attributes, shapes[s].indices)
    ensures ShapesInBounds(attributes, shapes[..s]) && ShapesInBounds(attributes, shapes[..s + 1])
    ensures PerShapeMeshes(attributes, shapes[..s + 1])
         == PerShapeMeshes(attributes, shapes[..s]) + [IndexMesh(AssembleAll(attributes, shapes[s].indices))]
  {
    ShapesInBoundsPrefix(attributes, shapes, s);
    ShapesInBoundsPrefix(attributes, shapes, s + 1);
    assert shapes[..s + 1][s] == shapes[s];
    var lhs, rhs := PerShapeMeshes(attributes, shapes[..s + 1]), PerShapeMeshes(attributes, shapes[..s]);
    forall k | 0 <= k < s
      ensures lhs[k] == rhs[k]
    {
      assert shapes[..s + 1][k] == shapes[..s][k];
    }
  }

  /**
   * `loadModel` with the intended per-shape meshes: the vertex list, index
   * list and map start empty for every shape.
   */
  method LoadModel(parse: ObjParse) returns (r: Result<seq<Mesh>, string>)
    requires WellIndexed(parse)
    ensures parse.ParseFailed? <==> r.Failure?
    ensures parse.ParseFailed? ==> r == Failure(LoadError(parse))
    ensures parse.Parsed? ==> r == Success(PerShapeMeshes(parse.attributes, parse.shapes))
  {
    if parse.ParseFailed? {
      return Failure(LoadError(parse));
    }
    var attributes, shapes := parse.attributes, parse.shapes;
    var meshes: seq<Mesh> := [];
    var s := 0;
    while s < |shapes|
      invariant 0 <= s <= |shapes|
      invariant meshes == PerShapeMeshes(attributes, shapes[..s])
    {
      var records := shapes[s].indices;
      PerShapeMeshesExtend(attributes, shapes, s);
      EmptyConsistent();
      var vertices, indices, unique := AppendRecords(attributes, records, [], [], [], map[]);
      assert [] + AssembleAll(attributes, records) == AssembleAll(attributes, records);
      ConsistentIsIndexMesh(AssembleAll(attributes, records), vertices, indices, unique);
      meshes := meshes + [Mesh(vertices, indices)];
      s := s + 1;
    }
    assert shapes[..s] == shapes;
    return Success(meshes);
  }

  /**
   * `Model(Path, Name)`: loads the file with `loadModel` as written (the
   * failure is the exception that propagates out of the constructor) and
   * keeps path, name and the cumulative meshes.
   */
  method Load(path: string, name: string, parse: ObjParse) returns (r: Result<Model, string>)
    requires WellIndexed(parse)
    ensures parse.ParseFailed? <==> r.Failure?
    ensures parse.ParseFailed? ==> r == Failure(LoadError(parse))
    ensures r.Success? ==> fresh(r.value) && r.value.name == name && r.value.path == path && !r.value.selected
    ensures r.Success? ==> r.value.meshes == CumulativeMeshes(parse.attributes, parse.shapes)
  {
    var meshes := LoadModelAsWritten(parse);
    if meshes.Failure? {
      return Failure(meshes.error);
    }
    var model := new Model.Loaded(path, name, meshes.value);
    return Success(model);
  }

  /**
   * As written, the mesh pushed after shape k starts with the whole mesh
   * pushed after shape k-1 and adds shape k's records: drawing every mesh
   * draws shape 0 once per shape.
   */
  lemma CumulativeMeshRepeatsPrevious(attributes: Attributes, shapes: seq<Shape>, k: nat)
    requires ShapesInBounds(attributes, shapes) && 0 < k < |shapes|
    ensures var ms := CumulativeMeshes(attributes, shapes);
      && ms[k - 1].vertices <= ms[k].vertices
      && ms[k - 1].indices <= ms[k].indices
      && ms[k].IndexCount() == ms[k - 1].IndexCount() + |shapes[k].indices|
  {
    var prefix := shapes[..k + 1];
    assert prefix[..k] == shapes[..k];
    IndexMeshPrefix(ShapeVertices(attributes, shapes[..k]), AssembleAll(attributes, shapes[k].indices));
  }

  /** With per-shape meshes, mesh k reconstructs exactly the vertices of shape k. */
  lemma PerShapeMeshExact(attributes: Attributes, shapes: seq<Shape>, k: nat)
    requires ShapesInBounds(attributes, shapes) && k < |shapes|
    ensures var m := PerShapeMeshes(attributes, shapes)[k];
      var input := AssembleAll(attributes, shapes[k].indices);
      && m.IndexCount() == |shapes[k].indices|
      && (forall j :: 0 <= j < |input| ==> m.indices[j] < |m.vertices| && m.vertices[m.indices[j]] == input[j])
      && Distinct(m.vertices)
  {
    IndexMeshCorrect(AssembleAll(attributes, shapes[k].indices));
  }
}
