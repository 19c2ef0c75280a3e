/** The single-mesh OBJ loader (src/core/Assets.cpp). */
module Assets {
  import opened Wrappers
  import opened ObjIndexing

  /** What the tinyobj parse yields: the attribute arrays and the shapes, or its diagnostics. */
  datatype ObjParse =
    | Parsed(attributes: Attributes, shapes: seq<Shape>)
    | ParseFailed(warning: string, error: string)

  /** Every record of every shape reads inside the attribute arrays. */
  predicate WellIndexed(parse: ObjParse)
  {
    parse.Parsed? ==> ShapesInBounds(parse.attributes, parse.shapes)
  }

  /** The message of the exception both loaders throw when the parse fails. */
  function LoadError(parse: ObjParse): string
    requires parse.ParseFailed?
  {
    "ast::assets::loadOBJFile: Error: " + parse.warning + parse.error
  }

  /**
   * `loadOBJFile`: a failed parse is an error; otherwise the records of all
   * shapes are de-duplicated through one vertex list, one index list and one
   * map, and merged into a single mesh.
   */
  method LoadObjFile(parse: ObjParse) returns (r: Result<Mesh, string>)
    requires WellIndexed(parse)
    ensures parse.ParseFailed? <==> r.Failure?
    ensures parse.ParseFailed? ==> r == Failure(LoadError(parse))
    ensures parse.Parsed? ==> r == Success(IndexMesh(ShapeVertices(parse.attributes, parse.shapes)))
    ensures parse.Parsed? ==>
      var input := ShapeVertices(parse.attributes, parse.shapes);
      var m := r.value;
      && |m.indices| == |input| == TotalIndices(parse.shapes)
      && (forall j :: 0 <= j < |input| ==> m.indices[j] < |m.vertices| && m.vertices[m.indices[j]] == input[j])
      && Distinct(m.vertices)
  {
    if parse.ParseFailed? {
      return Failure(LoadError(parse));
    }
    var attributes, shapes := parse.attributes, parse.shapes;
    var vertices: seq<Vertex>, indices: seq<nat>, unique: map<Vertex, nat> := [], [], map[];
    EmptyConsistent();
    var s := 0;
    while s < |shapes|
      invariant 0 <= s <= |shapes|
      invariant Consistent(ShapeVertices(attributes, shapes[..s]), vertices, indices, unique)
    {
      assert shapes[..s + 1][..s] == shapes[..s];
      vertices, indices, unique :=
        AppendRecords(attributes, shapes[s].indices, ShapeVertices(attributes, shapes[..s]), vertices, indices, unique);
      s := s + 1;
    }
    assert shapes[..|shapes|] == shapes;
    ConsistentIsIndexMesh(ShapeVertices(attributes, shapes), vertices, indices, unique);
    IndexMeshCorrect(ShapeVertices(attributes, shapes));
    return Success(Mesh(vertices, indices));
  }
}
