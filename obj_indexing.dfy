/**
 * The vertex de-duplication that turns a parsed OBJ file into a vertex list and
 * an index buffer (src/core/Assets.cpp and src/core/model.cpp). The tinyobj
 * parse is abstracted as its output: flat attribute arrays and per-shape index
 * records.
 */
module ObjIndexing {
  import opened Glm

  /** A vertex as the loaders build it (src/core/vertex.h); compared by value. */
  datatype Vertex = Vertex(position: Vec3, normal: Vec3, texCoords: Vec2)

  /** The flat float arrays of a parsed OBJ file: xyz triples, xyz triples, uv pairs. */
  datatype Attributes = Attributes(vertices: seq<real>, normals: seq<real>, texcoords: seq<real>)

  /** One corner of a face: indices into the three attribute arrays. */
  datatype IndexRecord = IndexRecord(vertexIndex: int, normalIndex: int, texcoordIndex: int)

  datatype Shape = Shape(indices: seq<IndexRecord>)

  /** A mesh: its vertices and the index buffer into them (src/core/mesh.h). */
  datatype Mesh = Mesh(vertices: seq<Vertex>, indices: seq<nat>)
  {
    /** The element count that drawing the mesh submits. */
    function IndexCount(): nat { |indices| }
  }

  /** The reads the loaders make for one record stay inside the attribute arrays. */
  predicate InBounds(attributes: Attributes, r: IndexRecord)
  {
    && 0 <= r.vertexIndex && 3 * r.vertexIndex + 2 < |attributes.vertices|
    && 0 <= r.normalIndex && 3 * r.normalIndex + 2 < |attributes.normals|
    && 0 <= r.texcoordIndex && 2 * r.texcoordIndex + 1 < |attributes.texcoords|
  }

  predicate AllInBounds(attributes: Attributes, records: seq<IndexRecord>)
  {
    forall i :: 0 <= i < |records| ==> InBounds(attributes, records[i])
  }

  predicate ShapesInBounds(attributes: Attributes, shapes: seq<Shape>)
  {
    forall s :: 0 <= s < |shapes| ==> AllInBounds(attributes, shapes[s].indices)
  }

  /**
   * The vertex one record denotes: the position triple at 3*vertex_index, the
   * normal triple at 3*normal_index and the uv pair at 2*texcoord_index, with v
   * flipped to 1 - v.
   */
  function AssembleVertex(attributes: Attributes, r: IndexRecord): Vertex
    requires InBounds(attributes, r)
  {
    var p, n, t := attributes.vertices, attributes.normals, attributes.texcoords;
    var vi, ni, ti := r.vertexIndex, r.normalIndex, r.texcoordIndex;
    Vertex(Vec3(p[3 * vi], p[3 * vi + 1], p[3 * vi + 2]),
           Vec3(n[3 * ni], n[3 * ni + 1], n[3 * ni + 2]),
           Vec2(t[2 * ti], 1.0 - t[2 * ti + 1]))
  }

  /** The vertices a list of records denotes, one per record, in order. */
  function AssembleAll(attributes: Attributes, records: seq<IndexRecord>): (vs: seq<Vertex>)
    requires AllInBounds(attributes, records)
    ensures |vs| == |records|
  {
    seq(|records|, i requires 0 <= i < |records| => AssembleVertex(attributes, records[i]))
  }

  /** Total number of index records over all shapes. */
  function TotalIndices(shapes: seq<Shape>): nat
  {
    if shapes == [] then 0 else TotalIndices(shapes[..|shapes| - 1]) + |shapes[|shapes| - 1].indices|
  }

  lemma ShapesInBoundsPrefix(attributes: Attributes, shapes: seq<Shape>, n: nat)
    requires ShapesInBounds(attributes, shapes) && n <= |shapes|
    ensures ShapesInBounds(attributes, shapes[..n])
  {
    forall s | 0 <= s < n
      ensures AllInBounds(attributes, shapes[..n][s].indices)
    {
      assert shapes[..n][s] == shapes[s];
    }
  }

  /** The vertices the records of all shapes denote, shape after shape. */
  function ShapeVertices(attributes: Attributes, shapes: seq<Shape>): (vs: seq<Vertex>)
    requires ShapesInBounds(attributes, shapes)
    ensures |vs| == TotalIndices(shapes)
  {
    if shapes == [] then []
    else ShapeVertices(attributes, shapes[..|shapes| - 1]) + AssembleAll(attributes, shapes[|shapes| - 1].indices)
  }

  ghost predicate Distinct<T>(s: seq<T>)
  {
    forall i, j :: 0 <= i < j < |s| ==> s[i] != s[j]
  }

  /** The elements of `s` in order of first occurrence: the reference for the vertex list. */
  function FirstOccurrences<T(==)>(s: seq<T>): seq<T>
  {
    if s == [] then []
    else
      var d := FirstOccurrences(s[..|s| - 1]);
      if s[|s| - 1] in d then d else d + [s[|s| - 1]]
  }

  /** The first position of `x` in `s`, or `|s|` when `x` does not occur. */
  function IndexOf<T(==)>(s: seq<T>, x: T): (i: nat)
    ensures i <= |s|
    ensures i < |s| <==> x in s
    ensures i < |s| ==> s[i] == x && x !in s[..i]
  {
    if s == [] then 0
    else if s[0] == x then 0
    else
      assert s == [s[0]] + s[1..];
      1 + IndexOf(s[1..], x)
  }

  /**
   * The reference de-duplication of an assembled vertex stream: the distinct
   * vertices in first-occurrence order, and for each input vertex the position
   * of its copy.
   */
  function IndexMesh(input: seq<Vertex>): Mesh
  {
    var vs := FirstOccurrences(input);
    Mesh(vs, seq(|input|, j requires 0 <= j < |input| => IndexOf(vs, input[j])))
  }

  lemma {:induction false} FirstOccurrencesElements<T>(s: seq<T>)
    ensures forall x :: x in FirstOccurrences(s) <==> x in s
  {
    if s != [] {
      var init := s[..|s| - 1];
      FirstOccurrencesElements(init);
      assert s == init + [s[|s| - 1]];
    }
  }

  lemma {:induction false} FirstOccurrencesDistinct<T>(s: seq<T>)
    ensures Distinct(FirstOccurrences(s))
  {
    if s != [] {
      FirstOccurrencesDistinct(s[..|s| - 1]);
    }
  }

  lemma IndexOfDistinct<T>(s: seq<T>, i: nat)
    requires Distinct(s) && i < |s|
    ensures IndexOf(s, s[i]) == i
  {
  }

  /**
   * What the reference de-duplication promises: one index per input vertex,
   * every index in range and naming a copy of its input vertex, and a vertex
   * list without repetitions that holds exactly the input's vertices.
   */
  lemma IndexMeshCorrect(input: seq<Vertex>)
    ensures var m := IndexMesh(input);
      && |m.indices| == |input|
      && (forall j :: 0 <= j < |input| ==> m.indices[j] < |m.vertices| && m.vertices[m.indices[j]] == input[j])
      && Distinct(m.vertices)
      && (forall v :: v in m.vertices <==> v in input)
  {
    FirstOccurrencesElements(input);
    FirstOccurrencesDistinct(input);
  }

  /**
   * A vertex first met in the stream is appended after all vertices seen before
   * it, so the index it receives is the vertex count before the push.
   */
  lemma {:induction false} NewVertexIndex(seen: seq<Vertex>, v: Vertex)
    requires v !in seen
    ensures FirstOccurrences(seen + [v]) == FirstOccurrences(seen) + [v]
    ensures IndexMesh(seen + [v]).indices[|seen|] == |FirstOccurrences(seen)|
  {
    FirstOccurrencesElements(seen);
    FirstOccurrencesDistinct(seen + [v]);
    assert (seen + [v])[..|seen|] == seen;
    var vs := FirstOccurrences(seen + [v]);
    IndexOfDistinct(vs, |vs| - 1);
  }

  lemma {:induction false} FirstOccurrencesPrefix<T>(s: seq<T>, t: seq<T>)
    ensures FirstOccurrences(s) <= FirstOccurrences(s + t)
    decreases |t|
  {
    if t != [] {
      var t' := t[..|t| - 1];
      FirstOccurrencesPrefix(s, t');
      assert (s + t)[..|s + t| - 1] == s + t';
    } else {
      assert s + t == s;
    }
  }

  lemma {:induction false} IndexOfPrefix<T>(p: seq<T>, q: seq<T>, x: T)
    requires x in p
    ensures IndexOf(p + q, x) == IndexOf(p, x)
  {
    assert (p + q)[0] == p[0];
    if p[0] != x {
      assert (p + q)[1..] == p[1..] + q;
      IndexOfPrefix(p[1..], q, x);
    }
  }

  /** Extending the input stream only appends to the reference vertex list and index buffer. */
  lemma IndexMeshPrefix(s: seq<Vertex>, t: seq<Vertex>)
    ensures IndexMesh(s).vertices <= IndexMesh(s + t).vertices
    ensures IndexMesh(s).indices <= IndexMesh(s + t).indices
  {
    FirstOccurrencesPrefix(s, t);
    FirstOccurrencesElements(s);
    var a, b := FirstOccurrences(s), FirstOccurrences(s + t);
    forall j | 0 <= j < |s|
      ensures IndexMesh(s).indices[j] == IndexMesh(s + t).indices[j]
    {
      assert b == a + b[|a|..];
      IndexOfPrefix(a, b[|a|..], s[j]);
      assert (s + t)[j] == s[j];
    }
  }

  /** The state the loaders keep: the vertex list, the index list and the vertex-to-index map. */
  ghost predicate Consistent(seen: seq<Vertex>, vertices: seq<Vertex>, indices: seq<nat>, unique: map<Vertex, nat>)
  {
    && vertices == FirstOccurrences(seen)
    && |indices| == |seen|
    && (forall j :: 0 <= j < |seen| ==> indices[j] < |vertices| && vertices[indices[j]] == seen[j])
    && (forall v :: v in unique <==> v in vertices)
    && (forall i :: 0 <= i < |vertices| ==> unique[vertices[i]] == i)
  }

  /** The state before any record: everything empty. */
  lemma EmptyConsistent()
    ensures Consistent([], [], [], map[])
  {
  }

  /** A consistent state holds exactly the reference de-duplication of what it has seen. */
  lemma ConsistentIsIndexMesh(seen: seq<Vertex>, vertices: seq<Vertex>, indices: seq<nat>, unique: map<Vertex, nat>)
    requires Consistent(seen, vertices, indices, unique)
    ensures Mesh(vertices, indices) == IndexMesh(seen)
  {
    FirstOccurrencesDistinct(seen);
    var m := IndexMesh(seen);
    forall j | 0 <= j < |seen|
      ensures indices[j] == m.indices[j]
    {
      IndexOfDistinct(vertices, indices[j]);
    }
  }

  lemma AssembledPrefix(attributes: Attributes, records: seq<IndexRecord>, seen: seq<Vertex>, i: nat)
    requires AllInBounds(attributes, records) && i < |records|
    ensures (seen + AssembleAll(attributes, records))[..|seen| + i + 1]
         == (seen + AssembleAll(attributes, records))[..|seen| + i] + [AssembleVertex(attributes, records[i])]
  {
  }

  /** A vertex not in the map is appended and given the next index. */
  lemma ConsistentNewVertex(seen: seq<Vertex>, vertex: Vertex, vertices: seq<Vertex>, indices: seq<nat>, unique: map<Vertex, nat>)
    requires Consistent(seen, vertices, indices, unique) && vertex !in unique
    ensures Consistent(seen + [vertex], vertices + [vertex], indices + [|vertices|], unique[vertex := |vertices|])
  {
    assert (seen + [vertex])[..|seen|] == seen;
  }

  /** A vertex already in the map only has its index pushed again. */
  lemma ConsistentSeenVertex(seen: seq<Vertex>, vertex: Vertex, vertices: seq<Vertex>, indices: seq<nat>, unique: map<Vertex, nat>)
    requires Consistent(seen, vertices, indices, unique) && vertex in unique
    ensures Consistent(seen + [vertex], vertices, indices + [unique[vertex]], unique)
  {
    assert (seen + [vertex])[..|seen|] == seen;
    var k :| 0 <= k < |vertices| && vertices[k] == vertex;
    assert unique[vertex] == k;
  }

  /**
   * The inner loop of both loaders: for each record, assemble its vertex, give
   * it the next index if the map has not seen it, and push its index.
   */
  method AppendRecords(attributes: Attributes, records: seq<IndexRecord>, ghost seen: seq<Vertex>,
                       vertices0: seq<Vertex>, indices0: seq<nat>, unique0: map<Vertex, nat>)
    returns (vertices: seq<Vertex>, indices: seq<nat>, unique: map<Vertex, nat>)
    requires AllInBounds(attributes, records)
    requires Consistent(seen, vertices0, indices0, unique0)
    ensures Consistent(seen + AssembleAll(attributes, records), vertices, indices, unique)
  {
    ghost var all := seen + AssembleAll(attributes, records);
    vertices, indices, unique := vertices0, indices0, unique0;
    assert all[..|seen|] == seen;
    var i := 0;
    while i < |records|
      invariant 0 <= i <= |records|
      invariant Consistent(all[..|seen| + i], vertices, indices, unique)
    {
      var vertex := AssembleVertex(attributes, records[i]);
      ghost var before := all[..|seen| + i];
      AssembledPrefix(attributes, records, seen, i);
      if vertex !in unique {
        ConsistentNewVertex(before, vertex, vertices, indices, unique);
        unique := unique[vertex := |vertices|];
        vertices := vertices + [vertex];
      } else {
        ConsistentSeenVertex(before, vertex, vertices, indices, unique);
      }
      indices := indices + [unique[vertex]];
      i := i + 1;
    }
    assert all[..|seen| + |records|] == all;
  }
}
