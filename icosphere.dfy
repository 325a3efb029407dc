/**
  The sphere mesh of init-buffers.js: `createIcosphere` starts from the twelve
  vertices and twenty faces of an icosahedron and splits every face into four,
  `subdivisions` times, creating each edge midpoint once through a cache keyed
  by the unordered vertex pair.

  The local state that the helpers `addVertex` and `getMiddlePoint` close over
  (`vertices`, `midCache`) is the state of an `IcosphereBuilder` object. The
  coordinates themselves are abstract: `normalize` is a parameter.
 */
module Icosphere {
  import opened Vector

  /** A triangle of vertex indices. */
  datatype Face = Face(a: nat, b: nat, c: nat)

  /**
    The cache key of the edge between `p1` and `p2`: the smaller index first,
    as the string `p1 < p2 ? "p1_p2" : "p2_p1"` (an injective spelling of the pair).
   */
  function MidKey(p1: nat, p2: nat): (key: (nat, nat))
    ensures key.0 <= key.1
    ensures key == (p1, p2) || key == (p2, p1)
  {
    if p1 < p2 then (p1, p2) else (p2, p1)
  }

  /** Two edges have the same key exactly when they join the same two vertices, in either order. */
  lemma MidKeyIdentifiesEdge(p1: nat, p2: nat, q1: nat, q2: nat)
    ensures MidKey(p1, p2) == MidKey(q1, q2) <==> (p1 == q1 && p2 == q2) || (p1 == q2 && p2 == q1)
  {
  }

  /** The three coordinates `vertices.push(...v)` appends. */
  function Components(v: Vec3): seq<real> {
    [v.x, v.y, v.z]
  }

  /** The component-wise average `getMiddlePoint` normalises. */
  function Midpoint(v1: Vec3, v2: Vec3): Vec3 {
    Vec3((v1.x + v2.x) / 2.0, (v1.y + v2.y) / 2.0, (v1.z + v2.z) / 2.0)
  }

  /** Every index of every face is below `n`. */
  predicate FacesBelow(faces: seq<Face>, n: nat) {
    forall k :: 0 <= k < |faces| ==> faces[k].a < n && faces[k].b < n && faces[k].c < n
  }

  /** `cache` keeps every entry of `earlier`. */
  predicate Extends(earlier: map<(nat, nat), nat>, cache: map<(nat, nat), nat>) {
    forall key :: key in earlier ==> key in cache && cache[key] == earlier[key]
  }

  /**
    `quad` is the split of face `f` made with the midpoints recorded in
    `cache`: each corner keeps its place in one triangle together with the two
    midpoints next to it, and the fourth triangle joins the three midpoints.
   */
  predicate SplitBy(f: Face, quad: seq<Face>, cache: map<(nat, nat), nat>) {
    MidKey(f.a, f.b) in cache && MidKey(f.b, f.c) in cache && MidKey(f.c, f.a) in cache &&
    var ab := cache[MidKey(f.a, f.b)];
    var bc := cache[MidKey(f.b, f.c)];
    var ca := cache[MidKey(f.c, f.a)];
    quad == [Face(f.a, ab, ca), Face(f.b, bc, ab), Face(f.c, ca, bc), Face(ab, bc, ca)]
  }

  lemma FacesBelowMonotone(faces: seq<Face>, n: nat, m: nat)
    requires FacesBelow(faces, n) && n <= m
    ensures FacesBelow(faces, m)
  {
  }

  lemma ExtendsTransitive(c1: map<(nat, nat), nat>, c2: map<(nat, nat), nat>, c3: map<(nat, nat), nat>)
    requires Extends(c1, c2) && Extends(c2, c3)
    ensures Extends(c1, c3)
  {
  }

  /** A split stays a split when the cache only gains entries. */
  lemma SplitByExtends(f: Face, quad: seq<Face>, c1: map<(nat, nat), nat>, c2: map<(nat, nat), nat>)
    requires SplitBy(f, quad, c1) && Extends(c1, c2)
    ensures SplitBy(f, quad, c2)
  {
  }

  class IcosphereBuilder {
    /** The flat coordinate list `[x0, y0, z0, x1, ...]`. */
    var vertices: seq<real>
    /** Edge key to the index of its midpoint vertex. */
    var midCache: map<(nat, nat), nat>
    const normalize: Vec3 -> Vec3

    function VertexCount(): nat
      reads this
    {
      |vertices| / 3
    }

    /**
      Whole vertices only, and every cache entry joins two existing vertices,
      smaller index first, and names an existing vertex.
     */
    ghost predicate Valid()
      reads this
    {
      |vertices| % 3 == 0 &&
      forall key :: key in midCache ==>
        key.0 <= key.1 < VertexCount() && midCache[key] < VertexCount()
    }

    /** Vertex `k` as read by `getMiddlePoint`. */
    function Vertex(k: nat): Vec3
      requires Valid() && k < VertexCount()
      reads this
    {
      Vec3(vertices[3 * k], vertices[3 * k + 1], vertices[3 * k + 2])
    }

    constructor(normalize: Vec3 -> Vec3)
      ensures Valid() && vertices == [] && midCache == map[] && this.normalize == normalize
    {
      vertices := [];
      midCache := map[];
      this.normalize := normalize;
    }

    /** `addVertex(x, y, z)`: append the normalised point; its index is the old vertex count. */
    method AddVertex(x: real, y: real, z: real) returns (index: nat)
      requires Valid()
      modifies this
      ensures Valid()
      ensures vertices == old(vertices) + Components(normalize(Vec3(x, y, z)))
      ensures midCache == old(midCache)
      ensures index == old(VertexCount()) && VertexCount() == index + 1
    {
      var vertex := normalize(Vec3(x, y, z));
      vertices := vertices + Components(vertex);
      index := |vertices| / 3 - 1;
    }

    /**
      `getMiddlePoint(p1, p2)`: the cached midpoint of the edge, or else a new
      vertex at the normalised average of the two ends, recorded in the cache.
     */
    method GetMiddlePoint(p1: nat, p2: nat) returns (index: nat)
      requires Valid() && p1 < VertexCount() && p2 < VertexCount()
      modifies this
      ensures Valid()
      ensures MidKey(p1, p2) in midCache && midCache[MidKey(p1, p2)] == index && index < VertexCount()
      // a hit adds nothing
      ensures MidKey(p1, p2) in old(midCache) ==>
        index == old(midCache)[MidKey(p1, p2)] && vertices == old(vertices) && midCache == old(midCache)
      // a miss appends exactly one vertex, whose index is the old vertex count
      ensures MidKey(p1, p2) !in old(midCache) ==>
        index == old(VertexCount()) &&
        vertices == old(vertices) + Components(normalize(Midpoint(old(Vertex(p1)), old(Vertex(p2))))) &&
        midCache == old(midCache)[MidKey(p1, p2) := index]
      // either way the vertices and the cache only grow
      ensures old(vertices) <= vertices && Extends(old(midCache), midCache)
      ensures old(VertexCount()) <= VertexCount()
    {
      var key := MidKey(p1, p2);
      if key in midCache {
        return midCache[key];
      }
      var i1 := p1 * 3;
      var i2 := p2 * 3;
      var v1 := Vec3(vertices[i1], vertices[i1 + 1], vertices[i1 + 2]);
      var v2 := Vec3(vertices[i2], vertices[i2 + 1], vertices[i2 + 2]);
      var middle := normalize(Midpoint(v1, v2));
      index := |vertices| / 3;
      vertices := vertices + Components(middle);
      midCache := midCache[key := index];
    }

    /** One pass of the subdivision loop: every face becomes four, in order. */
    method SubdivideFaces(faces: seq<Face>) returns (newFaces: seq<Face>)
      requires Valid() && FacesBelow(faces, VertexCount())
      modifies this
      ensures Valid()
      ensures |newFaces| == 4 * |faces|
      ensures FacesBelow(newFaces, VertexCount())
      ensures forall k :: 0 <= k < |faces| ==> SplitBy(faces[k], newFaces[4 * k .. 4 * k + 4], midCache)
      ensures old(vertices) <= vertices
      ensures Extends(old(midCache), midCache)
    {
      newFaces := [];
      for i := 0 to |faces|
        invariant Valid()
        invariant old(vertices) <= vertices
        invariant Extends(old(midCache), midCache)
        invariant |newFaces| == 4 * i
        invariant FacesBelow(faces, VertexCount())
        invariant FacesBelow(newFaces, VertexCount())
        invariant forall k :: 0 <= k < i ==> SplitBy(faces[k], newFaces[4 * k .. 4 * k + 4], midCache)
      {
        ghost var cache0 := midCache;
        ghost var vertices0 := vertices;
        var quad := SplitFace(faces[i]);
        ExtendsTransitive(old(midCache), cache0, midCache);
        FacesBelowMonotone(faces, |vertices0| / 3, VertexCount());
        FacesBelowMonotone(newFaces, |vertices0| / 3, VertexCount());
        forall k | 0 <= k < i
          ensures SplitBy(faces[k], newFaces[4 * k .. 4 * k + 4], midCache)
        {
          SplitByExtends(faces[k], newFaces[4 * k .. 4 * k + 4], cache0, midCache);
        }
        ghost var done := newFaces;
        newFaces := newFaces + quad;
        assert newFaces[4 * i .. 4 * i + 4] == quad;
        assert forall k :: 0 <= k < i ==> newFaces[4 * k .. 4 * k + 4] == done[4 * k .. 4 * k + 4];
      }
    }

    /** The body of the subdivision loop for one face `[a, b, c]`. */
    method SplitFace(face: Face) returns (quad: seq<Face>)
      requires Valid() && face.a < VertexCount() && face.b < VertexCount() && face.c < VertexCount()
      modifies this
      ensures Valid()
      ensures SplitBy(face, quad, midCache)
      ensures FacesBelow(quad, VertexCount())
      ensures old(vertices) <= vertices
      ensures Extends(old(midCache), midCache)
    {
      var a, b, c := face.a, face.b, face.c;
      ghost var cache0, vertices0 := midCache, vertices;
      var ab := GetMiddlePoint(a, b);
      ghost var cache1, vertices1, count1 := midCache, vertices, VertexCount();
      var bc := GetMiddlePoint(b, c);
      ghost var cache2, vertices2, count2 := midCache, vertices, VertexCount();
      var ca := GetMiddlePoint(c, a);
      ExtendsTransitive(cache1, cache2, midCache);
      ExtendsTransitive(cache0, cache1, midCache);
      assert vertices0 <= vertices1 <= vertices2 <= vertices;
      assert ab < count1 <= count2 <= VertexCount() && bc < count2;
      assert midCache[MidKey(a, b)] == ab;
      assert midCache[MidKey(b, c)] == bc;
      quad := [Face(a, ab, ca), Face(b, bc, ab), Face(c, ca, bc), Face(ab, bc, ca)];
    }
  }

  /** The twenty faces of the icosahedron over the vertices `v0 .. v11` in creation order. */
  const IcosahedronFaces: seq<Face> := [
    Face(0, 11, 5), Face(0, 5, 1), Face(0, 1, 7), Face(0, 7, 10), Face(0, 10, 11),
    Face(1, 5, 9), Face(5, 11, 4), Face(11, 10, 2), Face(10, 7, 6), Face(7, 1, 8),
    Face(3, 9, 4), Face(3, 4, 2), Face(3, 2, 6), Face(3, 6, 8), Face(3, 8, 9),
    Face(4, 9, 5), Face(2, 4, 11), Face(6, 2, 10), Face(8, 6, 7), Face(9, 8, 1)
  ]

  /** The base mesh: twenty faces over twelve vertices. */
  lemma BaseMesh()
    ensures |IcosahedronFaces| == 20 && FacesBelow(IcosahedronFaces, 12)
  {
  }

  function Pow4(n: nat): (r: nat)
    ensures 1 <= r
  {
    if n == 0 then 1 else 4 * Pow4(n - 1)
  }

  /** The index list `faces.forEach(face => indices.push(...face))` builds. */
  function Flatten(faces: seq<Face>): (r: seq<nat>)
    ensures |r| == 3 * |faces|
  {
    if faces == [] then []
    else
      var f := faces[|faces| - 1];
      Flatten(faces[..|faces| - 1]) + [f.a, f.b, f.c]
  }

  /** Triangle `k` is `indices[3k .. 3k + 3]`. */
  lemma {:induction false} FlattenAt(faces: seq<Face>, k: nat)
    requires k < |faces|
    ensures Flatten(faces)[3 * k .. 3 * k + 3] == [faces[k].a, faces[k].b, faces[k].c]
  {
    var init := faces[..|faces| - 1];
    if k < |faces| - 1 {
      FlattenAt(init, k);
      assert init[k] == faces[k];
      assert Flatten(faces)[3 * k .. 3 * k + 3] == Flatten(init)[3 * k .. 3 * k + 3];
    }
  }

  /** Indices of faces below `n` are below `n`. */
  lemma {:induction false} FlattenBelow(faces: seq<Face>, n: nat)
    requires FacesBelow(faces, n)
    ensures forall m :: 0 <= m < |Flatten(faces)| ==> Flatten(faces)[m] < n
  {
    if faces != [] {
      var init := faces[..|faces| - 1];
      assert FacesBelow(init, n);
      FlattenBelow(init, n);
    }
  }

  /** What `createIcosphere` returns. */
  datatype Mesh = Mesh(positions: seq<real>, indices: seq<nat>, indexCount: nat)

  /**
    The first part of `createIcosphere`: the twelve `addVertex` calls of the
    icosahedron (golden ratio `t`) and its face table.
   */
  method AddIcosahedron(builder: IcosphereBuilder, t: real) returns (faces: seq<Face>)
    requires builder.Valid() && builder.vertices == []
    modifies builder
    ensures builder.Valid() && builder.VertexCount() == 12 && builder.midCache == old(builder.midCache)
    ensures faces == IcosahedronFaces
  {
    var v0 := builder.AddVertex(-1.0, t, 0.0);
    assert v0 == 0 && builder.VertexCount() == 1;
    var v1 := builder.AddVertex(1.0, t, 0.0);
    assert v1 == 1 && builder.VertexCount() == 2;
    var v2 := builder.AddVertex(-1.0, -t, 0.0);
    assert v2 == 2 && builder.VertexCount() == 3;
    var v3 := builder.AddVertex(1.0, -t, 0.0);
    assert v3 == 3 && builder.VertexCount() == 4;

    var v4 := builder.AddVertex(0.0, -1.0, t);
    assert v4 == 4 && builder.VertexCount() == 5;
    var v5 := builder.AddVertex(0.0, 1.0, t);
    assert v5 == 5 && builder.VertexCount() == 6;
    var v6 := builder.AddVertex(0.0, -1.0, -t);
    assert v6 == 6 && builder.VertexCount() == 7;
    var v7 := builder.AddVertex(0.0, 1.0, -t);
    assert v7 == 7 && builder.VertexCount() == 8;

    var v8 := builder.AddVertex(t, 0.0, -1.0);
    assert v8 == 8 && builder.VertexCount() == 9;
    var v9 := builder.AddVertex(t, 0.0, 1.0);
    assert v9 == 9 && builder.VertexCount() == 10;
    var v10 := builder.AddVertex(-t, 0.0, -1.0);
    assert v10 == 10 && builder.VertexCount() == 11;
    var v11 := builder.AddVertex(-t, 0.0, 1.0);
    assert v11 == 11 && builder.VertexCount() == 12;

    faces := [
      Face(v0, v11, v5), Face(v0, v5, v1), Face(v0, v1, v7), Face(v0, v7, v10), Face(v0, v10, v11),
      Face(v1, v5, v9), Face(v5, v11, v4), Face(v11, v10, v2), Face(v10, v7, v6), Face(v7, v1, v8),
      Face(v3, v9, v4), Face(v3, v4, v2), Face(v3, v2, v6), Face(v3, v6, v8), Face(v3, v8, v9),
      Face(v4, v9, v5), Face(v2, v4, v11), Face(v6, v2, v10), Face(v8, v6, v7), Face(v9, v8, v1)
    ];
  }

  /** The last part of `createIcosphere`: `faces.forEach(face => indices.push(...face))`. */
  method FlattenFaces(faces: seq<Face>) returns (indices: seq<nat>)
    ensures indices == Flatten(faces)
  {
    indices := [];
    for k := 0 to |faces|
      invariant indices == Flatten(faces[..k])
    {
      assert faces[..k + 1][..k] == faces[..k];
      indices := indices + [faces[k].a, faces[k].b, faces[k].c];
    }
    assert faces[..|faces|] == faces;
  }

  /**
    `createIcosphere(subdivisions)`: `20 * 4^s` triangles, so `60 * 4^s`
    indices, each naming one of the vertices of `positions`.
   */
  method CreateIcosphere(subdivisions: nat, sqrt: real -> real, normalize: Vec3 -> Vec3) returns (mesh: Mesh)
    ensures |mesh.positions| % 3 == 0
    ensures |mesh.indices| == 60 * Pow4(subdivisions) && mesh.indexCount == |mesh.indices|
    ensures forall m :: 0 <= m < |mesh.indices| ==> mesh.indices[m] < |mesh.positions| / 3
  {
    var t := (1.0 + sqrt(5.0)) / 2.0;
    var builder := new IcosphereBuilder(normalize);
    var faces := AddIcosahedron(builder, t);
    BaseMesh();

    for i := 0 to subdivisions
      invariant builder.Valid()
      invariant |faces| == 20 * Pow4(i)
      invariant FacesBelow(faces, builder.VertexCount())
    {
      faces := builder.SubdivideFaces(faces);
    }

    var indices := FlattenFaces(faces);
    FlattenBelow(faces, builder.VertexCount());
    mesh := Mesh(builder.vertices, indices, |indices|);
  }

  /** `initBuffers` draws the icosphere of two subdivisions: 960 indices. */
  method InitBuffersIndexCount(sqrt: real -> real, normalize: Vec3 -> Vec3) returns (indexCount: nat)
    ensures indexCount == 960
  {
    var mesh := CreateIcosphere(2, sqrt, normalize);
    indexCount := mesh.indexCount;
  }
}
