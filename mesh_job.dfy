/** MeshJob: builds a chunk's render mesh in place. Tile i of an n-by-n chunk owns
    vertex and UV slots 4i..4i+3 (the quad's corners) and triangle slots
    6i..6i+5 (two triangles over those corners); its texture rectangle starts at
    the atlas slot numbered by the tile's type. Float coordinates are reals. */
module MeshJob {
  import opened Grid
  import opened TileData

  /** Corner k of the quad of tile (x, y), counter-clockwise from (x, y):
      (x,y), (x+1,y), (x+1,y+1), (x,y+1), scaled by the tile size, in the y = 0 plane. */
  function Corner(x: int, y: int, k: int, tileSize: real): Vec3
    requires 0 <= k < 4
  {
    var dx := if k == 1 || k == 2 then 1 else 0;
    var dy := if k == 2 || k == 3 then 1 else 0;
    Vec3(Scale(x + dx, tileSize), 0.0, Scale(y + dy, tileSize))
  }

  /** Corner k of a texture rectangle of side tileOffset whose lower-left is `origin`. */
  function UvCorner(origin: Vec2, k: int, tileOffset: real): Vec2
    requires 0 <= k < 4
  {
    var du := if k == 1 || k == 2 then tileOffset else 0.0;
    var dv := if k == 2 || k == 3 then tileOffset else 0.0;
    Vec2(origin.x + du, origin.y + dv)
  }

  /** The four vertices of the quad of tile `index`. */
  function QuadVertices(index: int, chunkSize: int, tileSize: real): (q: seq<Vec3>)
    requires chunkSize > 0
    ensures |q| == 4
  {
    var x, y := index % chunkSize, index / chunkSize;
    [Corner(x, y, 0, tileSize), Corner(x, y, 1, tileSize), Corner(x, y, 2, tileSize), Corner(x, y, 3, tileSize)]
  }

  /** The two triangles (0,2,1) and (0,3,2) of the quad whose first vertex is `first`. */
  function QuadTriangles(first: int): (q: seq<int>)
    ensures |q| == 6
  {
    [first + 0, first + 2, first + 1, first + 0, first + 3, first + 2]
  }

  /** Every tile's atlas slot exists in the offset table. */
  predicate AtlasFits(tiles: seq<Tile>, uvOffsets: seq<Vec2>)
  {
    forall i :: 0 <= i < |tiles| ==> AtlasIndex(tiles[i].tileType) < |uvOffsets|
  }

  /** The four UVs of tile `index`: its atlas slot's rectangle. */
  function QuadUvs(index: int, tiles: seq<Tile>, uvOffsets: seq<Vec2>, tileOffset: real): (q: seq<Vec2>)
    requires 0 <= index < |tiles| && AtlasFits(tiles, uvOffsets)
    ensures |q| == 4
  {
    var origin := uvOffsets[AtlasIndex(tiles[index].tileType)];
    [UvCorner(origin, 0, tileOffset), UvCorner(origin, 1, tileOffset),
     UvCorner(origin, 2, tileOffset), UvCorner(origin, 3, tileOffset)]
  }

  /** The vertex buffer after the first `count` tiles have been meshed. */
  function MeshVertices(count: nat, chunkSize: int, tileSize: real): (vs: seq<Vec3>)
    requires chunkSize > 0
    ensures |vs| == 4 * count
  {
    if count == 0 then [] else MeshVertices(count - 1, chunkSize, tileSize) + QuadVertices(count - 1, chunkSize, tileSize)
  }

  /** The index buffer after the first `count` tiles have been meshed. */
  function MeshTriangles(count: nat): (ts: seq<int>)
    ensures |ts| == 6 * count
  {
    if count == 0 then [] else MeshTriangles(count - 1) + QuadTriangles(4 * (count - 1))
  }

  /** The UV buffer after the first `count` tiles have been meshed. */
  function MeshUvs(count: nat, tiles: seq<Tile>, uvOffsets: seq<Vec2>, tileOffset: real): (us: seq<Vec2>)
    requires count <= |tiles| && AtlasFits(tiles, uvOffsets)
    ensures |us| == 4 * count
  {
    if count == 0 then [] else MeshUvs(count - 1, tiles, uvOffsets, tileOffset) + QuadUvs(count - 1, tiles, uvOffsets, tileOffset)
  }

  /** Vertex slot v holds corner v % 4 of tile v / 4, the tile at
      ((v / 4) % n, (v / 4) / n): the quads tile the chunk in row-major order. */
  lemma {:induction false} MeshVertexSlot(count: nat, chunkSize: int, tileSize: real, v: int)
    requires chunkSize > 0 && 0 <= v < 4 * count
    ensures MeshVertices(count, chunkSize, tileSize)[v]
      == Corner((v / 4) % chunkSize, (v / 4) / chunkSize, v % 4, tileSize)
  {
    if v < 4 * (count - 1) {
      MeshVertexSlot(count - 1, chunkSize, tileSize, v);
    } else {
      DivModUnique(v, 4, count - 1, v - 4 * (count - 1));
    }
  }

  /** Triangle slot t refers to vertex 4 * (t / 6) + [0,2,1,0,3,2][t % 6]: a corner
      of the quad of the same tile, and so a valid vertex of the mesh. */
  lemma {:induction false} MeshTriangleSlot(count: nat, t: int)
    requires 0 <= t < 6 * count
    ensures MeshTriangles(count)[t] / 4 == t / 6
    ensures 0 <= MeshTriangles(count)[t] < 4 * count
    ensures MeshTriangles(count)[t] % 4 == [0, 2, 1, 0, 3, 2][t % 6]
  {
    if t < 6 * (count - 1) {
      MeshTriangleSlot(count - 1, t);
    } else {
      var k := t - 6 * (count - 1);
      DivModUnique(t, 6, count - 1, k);
      DivModUnique(MeshTriangles(count)[t], 4, count - 1, [0, 2, 1, 0, 3, 2][k]);
    }
  }

  /** UV slot v holds corner v % 4 of the atlas rectangle of tile v / 4's type. */
  lemma {:induction false} MeshUvSlot(count: nat, tiles: seq<Tile>, uvOffsets: seq<Vec2>, tileOffset: real, v: int)
    requires count <= |tiles| && AtlasFits(tiles, uvOffsets) && 0 <= v < 4 * count
    ensures 0 <= v / 4 < count
    ensures MeshUvs(count, tiles, uvOffsets, tileOffset)[v]
      == UvCorner(uvOffsets[AtlasIndex(tiles[v / 4].tileType)], v % 4, tileOffset)
  {
    if v < 4 * (count - 1) {
      MeshUvSlot(count - 1, tiles, uvOffsets, tileOffset, v);
    } else {
      DivModUnique(v, 4, count - 1, v - 4 * (count - 1));
    }
  }

  /** An atlas of dim x dim slots holds all four named tile types exactly when
      dim >= 8: DIRT's slot is 56. */
  lemma AtlasDimensionSuffices(dim: nat)
    ensures (forall t: TileType :: AtlasIndex(t) < dim * dim) <==> dim >= 8
  {
    if dim >= 8 {
      MulNonnegative(dim - 8, dim);
      MulNonnegative(dim - 8, 8);
    } else {
      assert AtlasIndex(DIRT) == 56;
      MulNonnegative(7 - dim, dim);
      MulNonnegative(7 - dim, 7);
    }
  }

  /** The "Define vertices" block for tile `index`: slots 4i..4i+3 and nothing else. */
  method DefineVertices(vertices: array<Vec3>, chunkSize: int, tileSize: real, index: int)
    requires chunkSize > 0 && 0 <= index && 4 * index + 4 <= vertices.Length
    modifies vertices
    ensures vertices[..] == old(vertices[..4 * index]) + QuadVertices(index, chunkSize, tileSize)
                            + old(vertices[4 * index + 4..])
  {
    var x := index % chunkSize;
    var y := index / chunkSize;
    var vertexIndex := index * 4;
    vertices[vertexIndex + 0] := Vec3(Scale(x, tileSize), 0.0, Scale(y, tileSize));
    vertices[vertexIndex + 1] := Vec3(Scale(x + 1, tileSize), 0.0, Scale(y, tileSize));
    vertices[vertexIndex + 2] := Vec3(Scale(x + 1, tileSize), 0.0, Scale(y + 1, tileSize));
    vertices[vertexIndex + 3] := Vec3(Scale(x, tileSize), 0.0, Scale(y + 1, tileSize));
    assert vertices[..] == old(vertices[..4 * index]) + QuadVertices(index, chunkSize, tileSize)
                           + old(vertices[4 * index + 4..]);
  }

  /** The "Define triangles" block for tile `index`: slots 6i..6i+5 and nothing else. */
  method DefineTriangles(triangles: array<int>, index: int)
    requires 0 <= index && 6 * index + 6 <= triangles.Length
    modifies triangles
    ensures triangles[..] == old(triangles[..6 * index]) + QuadTriangles(4 * index)
                             + old(triangles[6 * index + 6..])
  {
    var vertexIndex := index * 4;
    var triangleIndex := index * 6;
    triangles[triangleIndex + 0] := vertexIndex + 0;
    triangles[triangleIndex + 1] := vertexIndex + 2;
    triangles[triangleIndex + 2] := vertexIndex + 1;
    triangles[triangleIndex + 3] := vertexIndex + 0;
    triangles[triangleIndex + 4] := vertexIndex + 3;
    triangles[triangleIndex + 5] := vertexIndex + 2;
    assert triangles[..] == old(triangles[..6 * index]) + QuadTriangles(4 * index)
                            + old(triangles[6 * index + 6..]);
  }

  /** The "Define UVs" block for tile `index`: slots 4i..4i+3 and nothing else. */
  method DefineUvs(uvs: array<Vec2>, uvOffsets: seq<Vec2>, tiles: seq<Tile>, tileOffset: real, index: int)
    requires 0 <= index < |tiles| && AtlasFits(tiles, uvOffsets) && 4 * index + 4 <= uvs.Length
    modifies uvs
    ensures uvs[..] == old(uvs[..4 * index]) + QuadUvs(index, tiles, uvOffsets, tileOffset)
                       + old(uvs[4 * index + 4..])
  {
    var vertexIndex := index * 4;
    var atlasIndex := AtlasIndex(tiles[index].tileType);
    var origin := uvOffsets[atlasIndex];
    uvs[vertexIndex + 0] := Vec2(origin.x + 0.0, origin.y + 0.0);
    uvs[vertexIndex + 1] := Vec2(origin.x + tileOffset, origin.y + 0.0);
    uvs[vertexIndex + 2] := Vec2(origin.x + tileOffset, origin.y + tileOffset);
    uvs[vertexIndex + 3] := Vec2(origin.x + 0.0, origin.y + tileOffset);
    assert uvs[..] == old(uvs[..4 * index]) + QuadUvs(index, tiles, uvOffsets, tileOffset)
                      + old(uvs[4 * index + 4..]);
  }

  /** Execute: the loop over all n^2 tiles leaves each buffer holding exactly the
      mesh of the whole chunk. */
  method Execute(vertices: array<Vec3>, triangles: array<int>, uvs: array<Vec2>,
                 uvOffsets: seq<Vec2>, tiles: seq<Tile>, chunkSize: int, tileSize: real, tileOffset: real)
    requires chunkSize > 0
    requires vertices.Length == 4 * (chunkSize * chunkSize) && uvs.Length == 4 * (chunkSize * chunkSize)
    requires triangles.Length == 6 * (chunkSize * chunkSize)
    requires |tiles| == chunkSize * chunkSize && AtlasFits(tiles, uvOffsets)
    modifies vertices, triangles, uvs
    ensures vertices[..] == MeshVertices(chunkSize * chunkSize, chunkSize, tileSize)
    ensures triangles[..] == MeshTriangles(chunkSize * chunkSize)
    ensures uvs[..] == MeshUvs(chunkSize * chunkSize, tiles, uvOffsets, tileOffset)
  {
    var index := 0;
    while index < chunkSize * chunkSize
      invariant 0 <= index <= chunkSize * chunkSize
      invariant vertices[..4 * index] == MeshVertices(index, chunkSize, tileSize)
      invariant triangles[..6 * index] == MeshTriangles(index)
      invariant uvs[..4 * index] == MeshUvs(index, tiles, uvOffsets, tileOffset)
    {
      DefineVertices(vertices, chunkSize, tileSize, index);
      DefineTriangles(triangles, index);
      DefineUvs(uvs, uvOffsets, tiles, tileOffset, index);
      assert vertices[..4 * (index + 1)] == vertices[..4 * index] + QuadVertices(index, chunkSize, tileSize);
      assert triangles[..6 * (index + 1)] == triangles[..6 * index] + QuadTriangles(4 * index);
      assert uvs[..4 * (index + 1)] == uvs[..4 * index] + QuadUvs(index, tiles, uvOffsets, tileOffset);
      index := index + 1;
    }
    assert vertices[..] == vertices[..4 * index];
    assert triangles[..] == triangles[..6 * index];
    assert uvs[..] == uvs[..4 * index];
  }
}
