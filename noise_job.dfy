/** GenerateChunkTilesJob: fills a chunk's tile array, one slot per parallel-for
    index, by sampling two octaves of Perlin noise at the slot's global tile and
    classifying the value by fixed thresholds. Mathf.PerlinNoise is a foreign
    call; it is passed in as the function `perlin`. */
module NoiseJob {
  import opened Grid
  import opened TileData

  /** The threshold classifier: below 0.3 water (not walkable), below 0.5 dirt,
      below 0.8 grass, anything else stone. */
  function Classify(noise: real): (t: Tile)
    ensures t.isWalkable <==> t.tileType != WATER
    ensures t.tileType != Unassigned
    ensures t.tileType == WATER <==> noise < 0.3
    ensures t.tileType == DIRT <==> 0.3 <= noise < 0.5
    ensures t.tileType == GRASS <==> 0.5 <= noise < 0.8
    ensures t.tileType == STONE <==> 0.8 <= noise
  {
    if noise < 0.3 then Tile(WATER, false)
    else if noise < 0.5 then Tile(DIRT, true)
    else if noise < 0.8 then Tile(GRASS, true)
    else Tile(STONE, true)
  }

  /** Position of a class in the order WATER < DIRT < GRASS < STONE. */
  function Band(t: TileType): nat
  {
    match t
    case WATER => 0
    case DIRT => 1
    case GRASS => 2
    case STONE => 3
    case Unassigned => 0
  }

  /** A larger noise value never yields an earlier class. */
  lemma ClassifyMonotone(a: real, b: real)
    requires a <= b
    ensures Band(Classify(a).tileType) <= Band(Classify(b).tileType)
  {}

  /** The global tile sampled for slot `index`: (index % n + offsetX, index / n + offsetY). */
  function SamplePoint(index: int, chunkSize: int, worldOffsetX: int, worldOffsetY: int): Int2
    requires chunkSize > 0
  {
    Int2(index % chunkSize + worldOffsetX, index / chunkSize + worldOffsetY)
  }

  /** Two octaves: PerlinNoise(p * scale) + 0.5 * PerlinNoise(p * scale * 2). */
  function NoiseValue(g: Int2, noiseScale: real, perlin: (real, real) -> real): real
  {
    perlin(Scale(g.x, noiseScale), Scale(g.y, noiseScale))
      + 0.5 * perlin(Scale(g.x, noiseScale) * 2.0, Scale(g.y, noiseScale) * 2.0)
  }

  /** The tile generated for one slot: a function of its global tile and the scale only. */
  function GeneratedTile(index: int, chunkSize: int, noiseScale: real, worldOffsetX: int, worldOffsetY: int,
                         perlin: (real, real) -> real): Tile
    requires chunkSize > 0
  {
    Classify(NoiseValue(SamplePoint(index, chunkSize, worldOffsetX, worldOffsetY), noiseScale, perlin))
  }

  /** The tiles a whole chunk receives. */
  function GeneratedTiles(chunkSize: int, noiseScale: real, worldOffsetX: int, worldOffsetY: int,
                          perlin: (real, real) -> real): (ts: seq<Tile>)
    requires chunkSize > 0
    ensures |ts| == chunkSize * chunkSize
  {
    seq(chunkSize * chunkSize, i requires 0 <= i < chunkSize * chunkSize =>
      GeneratedTile(i, chunkSize, noiseScale, worldOffsetX, worldOffsetY, perlin))
  }

  /** With the offsets the chunk manager passes (chunk coordinate * chunkSize),
      the sample point of slot i is the global tile whose owning chunk is that
      chunk and whose row-major local index is i: generation and lookup agree. */
  lemma {:induction false} SamplePointIsGlobalTile(i: int, chunkSize: int, chunk: Int2)
    requires chunkSize > 0 && 0 <= i < chunkSize * chunkSize
    ensures var g := SamplePoint(i, chunkSize, chunk.x * chunkSize, chunk.y * chunkSize);
      ChunkOf(g, chunkSize) == chunk && LocalIndex(g, chunkSize) == i
  {
    var g := SamplePoint(i, chunkSize, chunk.x * chunkSize, chunk.y * chunkSize);
    IndexToTile(i, chunkSize);
    assert g.x == chunk.x * chunkSize + i % chunkSize;
    assert g.y == chunk.y * chunkSize + i / chunkSize;
    DivModUnique(g.x, chunkSize, chunk.x, i % chunkSize);
    DivModUnique(g.y, chunkSize, chunk.y, i / chunkSize);
  }

  /** Execute(index): writes exactly slot `index`. */
  method Execute(tiles: array<Tile>, index: int, chunkSize: int, noiseScale: real,
                 worldOffsetX: int, worldOffsetY: int, perlin: (real, real) -> real)
    requires chunkSize > 0 && 0 <= index < tiles.Length
    modifies tiles
    ensures tiles[index] == GeneratedTile(index, chunkSize, noiseScale, worldOffsetX, worldOffsetY, perlin)
    ensures forall j :: 0 <= j < tiles.Length && j != index ==> tiles[j] == old(tiles[j])
  {
    var x := index % chunkSize;
    var y := index / chunkSize;
    var noiseValue := perlin(Scale(x + worldOffsetX, noiseScale), Scale(y + worldOffsetY, noiseScale))
      + 0.5 * perlin(Scale(x + worldOffsetX, noiseScale) * 2.0, Scale(y + worldOffsetY, noiseScale) * 2.0);
    var tileType: TileType;
    var walkable: bool;
    if noiseValue < 0.3 {
      tileType, walkable := WATER, false;
    } else if noiseValue < 0.5 {
      tileType, walkable := DIRT, true;
    } else if noiseValue < 0.8 {
      tileType, walkable := GRASS, true;
    } else {
      tileType, walkable := STONE, true;
    }
    tiles[index] := Tile(tileType, walkable);
  }

  /** The parallel-for dispatch `Schedule(chunkSize * chunkSize, 64)`, joined:
      every slot is written once, by its own Execute. */
  method Run(tiles: array<Tile>, chunkSize: int, noiseScale: real, worldOffsetX: int, worldOffsetY: int,
             perlin: (real, real) -> real)
    requires chunkSize > 0 && tiles.Length == chunkSize * chunkSize
    modifies tiles
    ensures tiles[..] == GeneratedTiles(chunkSize, noiseScale, worldOffsetX, worldOffsetY, perlin)
  {
    var index := 0;
    while index < chunkSize * chunkSize
      invariant 0 <= index <= chunkSize * chunkSize
      invariant forall j :: 0 <= j < index ==>
        tiles[j] == GeneratedTile(j, chunkSize, noiseScale, worldOffsetX, worldOffsetY, perlin)
    {
      Execute(tiles, index, chunkSize, noiseScale, worldOffsetX, worldOffsetY, perlin);
      index := index + 1;
    }
  }
}
