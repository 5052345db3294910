/** The value types the chunk manager, the planner and the follower exchange:
    tiles and their atlas-indexed types, chunk lifecycle states, and the ECS
    components ChunkData, TileBufferElement, PathfindingRequest,
    PathPointBufferElement and PathfindingResult, which carry data only. */
module TileData {
  import opened Grid

  datatype Option<T> = None | Some(value: T)

  /** TileType: the enum's integer value is the tile's slot in the texture atlas.
      `Unassigned` is the zero value a freshly allocated NativeArray<Tile> holds
      before the generation job writes it; it has no name in the enum. */
  datatype TileType = DIRT | GRASS | STONE | WATER | Unassigned

  /** `(int)tileType`. */
  function AtlasIndex(t: TileType): (i: nat)
    ensures t != Unassigned ==> 32 <= i <= 56 && i % 8 == 0
  {
    match t
    case DIRT => 56
    case GRASS => 48
    case STONE => 32
    case WATER => 40
    case Unassigned => 0
  }

  /** The four named types have four different atlas slots. */
  lemma AtlasIndexInjective(a: TileType, b: TileType)
    requires AtlasIndex(a) == AtlasIndex(b)
    ensures a == b
  {}

  datatype Tile = Tile(tileType: TileType, isWalkable: bool)

  /** The zero value of a Tile struct. */
  const ZeroTile: Tile := Tile(Unassigned, false)

  datatype ChunkState = Unloaded | WaitingToLoad | Loaded | WaitingToUnload

  /** An ECS entity handle. */
  datatype Entity = Entity(index: nat)

  /** ECS component of a chunk entity. */
  datatype ChunkData = ChunkData(chunkCoord: Int2, numTiles: int)

  /** ECS dynamic-buffer element holding one published tile. */
  datatype TileBufferElement = TileBufferElement(tileData: Tile)

  /** A pathfinding request: exact start and target positions on the tile plane. */
  datatype PathfindingRequest = PathfindingRequest(globalStartPosition: Point, globalTargetPosition: Point)

  /** One waypoint of a published path. */
  datatype PathPointBufferElement = PathPointBufferElement(position: Point)

  /** Written by the planner (length, success) and advanced by the follower
      (cursor, finished flag). */
  datatype PathfindingResult = PathfindingResult(
    pathLength: int,
    success: bool,
    nextUnprocessedIndex: int,
    finishedProcessing: bool)
}
