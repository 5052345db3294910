/** The planner's view of the world: a sparse map from chunk coordinate to that
    chunk's published row-major tile buffer, and the queries over it that the
    A* search uses (walkability, the eight-way neighbours, costs). */
module TileMap {
  import opened Grid
  import opened TileData

  type Buffers = map<Int2, seq<TileBufferElement>>

  /** Every published buffer holds one element per tile of a chunk. */
  predicate WellFormed(buffers: Buffers, chunkSize: int)
  {
    chunkSize > 0 && forall c :: c in buffers ==> |buffers[c]| == chunkSize * chunkSize
  }

  // ---------------------------------------------------------------------------
  // GetCombinedTileBuffers

  /** Entity i of the query has a tile buffer and so publishes it under its coordinate. */
  predicate Publishes(chunkEntities: seq<Entity>, chunkData: map<Entity, ChunkData>,
                      tileBuffers: map<Entity, seq<TileBufferElement>>, i: int, c: Int2)
    requires forall e :: e in chunkEntities ==> e in chunkData
  {
    0 <= i < |chunkEntities| && chunkEntities[i] in tileBuffers && chunkData[chunkEntities[i]].chunkCoord == c
  }

  /** The map after the loop has visited the first k entities: each entity with a
      tile buffer writes it under its chunk coordinate, overwriting earlier ones. */
  function CombinedUpTo(chunkEntities: seq<Entity>, chunkData: map<Entity, ChunkData>,
                        tileBuffers: map<Entity, seq<TileBufferElement>>, k: nat): Buffers
    requires k <= |chunkEntities| && forall e :: e in chunkEntities ==> e in chunkData
  {
    if k == 0 then map[]
    else
      var prev := CombinedUpTo(chunkEntities, chunkData, tileBuffers, k - 1);
      var e := chunkEntities[k - 1];
      if e in tileBuffers then prev[chunkData[e].chunkCoord := tileBuffers[e]] else prev
  }

  /** A coordinate is in the map exactly when some entity publishes under it, and
      its buffer is that of the last such entity. */
  lemma {:induction false} CombinedUpToContents(chunkEntities: seq<Entity>, chunkData: map<Entity, ChunkData>,
                                                tileBuffers: map<Entity, seq<TileBufferElement>>, k: nat, c: Int2)
    requires k <= |chunkEntities| && forall e :: e in chunkEntities ==> e in chunkData
    ensures c in CombinedUpTo(chunkEntities, chunkData, tileBuffers, k) <==>
      exists i :: 0 <= i < k && Publishes(chunkEntities, chunkData, tileBuffers, i, c)
    ensures c in CombinedUpTo(chunkEntities, chunkData, tileBuffers, k) ==>
      exists i :: 0 <= i < k && Publishes(chunkEntities, chunkData, tileBuffers, i, c) &&
        CombinedUpTo(chunkEntities, chunkData, tileBuffers, k)[c] == tileBuffers[chunkEntities[i]] &&
        forall j :: i < j < k ==> !Publishes(chunkEntities, chunkData, tileBuffers, j, c)
  {
    if k > 0 {
      CombinedUpToContents(chunkEntities, chunkData, tileBuffers, k - 1, c);
      var e := chunkEntities[k - 1];
      if Publishes(chunkEntities, chunkData, tileBuffers, k - 1, c) {
      } else {
        assert forall i :: 0 <= i < k && Publishes(chunkEntities, chunkData, tileBuffers, i, c) ==> i < k - 1;
      }
    }
  }

  /** GetCombinedTileBuffers: the map from chunk coordinate to published tile buffer. */
  method GetCombinedTileBuffers(chunkEntities: seq<Entity>, chunkData: map<Entity, ChunkData>,
                                tileBuffers: map<Entity, seq<TileBufferElement>>) returns (combined: Buffers)
    requires forall e :: e in chunkEntities ==> e in chunkData
    ensures combined == CombinedUpTo(chunkEntities, chunkData, tileBuffers, |chunkEntities|)
  {
    combined := map[];
    var k := 0;
    while k < |chunkEntities|
      invariant 0 <= k <= |chunkEntities|
      invariant combined == CombinedUpTo(chunkEntities, chunkData, tileBuffers, k)
    {
      var chunkEntity := chunkEntities[k];
      var data := chunkData[chunkEntity];
      if chunkEntity in tileBuffers {
        combined := combined[data.chunkCoord := tileBuffers[chunkEntity]];
      }
      k := k + 1;
    }
  }

  // ---------------------------------------------------------------------------
  // IsTileWalkable

  /** IsTileWalkable: false for a tile whose (floor-divided) chunk is absent,
      otherwise that tile's flag; the local index is always in range, so the
      bounds branch never decides. */
  function IsTileWalkable(g: Int2, buffers: Buffers, chunkSize: int): (r: bool)
    requires WellFormed(buffers, chunkSize)
    ensures r <==> ChunkOf(g, chunkSize) in buffers &&
                   buffers[ChunkOf(g, chunkSize)][LocalIndex(g, chunkSize)].tileData.isWalkable
  {
    var chunkCoord := Int2(FloorDiv(g.x, chunkSize), FloorDiv(g.y, chunkSize));
    if chunkCoord !in buffers then false
    else
      var index := RowMajor(g.x - chunkCoord.x * chunkSize, g.y - chunkCoord.y * chunkSize, chunkSize);
      if index < 0 || index >= chunkSize * chunkSize then false
      else buffers[chunkCoord][index].tileData.isWalkable
  }

  // ---------------------------------------------------------------------------
  // GetWalkableNeighborsAcrossChunks

  /** The eight directions in the order the search tries them: right, left, up,
      down, up-right, down-right, up-left, down-left. */
  const Directions: seq<Int2> :=
    [Int2(1, 0), Int2(-1, 0), Int2(0, 1), Int2(0, -1), Int2(1, 1), Int2(1, -1), Int2(-1, 1), Int2(-1, -1)]

  predicate IsDiagonal(d: Int2) { d.x != 0 && d.y != 0 }

  /** Direction d from `current` is kept: the truncated chunk exists, the
      neighbour is walkable, and a diagonal does not cut a corner. */
  predicate Admissible(current: Int2, d: Int2, buffers: Buffers, chunkSize: int)
    requires WellFormed(buffers, chunkSize)
  {
    var neighbor := current.Plus(d);
    TruncatedChunk(neighbor, chunkSize) in buffers &&
    IsTileWalkable(neighbor, buffers, chunkSize) &&
    (IsDiagonal(d) ==>
      IsTileWalkable(Int2(current.x + d.x, current.y), buffers, chunkSize) &&
      IsTileWalkable(Int2(current.x, current.y + d.y), buffers, chunkSize))
  }

  /** The neighbours kept among the first k directions, in order. */
  function NeighborsUpTo(current: Int2, buffers: Buffers, chunkSize: int, k: nat): seq<Int2>
    requires WellFormed(buffers, chunkSize) && k <= |Directions|
  {
    if k == 0 then []
    else
      var prev := NeighborsUpTo(current, buffers, chunkSize, k - 1);
      if Admissible(current, Directions[k - 1], buffers, chunkSize) then prev + [current.Plus(Directions[k - 1])] else prev
  }

  /** The neighbours kept among the first k directions are exactly the admissible
      ones; there are at most k of them. */
  lemma {:induction false} NeighborsUpToContents(current: Int2, buffers: Buffers, chunkSize: int, k: nat)
    requires WellFormed(buffers, chunkSize) && k <= |Directions|
    ensures |NeighborsUpTo(current, buffers, chunkSize, k)| <= k
    ensures forall m :: m in NeighborsUpTo(current, buffers, chunkSize, k) <==>
      exists j :: 0 <= j < k && m == current.Plus(Directions[j]) && Admissible(current, Directions[j], buffers, chunkSize)
  {
    if k > 0 {
      NeighborsUpToContents(current, buffers, chunkSize, k - 1);
    }
  }

  /** Every returned neighbour is one king's move away and walkable, and a
      diagonal one has both orthogonal corner tiles walkable; every admissible
      direction is returned. */
  lemma NeighborsSoundComplete(current: Int2, buffers: Buffers, chunkSize: int)
    requires WellFormed(buffers, chunkSize)
    ensures var ns := NeighborsUpTo(current, buffers, chunkSize, |Directions|);
      |ns| <= 8 &&
      (forall m :: m in ns ==>
        Abs(m.x - current.x) <= 1 && Abs(m.y - current.y) <= 1 && m != current &&
        IsTileWalkable(m, buffers, chunkSize) &&
        (m.x != current.x && m.y != current.y ==>
          IsTileWalkable(Int2(m.x, current.y), buffers, chunkSize) &&
          IsTileWalkable(Int2(current.x, m.y), buffers, chunkSize))) &&
      (forall j :: 0 <= j < |Directions| && Admissible(current, Directions[j], buffers, chunkSize) ==>
        current.Plus(Directions[j]) in ns)
  {
    var ns := NeighborsUpTo(current, buffers, chunkSize, |Directions|);
    NeighborsUpToContents(current, buffers, chunkSize, |Directions|);
    forall m | m in ns
      ensures Abs(m.x - current.x) <= 1 && Abs(m.y - current.y) <= 1 && m != current
      ensures IsTileWalkable(m, buffers, chunkSize)
      ensures m.x != current.x && m.y != current.y ==>
          IsTileWalkable(Int2(m.x, current.y), buffers, chunkSize) &&
          IsTileWalkable(Int2(current.x, m.y), buffers, chunkSize)
    {
      var j :| 0 <= j < |Directions| && m == current.Plus(Directions[j]) && Admissible(current, Directions[j], buffers, chunkSize);
      AdmissibleStep(current, Directions[j], buffers, chunkSize);
    }
  }

  /** One admissible step in one of the eight directions. */
  lemma AdmissibleStep(current: Int2, d: Int2, buffers: Buffers, chunkSize: int)
    requires WellFormed(buffers, chunkSize) && d in Directions && Admissible(current, d, buffers, chunkSize)
    ensures var m := current.Plus(d);
      Abs(m.x - current.x) <= 1 && Abs(m.y - current.y) <= 1 && m != current &&
      IsTileWalkable(m, buffers, chunkSize) &&
      (m.x != current.x && m.y != current.y ==>
        IsTileWalkable(Int2(m.x, current.y), buffers, chunkSize) &&
        IsTileWalkable(Int2(current.x, m.y), buffers, chunkSize))
  {
  }

  /** The truncating pre-check only ever removes neighbours, and for tiles with
      non-negative coordinates it removes none: there it agrees with floor division. */
  lemma PreCheckOnNonNegativeTiles(current: Int2, d: Int2, buffers: Buffers, chunkSize: int)
    requires WellFormed(buffers, chunkSize)
    requires current.x + d.x >= 0 && current.y + d.y >= 0
    ensures IsTileWalkable(current.Plus(d), buffers, chunkSize) ==> TruncatedChunk(current.Plus(d), chunkSize) in buffers
  {
    var m := current.Plus(d);
    TruncDivVersusFloorDiv(m.x, chunkSize);
    TruncDivVersusFloorDiv(m.y, chunkSize);
  }

  /** West of the origin the pre-check looks in the wrong chunk: with chunks of
      4 tiles, tile (-1, 0) is walkable in chunk (-1, 0), yet the step to it from
      (-2, 0) is dropped because chunk (0, 0) is not loaded. */
  lemma PreCheckDropsWalkableTile()
    ensures var buffers: Buffers := map[Int2(-1, 0) := seq(16, _ => TileBufferElement(Tile(GRASS, true)))];
      WellFormed(buffers, 4) &&
      IsTileWalkable(Int2(-1, 0), buffers, 4) && IsTileWalkable(Int2(-2, 0), buffers, 4) &&
      !Admissible(Int2(-2, 0), Int2(1, 0), buffers, 4)
  {
    var buffers: Buffers := map[Int2(-1, 0) := seq(16, _ => TileBufferElement(Tile(GRASS, true)))];
    assert FloorDiv(-1, 4) == -1 by { DivModUnique(-1, 4, -1, 3); }
    assert FloorDiv(-2, 4) == -1 by { DivModUnique(-2, 4, -1, 2); }
    assert FloorDiv(0, 4) == 0;
    assert TruncDiv(-1, 4) == 0;
  }

  /** The evidently intended test: IsTileWalkable already finds the neighbour's
      chunk by floor division, so no separate chunk pre-check is needed. */
  predicate AdmissibleIntended(current: Int2, d: Int2, buffers: Buffers, chunkSize: int)
    requires WellFormed(buffers, chunkSize)
  {
    IsTileWalkable(current.Plus(d), buffers, chunkSize) &&
    (IsDiagonal(d) ==>
      IsTileWalkable(Int2(current.x + d.x, current.y), buffers, chunkSize) &&
      IsTileWalkable(Int2(current.x, current.y + d.y), buffers, chunkSize))
  }

  /** The intended neighbours among the first k directions, in order. */
  function IntendedNeighborsUpTo(current: Int2, buffers: Buffers, chunkSize: int, k: nat): seq<Int2>
    requires WellFormed(buffers, chunkSize) && k <= |Directions|
  {
    if k == 0 then []
    else
      var prev := IntendedNeighborsUpTo(current, buffers, chunkSize, k - 1);
      if AdmissibleIntended(current, Directions[k - 1], buffers, chunkSize) then prev + [current.Plus(Directions[k - 1])] else prev
  }

  /** A king's move from `current` onto a walkable tile that, when diagonal,
      cuts no corner: the neighbour relation the planner is meant to search. */
  predicate WalkableStep(current: Int2, m: Int2, buffers: Buffers, chunkSize: int)
    requires WellFormed(buffers, chunkSize)
  {
    Abs(m.x - current.x) <= 1 && Abs(m.y - current.y) <= 1 && m != current &&
    IsTileWalkable(m, buffers, chunkSize) &&
    (m.x != current.x && m.y != current.y ==>
      IsTileWalkable(Int2(m.x, current.y), buffers, chunkSize) &&
      IsTileWalkable(Int2(current.x, m.y), buffers, chunkSize))
  }

  lemma {:induction false} IntendedNeighborsUpToContents(current: Int2, buffers: Buffers, chunkSize: int, k: nat, m: Int2)
    requires WellFormed(buffers, chunkSize) && k <= |Directions|
    ensures m in IntendedNeighborsUpTo(current, buffers, chunkSize, k) <==>
      exists j :: 0 <= j < k && m == current.Plus(Directions[j]) && AdmissibleIntended(current, Directions[j], buffers, chunkSize)
  {
    if k > 0 {
      IntendedNeighborsUpToContents(current, buffers, chunkSize, k - 1, m);
    }
  }

  /** With the intended test a tile is a neighbour exactly when it is a walkable
      step, on either side of the origin; the code as written keeps a subset. */
  lemma IntendedNeighborsExact(current: Int2, m: Int2, buffers: Buffers, chunkSize: int)
    requires WellFormed(buffers, chunkSize)
    ensures m in IntendedNeighborsUpTo(current, buffers, chunkSize, |Directions|) <==> WalkableStep(current, m, buffers, chunkSize)
    ensures m in NeighborsUpTo(current, buffers, chunkSize, |Directions|) ==>
      m in IntendedNeighborsUpTo(current, buffers, chunkSize, |Directions|)
  {
    IntendedNeighborsUpToContents(current, buffers, chunkSize, |Directions|, m);
    NeighborsUpToContents(current, buffers, chunkSize, |Directions|);
    var d := Int2(m.x - current.x, m.y - current.y);
    assert m == current.Plus(d);
    if WalkableStep(current, m, buffers, chunkSize) {
      assert d in Directions;
      var j :| 0 <= j < |Directions| && Directions[j] == d;
    }
  }

  /** GetWalkableNeighborsAcrossChunks: the admissible neighbours, in direction order. */
  method GetWalkableNeighborsAcrossChunks(globalCurrentTile: Int2, buffers: Buffers, chunkSize: int)
    returns (neighbors: seq<Int2>)
    requires WellFormed(buffers, chunkSize)
    ensures neighbors == NeighborsUpTo(globalCurrentTile, buffers, chunkSize, |Directions|)
  {
    neighbors := [];
    var k := 0;
    while k < |Directions|
      invariant 0 <= k <= |Directions|
      invariant neighbors == NeighborsUpTo(globalCurrentTile, buffers, chunkSize, k)
    {
      var direction := Directions[k];
      var globalNeighborTile := globalCurrentTile.Plus(direction);
      var neighborChunkCoord := TruncatedChunk(globalNeighborTile, chunkSize);
      if neighborChunkCoord in buffers && IsTileWalkable(globalNeighborTile, buffers, chunkSize) {
        var keep := true;
        if direction.x != 0 && direction.y != 0 {
          var globalHorizontalTile := Int2(globalCurrentTile.x + direction.x, globalCurrentTile.y);
          var globalVerticalTile := Int2(globalCurrentTile.x, globalCurrentTile.y + direction.y);
          if !IsTileWalkable(globalHorizontalTile, buffers, chunkSize) ||
             !IsTileWalkable(globalVerticalTile, buffers, chunkSize) {
            keep := false;
          }
        }
        if keep {
          neighbors := neighbors + [globalNeighborTile];
        }
      }
      k := k + 1;
    }
  }

  // ---------------------------------------------------------------------------
  // Costs

  /** `math.distance` between a tile and a neighbour: 1 for a straight step,
      the diagonal cost `sqrt2` for a diagonal one. */
  function StepCost(from: Int2, to: Int2, sqrt2: real): real
  {
    if from.x != to.x && from.y != to.y then sqrt2 else 1.0
  }

  /** The cost model of the search: sqrt2 is the square root of 2; only
      1 < sqrt2 < 2 is assumed, so every result holds for it. */
  predicate IsDiagonalCost(sqrt2: real) { 1.0 < sqrt2 < 2.0 }

  /** CalculateHeuristicOctile with D = 1 and D2 = sqrt2. */
  function HeuristicOctile(a: Point, b: Point, sqrt2: real): real
  {
    var dx := AbsReal(a.x - b.x);
    var dy := AbsReal(a.y - b.y);
    var D := 1.0;
    var D2 := sqrt2;
    D * (dx + dy) + (D2 - 2.0 * D) * MinReal(dx, dy)
  }

  /** The octile distance: the longer axis at cost 1 plus the shorter one at the
      extra diagonal cost; symmetric, non-negative, and zero exactly at equal points. */
  lemma HeuristicOctileProperties(a: Point, b: Point, sqrt2: real)
    requires IsDiagonalCost(sqrt2)
    ensures var dx, dy := AbsReal(a.x - b.x), AbsReal(a.y - b.y);
      HeuristicOctile(a, b, sqrt2) == MaxReal(dx, dy) + (sqrt2 - 1.0) * MinReal(dx, dy)
    ensures HeuristicOctile(a, b, sqrt2) == HeuristicOctile(b, a, sqrt2)
    ensures HeuristicOctile(a, b, sqrt2) >= 0.0
    ensures HeuristicOctile(a, b, sqrt2) == 0.0 <==> a == b
  {
    var dx, dy := AbsReal(a.x - b.x), AbsReal(a.y - b.y);
    var m := MinReal(dx, dy);
    assert (sqrt2 - 1.0) * m >= 0.0 by { MulNonnegativeReal(sqrt2 - 1.0, m); }
    assert AbsReal(b.x - a.x) == dx && AbsReal(b.y - a.y) == dy;
  }

  lemma MulNonnegativeReal(a: real, b: real)
    requires a >= 0.0 && b >= 0.0
    ensures a * b >= 0.0
  {
  }

  /** The heuristic never overestimates a single step: from a tile to a
      neighbour it equals the step's cost. */
  lemma HeuristicOfStep(a: Int2, d: Int2, sqrt2: real)
    requires d in Directions && IsDiagonalCost(sqrt2)
    ensures HeuristicOctile(TileCorner(a), TileCorner(a.Plus(d)), sqrt2) == StepCost(a, a.Plus(d), sqrt2)
  {
  }
}
