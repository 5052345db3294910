# 2.5D-World: chunk streaming, tile generation, meshing and cross-chunk A*

This project models the simulation core of the 2.5D-World Unity project in Dafny and proves properties of it.

The world is a plane of square tiles, streamed in chunks of `chunkSize x chunkSize` tiles around the camera:

- `ChunkingSystem` keeps the chunks within `loadRadius` of the camera's chunk loaded.
  It generates each new chunk's tiles with a noise job (`GenerateChunkTilesJob`), meshes them with `MeshJob`, and publishes each loaded chunk to the ECS world as an entity.
  The entity carries a `ChunkData` component and a `TileBufferElement` buffer.
  It disposes of chunks that leave the square, and republishes chunks marked dirty.
- `PathfindingSystem` combines the published buffers into one map from chunk coordinate to tile buffer.
  On that map it runs A* across chunk borders: eight directions, no corner cutting, step costs 1 and √2, the octile heuristic, and a binary-heap open list (`NativePriorityQueue`).
  It then retraces the path through the parent links, reverses it, pins its ends to the exact requested points, and smooths it by string pulling with a supercover line-of-sight test.
- `ProcessPathfindingMovementSystem` moves each character along its published path.
  A cursor names the next waypoint; the path is finished when the cursor reaches the path length.

Modules, one per component, in dependency order:

- `Grid` (`grid.dfy`): integer tile and chunk coordinates, floor versus truncating division, row-major indices
- `TileData` (`tile_data.dfy`): `Tile`, `TileType` and its atlas index, chunk states, and the ECS data components
- `TileMap` (`tile_map.dfy`): `GetCombinedTileBuffers`, `IsTileWalkable`, `GetWalkableNeighborsAcrossChunks`, step costs, `CalculateHeuristicOctile`
- `PriorityQueue` (`priority_queue.dfy`): `NodeWithPriority` and `NativePriorityQueue`
- `LineOfSight` (`line_of_sight.dfy`): `SupercoverLine`, `HasLineOfSight`
- `PathSmoothing` (`path_smoothing.dfy`): `RetracePathSmooth`, `OptimizePathLineOfSight`
- `AStar` (`astar.dfy`): `PerformAStarPathfinding`
- `MeshJob` (`mesh_job.dfy`): `MeshJob.Execute`
- `NoiseJob` (`noise_job.dfy`): `GenerateChunkTilesJob.Execute` and its parallel-for dispatch
- `PathFollower` (`path_follower.dfy`): the per-entity body of `ProcessPathfindingMovementSystem.OnUpdate`
- `Chunking` (`chunking.dfy`): `Chunk` and `ChunkingSystem`

How the model is built:

- **Imperative code stays imperative.**
  The loops of the source are `method`s with `while` loops and invariants.
  Each method's `ensures` ties its result to a specification function.
  The properties the source promises are proved as lemmas about those functions.
- **`Chunk` and `NativePriorityQueue` are classes.**
  Their methods update fields in place under `modifies`.
- **`ChunkingSystem` is a class too.**
  It holds its dictionaries as `map` fields, and each chunk in `activeChunks` as a value (`ChunkView`).
  Each method states its new state as a function of the old one (`Abstract() == Removed(old(Abstract()), k)` and so on).
  The invariant that every Loaded chunk is published with current tiles is proved preserved by lemmas.
- **Native arrays.**
  The job buffers are Dafny `array`s filled in place.
  `NativeArray`/`NativeList` allocation is an "is created" flag.
- **Numbers.**
  Floats are `real`.
  The diagonal cost `math.sqrt(2f)` is a parameter `sqrt2` with `1 < sqrt2 < 2` (`TileMap.IsDiagonalCost`); every planner result holds for any such value.
- **Noise.**
  `Mathf.PerlinNoise` is a function parameter `perlin`.
- **The follower's arrival test.**
  Whether the character came within 0.001 of the waypoint this frame is a boolean argument.

## Model

| member | source | states |
|---|---|---|
| `Grid.FloorDiv` | Assets/Scripts/ECSSystem/PathFindingSystem.cs:380-383 | the chunk index found by `math.floor(x / (float)n)` is the unique q with q·n <= x < q·n + n |
| `Grid.TruncDiv` | Assets/Scripts/ChunkingSystem.cs:477-480 | C#'s integer `/` by a positive divisor rounds toward zero: for x >= 0, q·n <= x < q·n + n; for x < 0, q·n - n < x <= q·n <= 0 |
| `Grid.TruncDivVersusFloorDiv` | Assets/Scripts/ECSSystem/PathFindingSystem.cs:428 | truncating and floor division agree on non-negative numbers and on multiples of the divisor, and truncation is exactly one higher on every other negative number |
| `Grid.LocalOf` | Assets/Scripts/ECSSystem/PathFindingSystem.cs:393 | the tile minus its chunk's origin lies in [0, n) on both axes and puts the tile back together with the chunk coordinate |
| `Grid.RowMajorInRange` | Assets/Scripts/ChunkingSystem.cs:41-44 | for local x, y in [0, n) the index x + y·n is in [0, n²), and `% n` and `/ n` give back x and y |
| `Grid.RowMajorInjective` | Assets/Scripts/ChunkingSystem.cs:41-44 | two in-range local tiles with the same row-major index are the same tile |
| `Grid.IndexToTile` | Assets/Scripts/Jobs/MeshJob.cs:22-25 | for i < n², x = i % n and y = i / n are in [0, n) and x + y·n == i |
| `Grid.LocalIndex` | Assets/Scripts/ECSSystem/PathFindingSystem.cs:393-401 | the row-major index of a tile inside its floor-divided chunk is always in [0, n²), so IsTileWalkable's bounds branch never fires |
| `Grid.TileCenter` | Assets/Scripts/ECSSystem/PathFindingSystem.cs:203 | the centre (x + 0.5, y + 0.5) of a tile floors back to that tile |
| `TileData.AtlasIndex` | Assets/Scripts/ChunkingSystem.cs:66-73 | every named tile type's integer value is an atlas slot between 32 and 56, a multiple of 8 |
| `TileData.AtlasIndexInjective` | Assets/Scripts/ChunkingSystem.cs:66-73 | different tile types have different atlas slots |
| `TileMap.CombinedUpToContents` | Assets/Scripts/ECSSystem/PathFindingSystem.cs:66-73 | after k entities a chunk coordinate is in the combined map exactly when one of them has a buffer and names that coordinate, and it maps to the buffer of the last such entity |
| `TileMap.GetCombinedTileBuffers` | Assets/Scripts/ECSSystem/PathFindingSystem.cs:62-76 | the loop builds the combined map over all entities, later entities overwriting earlier ones |
| `TileMap.IsTileWalkable` | Assets/Scripts/ECSSystem/PathFindingSystem.cs:378-404 | true exactly when the tile's floor-divided chunk is present and the tile at its local index is walkable |
| `TileMap.NeighborsUpToContents` | Assets/Scripts/ECSSystem/PathFindingSystem.cs:423-449 | after k directions at most k neighbours are kept, and a tile is kept exactly when it is current + d for one of those directions d that passes the pre-check, walkability and corner tests |
| `TileMap.NeighborsSoundComplete` | Assets/Scripts/ECSSystem/PathFindingSystem.cs:406-453 | at most 8 neighbours, each one king's move away and walkable, each diagonal one with both corner tiles walkable; every direction that passes the tests is returned |
| `TileMap.Admissible` | Assets/Scripts/ECSSystem/PathFindingSystem.cs:428-447 | a direction is kept exactly when the neighbour's truncated chunk is present, the neighbour is walkable and, for a diagonal, both corner tiles are walkable; `TileMap.AdmissibleStep` and `TileMap.NeighborsSoundComplete` prove what that gives the search |
| `TileMap.AdmissibleStep` | Assets/Scripts/ECSSystem/PathFindingSystem.cs:431-447 | one direction that passes the tests gives a walkable tile one king's move away that cuts no corner |
| `TileMap.PreCheckOnNonNegativeTiles` | Assets/Scripts/ECSSystem/PathFindingSystem.cs:428-432 | for a neighbour with non-negative coordinates the truncating chunk pre-check passes whenever the tile is walkable |
| `TileMap.PreCheckDropsWalkableTile` | Assets/Scripts/ECSSystem/PathFindingSystem.cs:428-432 | with 4-tile chunks and only chunk (-1, 0) loaded, the step from (-2, 0) to the walkable (-1, 0) is dropped |
| `TileMap.IntendedNeighborsUpToContents` | Assets/Scripts/ECSSystem/PathFindingSystem.cs:423-449 | after k directions the corrected scan keeps exactly current + d for each of those directions d whose tile is walkable and, if diagonal, cuts no corner |
| `TileMap.IntendedNeighborsExact` | Assets/Scripts/ECSSystem/PathFindingSystem.cs:406-453 | without the truncating pre-check a tile is a neighbour exactly when it is a walkable king's move that cuts no corner, on either side of the origin; the scan as written returns a subset of these |
| `TileMap.GetWalkableNeighborsAcrossChunks` | Assets/Scripts/ECSSystem/PathFindingSystem.cs:406-453 | the loop over the eight directions returns the neighbours that pass the tests, in direction order |
| `TileMap.StepCost` | Assets/Scripts/ECSSystem/PathFindingSystem.cs:146 | `math.distance` between a tile and one of its eight neighbours: sqrt2 for a diagonal step, 1 for a straight one; `TileMap.HeuristicOfStep` ties it to the heuristic |
| `TileMap.HeuristicOctile` | Assets/Scripts/ECSSystem/PathFindingSystem.cs:469-477 | the source's formula D·(dx + dy) + (D2 − 2·D)·min(dx, dy) with D = 1 and D2 = sqrt2; `TileMap.HeuristicOctileProperties` proves it is the octile distance, symmetric, non-negative and zero only at equal points |
| `TileMap.HeuristicOctileProperties` | Assets/Scripts/ECSSystem/PathFindingSystem.cs:469-477 | the octile heuristic equals max(dx, dy) + (√2 - 1)·min(dx, dy), is symmetric and non-negative, and is 0 exactly when the two points are equal |
| `TileMap.HeuristicOfStep` | Assets/Scripts/ECSSystem/PathFindingSystem.cs:146-151 | between a tile and a neighbour the heuristic equals the step cost `math.distance` charges, 1 or √2 |
| `PriorityQueue.NodeWithPriority.CompareTo` | Assets/Scripts/Other/NativePriortyQueue.cs:25-34 | 0 exactly when the priorities differ by less than epsilon; otherwise -1 for a lower priority and 1 otherwise |
| `PriorityQueue.NewNode` | Assets/Scripts/Other/NativePriortyQueue.cs:11-23 | both constructors set epsilon to 0.0001 and store the tile and the priority |
| `PriorityQueue.CompareToAntisymmetric` | Assets/Scripts/Other/NativePriortyQueue.cs:25-34 | two nodes with the same positive tolerance compare in opposite directions |
| `PriorityQueue.EqualsReflexiveSymmetric` | Assets/Scripts/Other/NativePriortyQueue.cs:37-40 | Equals is reflexive and symmetric |
| `PriorityQueue.EqualsVersusCompareTo` | Assets/Scripts/Other/NativePriortyQueue.cs:27-39 | at a distance of exactly epsilon, Equals (inclusive `<=`) holds although CompareTo (strict `<`) orders the nodes |
| `PriorityQueue.Compare` | Assets/Scripts/Other/NativePriortyQueue.cs:147-150 | `a.CompareTo(b)` for a min-heap and `b.CompareTo(a)` for a max-heap; `PriorityQueue.CompareExact` proves that for exact nodes a negative result means a strictly better key |
| `PriorityQueue.Swap` | Assets/Scripts/Other/NativePriortyQueue.cs:111-114 | the swap exchanges two slots, keeps every other slot, and keeps the multiset of nodes |
| `PriorityQueue.SiftedUp` | Assets/Scripts/Other/NativePriortyQueue.cs:102-118 | sifting up keeps the length and the multiset of nodes |
| `PriorityQueue.SmallestOrLargest` | Assets/Scripts/Other/NativePriortyQueue.cs:125-133 | the slot SiftDown moves towards is the node itself or one of its two children |
| `PriorityQueue.SiftedDown` | Assets/Scripts/Other/NativePriortyQueue.cs:120-145 | sifting down keeps the length and the multiset of nodes |
| `PriorityQueue.RemoveRoot` | Assets/Scripts/Other/NativePriortyQueue.cs:75-77 | moving the last node to the root and shortening the list removes exactly the old root from the multiset |
| `PriorityQueue.RemoveRootMultiset` | Assets/Scripts/Other/NativePriortyQueue.cs:75-77 | the same removal, stated on the list update and the truncation the source performs |
| `PriorityQueue.ParentOf` | Assets/Scripts/Other/NativePriortyQueue.cs:106 | (i - 1) / 2 is k exactly for the children 2k + 1 and 2k + 2, and it lies below i |
| `PriorityQueue.CompareExact` | Assets/Scripts/Other/NativePriortyQueue.cs:147-150 | with tolerance 0, Compare is the order of the priorities, reversed for a max-heap |
| `PriorityQueue.SiftedUpIsHeap` | Assets/Scripts/Other/NativePriortyQueue.cs:102-118 | sifting up from a slot where only that slot may be out of order yields a heap |
| `PriorityQueue.SmallestOrLargestIsLeast` | Assets/Scripts/Other/NativePriortyQueue.cs:125-133 | the chosen slot holds a key no greater than the node's and than each of its children's |
| `PriorityQueue.SiftedDownIsHeap` | Assets/Scripts/Other/NativePriortyQueue.cs:120-145 | sifting down from a slot where only that slot's children may be out of order yields a heap |
| `PriorityQueue.EnqueueKeepsHeap` | Assets/Scripts/Other/NativePriortyQueue.cs:67-71 | Enqueue keeps a heap of exact nodes a heap |
| `PriorityQueue.DequeueKeepsHeap` | Assets/Scripts/Other/NativePriortyQueue.cs:73-80 | Dequeue keeps a heap of exact nodes a heap |
| `PriorityQueue.HeapRootIsExtreme` | Assets/Scripts/Other/NativePriortyQueue.cs:92-95 | in a heap the root's key is no greater than any slot's: the minimum priority for a min-heap, the maximum for a max-heap |
| `PriorityQueue.RootIsExtreme` | Assets/Scripts/Other/NativePriortyQueue.cs:92-95 | the same for every slot at once |
| `PriorityQueue.ToleranceBreaksHeapOrder` | Assets/Scripts/Other/NativePriortyQueue.cs:102-118 | with the source's tolerance, one Enqueue into a list whose every node compares >= its parent leaves a node that compares below its parent |
| `PriorityQueue.NativePriorityQueue.constructor` | Assets/Scripts/Other/NativePriortyQueue.cs:57-61 | a new queue is empty and keeps its direction |
| `PriorityQueue.NativePriorityQueue.Count` | Assets/Scripts/Other/NativePriortyQueue.cs:63 | Count is the length of the list |
| `PriorityQueue.NativePriorityQueue.IsEmpty` | Assets/Scripts/Other/NativePriortyQueue.cs:65 | IsEmpty holds exactly when Count is 0 |
| `PriorityQueue.NativePriorityQueue.Peek` | Assets/Scripts/Other/NativePriortyQueue.cs:92-95 | Peek returns a node of the queue, the extreme one when the list is a heap, and changes nothing |
| `PriorityQueue.NativePriorityQueue.Enqueue` | Assets/Scripts/Other/NativePriortyQueue.cs:67-71 | the list becomes the old list plus the node, sifted up from the last slot; the multiset gains exactly the node |
| `PriorityQueue.NativePriorityQueue.Dequeue` | Assets/Scripts/Other/NativePriortyQueue.cs:73-80 | on a non-empty queue, returns the old root and removes exactly it from the multiset; the rest is sifted down from the root |
| `PriorityQueue.NativePriorityQueue.Contains` | Assets/Scripts/Other/NativePriortyQueue.cs:82-90 | true exactly when some node has the same tile and a priority within epsilon, inclusive |
| `PriorityQueue.NativePriorityQueue.SiftUp` | Assets/Scripts/Other/NativePriortyQueue.cs:102-118 | the swapping loop computes SiftedUp |
| `PriorityQueue.NativePriorityQueue.SiftDown` | Assets/Scripts/Other/NativePriortyQueue.cs:120-145 | the swapping loop computes SiftedDown |
| `LineOfSight.StepKeepsInvariant` | Assets/Scripts/ECSSystem/PathFindingSystem.cs:359-370 | one Bresenham step keeps the error-term invariant and brings the cursor strictly nearer the end, so the loop terminates |
| `LineOfSight.CoverStep` | Assets/Scripts/ECSSystem/PathFindingSystem.cs:325-370 | one pass lists the current cell, then both side cells when 2·err == 0, then the cells from the next state |
| `LineOfSight.Line` | Assets/Scripts/ECSSystem/PathFindingSystem.cs:300-374 | the tiles `SupercoverLine` lists from start to end, as the recursive cover from the loop's initial state; `LineOfSight.LineEnds`, `LineOfSight.LineIsCover` and `LineOfSight.LineToNeighbor` prove its shape and `LineOfSight.SupercoverLine` that the loop returns it |
| `LineOfSight.LineStart` | Assets/Scripts/ECSSystem/PathFindingSystem.cs:307-321 | the set-up dx, dy, sx, sy and err = dx - dy satisfy the loop invariant |
| `LineOfSight.CoverEnds` | Assets/Scripts/ECSSystem/PathFindingSystem.cs:323-330 | the cells listed from any state begin at its current cell and end at the end cell |
| `LineOfSight.LineEnds` | Assets/Scripts/ECSSystem/PathFindingSystem.cs:300-374 | the line from one tile to another begins at the first and ends at the second |
| `LineOfSight.LineIsCover` | Assets/Scripts/ECSSystem/PathFindingSystem.cs:307-323 | the line is the cover from the set-up state |
| `LineOfSight.LineToDiagonal` | Assets/Scripts/ECSSystem/PathFindingSystem.cs:348-357 | the line to a diagonal neighbour lists both side tiles between the two |
| `LineOfSight.LineToHorizontal` | Assets/Scripts/ECSSystem/PathFindingSystem.cs:300-374 | the line to a horizontal neighbour is just the two tiles |
| `LineOfSight.LineToVertical` | Assets/Scripts/ECSSystem/PathFindingSystem.cs:300-374 | the line to a vertical neighbour is just the two tiles |
| `LineOfSight.LineToNeighbor` | Assets/Scripts/ECSSystem/PathFindingSystem.cs:300-374 | the line to any of the eight neighbours: the two tiles, plus both corner tiles for a diagonal one |
| `LineOfSight.DiagonalLineCoversCorners` | Assets/Scripts/ECSSystem/PathFindingSystem.cs:348-357 | from (0,0) to (2,2) the line also lists (1,0), (0,1), (2,1) and (1,2) |
| `LineOfSight.CoverAppend` | Assets/Scripts/ECSSystem/PathFindingSystem.cs:323-371 | the loop invariant of SupercoverLine is kept by one pass |
| `LineOfSight.Advance` | Assets/Scripts/ECSSystem/PathFindingSystem.cs:333-370 | one pass's corner cells and next cursor, as the specification's Next |
| `LineOfSight.SupercoverLine` | Assets/Scripts/ECSSystem/PathFindingSystem.cs:300-374 | the loop terminates and lists exactly the supercover line |
| `LineOfSight.NeighborInSight` | Assets/Scripts/ECSSystem/PathFindingSystem.cs:249-294 | any point of a walkable tile sees any point of a neighbour returned by the scan |
| `LineOfSight.HasSight` | Assets/Scripts/ECSSystem/PathFindingSystem.cs:249-294 | every tile of the line between the tiles under the two points lies in a present chunk and is walkable; `LineOfSight.HasLineOfSight` is proved to return it and `LineOfSight.NeighborInSight` that every admissible step has it |
| `LineOfSight.HasLineOfSight` | Assets/Scripts/ECSSystem/PathFindingSystem.cs:249-294 | true exactly when every tile of the line lies in a present chunk and is walkable |
| `PathSmoothing.ParentShrinksMeasure` | Assets/Scripts/ECSSystem/PathFindingSystem.cs:201-206 | when parent links lead to strictly cheaper tiles, each step of the retrace loop shrinks a finite measure, so the loop stops |
| `PathSmoothing.LinkedCons` | Assets/Scripts/ECSSystem/PathFindingSystem.cs:201-206 | prepending a tile whose parent heads a linked chain gives a linked chain |
| `PathSmoothing.TraceBack` | Assets/Scripts/ECSSystem/PathFindingSystem.cs:199-208 | the chain runs from the target along parent links to the first tile without a parent; it has at least two tiles exactly when the target has a parent |
| `PathSmoothing.Centers` | Assets/Scripts/ECSSystem/PathFindingSystem.cs:203-208 | each tile of the chain becomes its centre |
| `PathSmoothing.Reverse` | Assets/Scripts/ECSSystem/PathFindingSystem.cs:211-216 | slot i of the reversal holds slot n - 1 - i |
| `PathSmoothing.RetracedShape` | Assets/Scripts/ECSSystem/PathFindingSystem.cs:196-221 | the retraced path runs from the exact start to the exact target, through the centres of the chain's tiles from the root on |
| `PathSmoothing.RetracePathSmooth` | Assets/Scripts/ECSSystem/PathFindingSystem.cs:196-221 | the retrace loop, the in-place reversal and the two end assignments compute Retraced |
| `PathSmoothing.ReverseInPlace` | Assets/Scripts/ECSSystem/PathFindingSystem.cs:211-216 | swapping slot i with slot n - 1 - i for i < n / 2 reverses the list |
| `PathSmoothing.FurthestInSight` | Assets/Scripts/ECSSystem/PathFindingSystem.cs:233-243 | the inner scan stops at the last point in sight: every point up to it is in sight and the next one is not |
| `PathSmoothing.ExtendPicks` | Assets/Scripts/ECSSystem/PathFindingSystem.cs:231-244 | one more greedy step keeps the kept indices a greedy choice |
| `PathSmoothing.PicksInSight` | Assets/Scripts/ECSSystem/PathFindingSystem.cs:231-244 | greedily kept points see each other one to the next |
| `PathSmoothing.Picked` | Assets/Scripts/ECSSystem/PathFindingSystem.cs:242 | the kept points are the path's points at the kept indices, in order |
| `PathSmoothing.PickedSnoc` | Assets/Scripts/ECSSystem/PathFindingSystem.cs:242 | keeping one more index appends that point |
| `PathSmoothing.OptimizePathLineOfSight` | Assets/Scripts/ECSSystem/PathFindingSystem.cs:223-247 | an empty path gives an empty result; when each point sees the next, the loop terminates, the result is the greedy subsequence of the path, keeps its first and last points (so at least two of a path of two or more), and each kept point sees the next |
| `AStar.PositionsAfterEnqueue` | Assets/Scripts/Other/NativePriortyQueue.cs:67-71 | after an Enqueue the open list holds entries for the old tiles and the new one |
| `AStar.PositionsAfterDequeue` | Assets/Scripts/Other/NativePriortyQueue.cs:73-80 | before a Dequeue the open list's tiles are those after it plus the dequeued one |
| `AStar.WalkableIsLoaded` | Assets/Scripts/ECSSystem/PathFindingSystem.cs:378-404 | a walkable tile lies in a loaded chunk, a finite set that bounds the closed list |
| `AStar.ExpandNeighbors` | Assets/Scripts/ECSSystem/PathFindingSystem.cs:140-157 | closed neighbours are skipped; a neighbour whose cost is new or strictly lower gets the new cost, current as parent and a heap entry; nothing else changes, and nothing is enqueued when no neighbour can improve |
| `AStar.RelaxedSkip` | Assets/Scripts/ECSSystem/PathFindingSystem.cs:143-148 | a closed neighbour, or one that cannot improve, leaves the state as it is |
| `AStar.RelaxedUpdate` | Assets/Scripts/ECSSystem/PathFindingSystem.cs:148-156 | a neighbour whose cost strictly improves is re-parented to current with the lower cost |
| `AStar.StepKeepsStartFacts` | Assets/Scripts/ECSSystem/PathFindingSystem.cs:125-158 | one pass keeps the start tile costed and parentless and the target open |
| `AStar.StepKeepsKeysLoaded` | Assets/Scripts/ECSSystem/PathFindingSystem.cs:125-158 | one pass keeps every costed tile in a loaded chunk, and the start or a tile with a parent |
| `AStar.StepKeepsParentsLinked` | Assets/Scripts/ECSSystem/PathFindingSystem.cs:143-156 | one pass keeps every parent link a neighbour step to a strictly cheaper tile |
| `AStar.StepKeepsOpenCovers` | Assets/Scripts/ECSSystem/PathFindingSystem.cs:125-158 | one pass keeps every costed tile either closed or in the open list |
| `AStar.StepKeepsClosedRelaxed` | Assets/Scripts/ECSSystem/PathFindingSystem.cs:136-157 | one pass keeps every neighbour of a closed tile closed or costed no higher than through that tile |
| `AStar.ReexpansionEnqueuesNothing` | Assets/Scripts/ECSSystem/PathFindingSystem.cs:127-157 | dequeuing a stale entry for a closed tile and expanding it again enqueues nothing |
| `AStar.ClosingShrinks` | Assets/Scripts/ECSSystem/PathFindingSystem.cs:136 | closing a tile not yet closed shrinks the set of loaded tiles still open |
| `AStar.ExhaustedSearch` | Assets/Scripts/ECSSystem/PathFindingSystem.cs:125-159 | when the open list runs empty, the closed set holds the start, not the target, and every neighbour of its tiles |
| `AStar.StepKeepsTree` | Assets/Scripts/ECSSystem/PathFindingSystem.cs:125-158 | one pass keeps the start facts, the loaded keys and the parent links together |
| `AStar.StepKeepsFrontier` | Assets/Scripts/ECSSystem/PathFindingSystem.cs:125-158 | one pass keeps the open and closed lists' facts together |
| `AStar.CloseAndExpand` | Assets/Scripts/ECSSystem/PathFindingSystem.cs:136-157 | closing and expanding the dequeued tile keeps the search invariant, and either shrinks the open part of the loaded tiles or, for a tile already closed, the open list |
| `AStar.Search` | Assets/Scripts/ECSSystem/PathFindingSystem.cs:119-159 | the main loop terminates; on success the target is costed and every parent link is a neighbour step to a cheaper tile; on failure the closed set holds the start, not the target, and all neighbours of its tiles |
| `AStar.WalkStaysInside` | Assets/Scripts/ECSSystem/PathFindingSystem.cs:139-157 | a walk that starts in a set closed under neighbours stays inside it |
| `AStar.ClosedSetBlocks` | Assets/Scripts/ECSSystem/PathFindingSystem.cs:180-183 | an exhausted search proves the target unreachable from the start |
| `AStar.ParentChain` | Assets/Scripts/ECSSystem/PathFindingSystem.cs:196-208 | after a successful search parent links descend in cost, and the chain from the target ends at the start, each tile a neighbour of the next |
| `AStar.ReversedChainIsWalk` | Assets/Scripts/ECSSystem/PathFindingSystem.cs:211-216 | the reversed chain is a walk from the start tile to the target tile |
| `AStar.RetracedInSight` | Assets/Scripts/ECSSystem/PathFindingSystem.cs:196-221 | consecutive points of the retraced path see each other, so every outer pass of the smoothing loop advances |
| `AStar.ResizeUninitialized` | Assets/Scripts/ECSSystem/PathFindingSystem.cs:168 | the resized buffer has the asked length and keeps its leading elements |
| `AStar.Waypoints` | Assets/Scripts/ECSSystem/PathFindingSystem.cs:171-174 | the positions a path buffer holds, slot for slot |
| `AStar.CopyToBuffer` | Assets/Scripts/ECSSystem/PathFindingSystem.cs:168-174 | after the resize and the copy loop the buffer holds exactly the smoothed path |
| `AStar.SmoothedPath` | Assets/Scripts/ECSSystem/PathFindingSystem.cs:164-166 | on success the target is reachable, and the smoothed path has at least two points, runs from the exact start to the exact target, and each point sees the next |
| `AStar.SearchAndPublish` | Assets/Scripts/ECSSystem/PathFindingSystem.cs:110-184 | Success becomes true exactly when the target tile is reachable; on failure only Success changes; on success the buffer holds the smoothed path and PathLength its length |
| `AStar.PublishPath` | Assets/Scripts/ECSSystem/PathFindingSystem.cs:162-179 | the found branch sets Success, writes PathLength and the buffer, and leaves the cursor fields alone |
| `AStar.PublishedOutcome` | Assets/Scripts/ECSSystem/PathFindingSystem.cs:162-179 | a buffer holding a smoothed path of a reachable target meets the published outcome |
| `AStar.PerformAStarPathfinding` | Assets/Scripts/ECSSystem/PathFindingSystem.cs:79-192 | an unwalkable start or target changes nothing, Success included; the same tile gives [start, target], PathLength 2 and Success; otherwise the search outcome; NextUnprocessedIndex and FinishedProcessing are never written |
| `MeshJob.QuadVertices` | Assets/Scripts/Jobs/MeshJob.cs:31-34 | a tile's quad has four vertices |
| `MeshJob.QuadTriangles` | Assets/Scripts/Jobs/MeshJob.cs:37-42 | a tile's two triangles take six index slots |
| `MeshJob.QuadUvs` | Assets/Scripts/Jobs/MeshJob.cs:45-49 | a tile's texture rectangle has four corners |
| `MeshJob.MeshVertices` | Assets/Scripts/Jobs/MeshJob.cs:22-34 | k tiles fill 4k vertex slots |
| `MeshJob.MeshTriangles` | Assets/Scripts/Jobs/MeshJob.cs:22-42 | k tiles fill 6k index slots |
| `MeshJob.MeshUvs` | Assets/Scripts/Jobs/MeshJob.cs:22-49 | k tiles fill 4k UV slots |
| `MeshJob.MeshVertexSlot` | Assets/Scripts/Jobs/MeshJob.cs:22-34 | vertex slot v holds corner v % 4 of the tile at ((v / 4) % n, (v / 4) / n): (x, y), (x+1, y), (x+1, y+1), (x, y+1), scaled by tileSize, in the plane y = 0 |
| `MeshJob.MeshTriangleSlot` | Assets/Scripts/Jobs/MeshJob.cs:36-42 | index slot t refers to vertex 4·(t / 6) + [0,2,1,0,3,2][t % 6]: a corner of the same tile's quad, and a valid vertex below 4n² |
| `MeshJob.MeshUvSlot` | Assets/Scripts/Jobs/MeshJob.cs:44-49 | UV slot v holds corner v % 4 of the atlas rectangle at the slot numbered by tile v / 4's type |
| `MeshJob.AtlasDimensionSuffices` | Assets/Scripts/Jobs/MeshJob.cs:45-49 | a d·d atlas holds every tile type's slot exactly when d >= 8 |
| `MeshJob.DefineVertices` | Assets/Scripts/Jobs/MeshJob.cs:27-34 | tile i writes vertex slots 4i..4i+3 with its quad and leaves every other slot alone |
| `MeshJob.DefineTriangles` | Assets/Scripts/Jobs/MeshJob.cs:28-42 | tile i writes index slots 6i..6i+5 with its two triangles and leaves every other slot alone |
| `MeshJob.DefineUvs` | Assets/Scripts/Jobs/MeshJob.cs:44-49 | tile i writes UV slots 4i..4i+3 with its atlas rectangle and leaves every other slot alone |
| `MeshJob.Execute` | Assets/Scripts/Jobs/MeshJob.cs:20-51 | the loop over all n² tiles leaves the three buffers holding exactly the whole chunk's mesh, so every slot is written once and in bounds |
| `NoiseJob.Classify` | Assets/Scripts/Jobs/GenerateNoiseJob.cs:29-54 | below 0.3 water, below 0.5 dirt, below 0.8 grass, otherwise stone, each band exactly; a tile is walkable exactly when it is not water |
| `NoiseJob.ClassifyMonotone` | Assets/Scripts/Jobs/GenerateNoiseJob.cs:29-48 | a larger noise value never yields an earlier class in the order water, dirt, grass, stone |
| `NoiseJob.GeneratedTiles` | Assets/Scripts/Jobs/GenerateNoiseJob.cs:15-54 | a chunk receives n² generated tiles |
| `NoiseJob.SamplePointIsGlobalTile` | Assets/Scripts/Jobs/GenerateNoiseJob.cs:17-26 | with the offsets the chunk manager passes, slot i samples the global tile whose floor-divided chunk is that chunk and whose local row-major index is i |
| `NoiseJob.Execute` | Assets/Scripts/Jobs/GenerateNoiseJob.cs:15-54 | Execute(index) writes slot index with the tile classified from its sample point, and no other slot |
| `NoiseJob.Run` | Assets/Scripts/ChunkingSystem.cs:237-245 | the parallel-for over n² indices, joined, fills every slot with its generated tile |
| `PathFollower.Tick` | Assets/Scripts/ECSSystem/ProcessPathfindingMovementSystem.cs:29-71 | the tick computes Step; it reads a waypoint exactly when the path is successful, unfinished and longer than one point, and then the waypoint at the cursor after the 0 to 1 bump |
| `PathFollower.Step` | Assets/Scripts/ECSSystem/ProcessPathfindingMovementSystem.cs:34-71 | one tick's effect on the result component: a finished or failed path is left alone; otherwise a cursor at 0 becomes 1 and, on a path of more than one point, the cursor moves on when the character arrived and the path is finished when the cursor reaches PathLength; the lemmas below prove its properties |
| `PathFollower.StepIgnoresDoneOrFailed` | Assets/Scripts/ECSSystem/ProcessPathfindingMovementSystem.cs:34-35 | a finished path or a failed request is left alone |
| `PathFollower.StepKeepsPlan` | Assets/Scripts/ECSSystem/ProcessPathfindingMovementSystem.cs:29-71 | the tick never changes PathLength or Success |
| `PathFollower.SinglePointNeverFinishes` | Assets/Scripts/ECSSystem/ProcessPathfindingMovementSystem.cs:39-44 | on a one-point path the cursor is bumped off 0 but the path is never marked finished |
| `PathFollower.StepAdvancesByArrival` | Assets/Scripts/ECSSystem/ProcessPathfindingMovementSystem.cs:39-71 | the cursor moves one beyond the bump exactly on arrival, and the path is finished exactly when the cursor meets PathLength |
| `PathFollower.StepKeepsOnPath` | Assets/Scripts/ECSSystem/ProcessPathfindingMovementSystem.cs:39-71 | on a successful path of at least two points, 0 <= cursor <= PathLength is kept, the buffer read is at a cursor in [1, PathLength), and finished means cursor == PathLength |
| `PathFollower.FreshPath` | Assets/Scripts/ECSSystem/ProcessPathfindingMovementSystem.cs:39-71 | a freshly published path of at least two points starts on the follower's invariant |
| `PathFollower.AllArrive` | Assets/Scripts/ECSSystem/ProcessPathfindingMovementSystem.cs:66-67 | k frames on each of which the character arrives |
| `PathFollower.ArrivalsFinish` | Assets/Scripts/ECSSystem/ProcessPathfindingMovementSystem.cs:66-71 | from cursor c >= 1, L - c arrivals finish a path of length L and fewer do not |
| `PathFollower.FreshPathFinishes` | Assets/Scripts/ECSSystem/ProcessPathfindingMovementSystem.cs:39-71 | a fresh path of length L >= 2 is finished after exactly L - 1 arrivals |
| `PathFollower.PublishAsWritten` | Assets/Scripts/ECSSystem/PathFindingSystem.cs:168-178 | publishing a path writes PathLength and Success and keeps the follower's cursor and finished flag |
| `PathFollower.FinishedCharacterIgnoresNewPath` | Assets/Scripts/ECSSystem/PathFindingSystem.cs:168-178 | a character that finished one path never follows the next one published to it |
| `PathFollower.StaleCursorOverrunsNewPath` | Assets/Scripts/ECSSystem/ProcessPathfindingMovementSystem.cs:51-55 | a cursor left at 3 by a five-point path reads past the end of a new two-point path |
| `PathFollower.PublishFresh` | Assets/Scripts/ECSSystem/PathFindingSystem.cs:168-178 | the corrected publication: the new length, Success, the cursor at 0 and not finished |
| `PathFollower.PublishFreshIsFollowed` | Assets/Scripts/ECSSystem/ProcessPathfindingMovementSystem.cs:29-71 | after the corrected publication the path is on the follower's invariant and is finished after its L - 1 arrivals, whatever the character did before |
| `Chunking.FloorOfQuotient` | Assets/Scripts/ChunkingSystem.cs:375-380 | `FloorToInt(x / (float)n)` is integer floor division |
| `Chunking.TileToChunk` | Assets/Scripts/ChunkingSystem.cs:382-387 | the Vector2Int overload of WorldToChunk gives the tile's owning chunk, as the planner computes it |
| `Chunking.WorldToChunk` | Assets/Scripts/ChunkingSystem.cs:375-380 | the chunk under a position of the XZ plane, flooring position / chunkSize on each axis; `Chunking.WorldToChunkContains` proves the position lies in that chunk's square |
| `Chunking.ChunkToWorld` | Assets/Scripts/ChunkingSystem.cs:389-392 | the world position of a chunk's corner, chunkCoord·chunkSize on x and z and 0 on y; `Chunking.ChunkToWorldRoundTrip` proves WorldToChunk maps it back to the chunk |
| `Chunking.WorldToChunkContains` | Assets/Scripts/ChunkingSystem.cs:375-392 | the chunk found for a position holds it: its corner is at or before the position and the next corner after it, on both axes |
| `Chunking.ChunkToWorldRoundTrip` | Assets/Scripts/ChunkingSystem.cs:375-392 | WorldToChunk(ChunkToWorld(c)) == c for every chunk, negative ones included |
| `Chunking.KeepOrderIsSquare` | Assets/Scripts/ChunkingSystem.cs:157-167 | the chunks UpdateChunks keeps are exactly the (2r+1)² chunks of the square around the camera chunk, each once |
| `Chunking.TileElements` | Assets/Scripts/ChunkingSystem.cs:463-468 | a chunk's tiles as buffer elements, slot for slot |
| `Chunking.CopiedToBuffer` | Assets/Scripts/ChunkingSystem.cs:438-469 | the world after CopyTileDataToBuffer: a Loaded chunk with an entity has that entity's buffer replaced by its tiles, slot for slot; any other coordinate leaves the world unchanged |
| `Chunking.ChunkLoaded` | Assets/Scripts/ChunkingSystem.cs:394-411 | the world after OnChunkLoaded: a Loaded chunk gets the next entity id, a ChunkData naming it and its tile count, a buffer holding its tiles, and is marked clean; any other coordinate leaves the world unchanged |
| `Chunking.Removed` | Assets/Scripts/ChunkingSystem.cs:297-330 | the world after UnloadChunk: a WaitingToLoad or Loaded chunk leaves the map and its entity, ChunkData and buffer are destroyed; an absent coordinate or a chunk in another state leaves the world unchanged |
| `Chunking.UnloadedStep` | Assets/Scripts/ChunkingSystem.cs:181-184 | unloading one more chunk extends the set unloaded, so the removal loop's order does not matter |
| `Chunking.UnloadedNothing` | Assets/Scripts/ChunkingSystem.cs:181-184 | with nothing to unload, nothing changes |
| `Chunking.RepublishedOverNothing` | Assets/Scripts/ChunkingSystem.cs:424-434 | visiting no chunk republishes nothing |
| `Chunking.StaleStep` | Assets/Scripts/ChunkingSystem.cs:429 | one more visited chunk is stale exactly when it is Loaded and dirty |
| `Chunking.CopiesStep` | Assets/Scripts/ChunkingSystem.cs:429-432 | one more stale chunk adds its tiles under its own entity, if it has one |
| `Chunking.CleanedStep` | Assets/Scripts/ChunkingSystem.cs:424-434 | one pass of UpdateChunkBuffers extends the set of visited chunks, so the dictionary's order does not matter |
| `Chunking.CleanedChunksStep` | Assets/Scripts/ChunkingSystem.cs:432 | cleaning one more chunk clears that chunk's dirty flag only |
| `Chunking.FinalizedChunks` | Assets/Scripts/ChunkingSystem.cs:220-228 | finalising touches only a WaitingToLoad chunk at that coordinate |
| `Chunking.FinalizedKeepsPublished` | Assets/Scripts/ChunkingSystem.cs:220-228 | finalising keeps every Loaded chunk published, and publishes the new one under a new entity with its tiles |
| `Chunking.FinalizedAllEffect` | Assets/Scripts/ChunkingSystem.cs:219-228 | the finalisation loop makes each WaitingToLoad coordinate Loaded and clean, keeps every other chunk, and keeps the publication invariant |
| `Chunking.UnloadedAllKeepsPublished` | Assets/Scripts/ChunkingSystem.cs:181-184 | unloading removes chunks together with their entities and keeps the publication invariant |
| `Chunking.CopiesAt` | Assets/Scripts/ChunkingSystem.cs:448-468 | the buffer a stale chunk publishes is found under its own entity, and no other chunk's entity gets a copy |
| `Chunking.RepublishedSyncs` | Assets/Scripts/ChunkingSystem.cs:422-435 | UpdateChunkBuffers keeps the publication invariant, leaves no Loaded chunk dirty, and changes no key, state, tile or entity mapping |
| `Chunking.RepublishedIsSynced` | Assets/Scripts/ChunkingSystem.cs:422-435 | from a steady state, UpdateChunkBuffers brings every chunk's buffer up to date with its tiles |
| `Chunking.SyncedPublishesWellFormedMap` | Assets/Scripts/ECSSystem/PathFindingSystem.cs:62-76 | from a synced world whose chunks hold chunkSize² tiles, the map GetCombinedTileBuffers builds over this system's entities holds, under each chunk coordinate, exactly that chunk's current tiles, includes every chunk whose entity the query returns, and so meets `TileMap.WellFormed` |
| `Chunking.Chunk.constructor` | Assets/Scripts/ChunkingSystem.cs:32-39 | a new chunk is Unloaded and clean and owns n² zeroed tiles |
| `Chunking.Chunk.GetTileIndex` | Assets/Scripts/ChunkingSystem.cs:41-44 | for in-range x and y the index is in [0, n²), and `% n` and `/ n` give back x and y, so it is injective |
| `Chunking.Chunk.InitTempArrays` | Assets/Scripts/ChunkingSystem.cs:46-51 | allocates the vertex, triangle and UV buffers with 4n², 6n² and 4n² zeroed slots |
| `Chunking.Chunk.DisposeTempArrays` | Assets/Scripts/ChunkingSystem.cs:53-58 | frees the three mesh buffers and changes nothing else |
| `Chunking.Chunk.DisposePermArrays` | Assets/Scripts/ChunkingSystem.cs:60-63 | frees the tile array and changes nothing else |
| `Chunking.ChunkingSystem.Generated` | Assets/Scripts/ChunkingSystem.cs:237-245 | a chunk's generated tiles number n² |
| `Chunking.ChunkingSystem.Updated` | Assets/Scripts/ChunkingSystem.cs:152-185 | UpdateChunks keeps the entity bookkeeping well formed |
| `Chunking.ChunkingSystem.LoadedAllWellFormed` | Assets/Scripts/ChunkingSystem.cs:187-229 | LoadChunksAsync keeps the entity bookkeeping well formed |
| `Chunking.ChunkingSystem.ScheduledAllEffect` | Assets/Scripts/ChunkingSystem.cs:191-213 | the scheduling loop touches only the chunk map, and there only the coordinates it visits |
| `Chunking.ChunkingSystem.ScheduledAllKeepsPublished` | Assets/Scripts/ChunkingSystem.cs:191-213 | scheduling never touches a Loaded chunk and never makes one Loaded, so the publication invariant holds |
| `Chunking.ChunkingSystem.LoadedAllEffect` | Assets/Scripts/ChunkingSystem.cs:187-229 | LoadChunksAsync never touches a Loaded or WaitingToUnload chunk; it brings every absent or WaitingToLoad coordinate to Loaded with freshly generated tiles, clean and with its mesh object; it regenerates an Unloaded chunk without loading it; it keeps the publication invariant |
| `Chunking.ChunkingSystem.UpdatedKeepsSquare` | Assets/Scripts/ChunkingSystem.cs:152-185 | after UpdateChunks the chunk map holds exactly the (2r+1)² chunks of the square around the camera chunk, every one Loaded |
| `Chunking.ChunkingSystem.UpdatedKeepsPublished` | Assets/Scripts/ChunkingSystem.cs:152-185 | UpdateChunks keeps the publication invariant |
| `Chunking.ChunkingSystem.UpdatedKeepsSteady` | Assets/Scripts/ChunkingSystem.cs:152-185 | a steady state stays steady through UpdateChunks |
| `Chunking.ChunkingSystem.UpdatedIdempotent` | Assets/Scripts/ChunkingSystem.cs:152-185 | a second UpdateChunks for the same camera chunk loads and unloads nothing |
| `Chunking.ChunkingSystem.FrameIsSynced` | Assets/Scripts/ChunkingSystem.cs:128-138 | from a steady state, every frame ends steady with every buffer current |
| `Chunking.ChunkingSystem.FrameKeepsSized` | Assets/Scripts/ChunkingSystem.cs:128-138 | a frame keeps every chunk at chunkSize² tiles |
| `Chunking.ChunkingSystem.FrameFeedsPlanner` | Assets/Scripts/ECSSystem/PathFindingSystem.cs:62-89 | after a frame from a steady state, the planner's combined map is `TileMap.WellFormed` for the chunk manager's chunkSize and holds exactly the loaded chunks' tiles |
| `Chunking.ChunkingSystem.FrameWithoutMoveStreamsNothing` | Assets/Scripts/ChunkingSystem.cs:128-137 | a frame with the camera in the same chunk loads and unloads nothing and creates or destroys no entity; each chunk is kept except that a stale one is marked clean |
| `Chunking.ChunkingSystem.constructor` | Assets/Scripts/ChunkingSystem.cs:87-112 | a new system has no chunk and no entity, tileOffset 1/8 and the camera chunk (0, 0) |
| `Chunking.ChunkingSystem.Start` | Assets/Scripts/ChunkingSystem.cs:114-126 | sets tileOffset to 1/dim, fills the UV table, and loads the square around the camera |
| `Chunking.ChunkingSystem.Update` | Assets/Scripts/ChunkingSystem.cs:128-138 | remembers the camera chunk, runs UpdateChunks only when it changed, then republishes the dirty chunks |
| `Chunking.ChunkingSystem.ChunksToKeep` | Assets/Scripts/ChunkingSystem.cs:157-167 | the nested loops list the square around the camera chunk in their order |
| `Chunking.ChunkingSystem.UpdateChunks` | Assets/Scripts/ChunkingSystem.cs:152-185 | loads the square, collects the active chunks outside it, and unloads them |
| `Chunking.ChunkingSystem.LoadChunksAsync` | Assets/Scripts/ChunkingSystem.cs:187-229 | the scheduling loop, the join and the finalisation loop compute LoadedAll |
| `Chunking.ChunkingSystem.ScheduleChunkJob` | Assets/Scripts/ChunkingSystem.cs:231-262 | allocates the mesh buffers, fills the tiles by the noise job and meshes them by the mesh job against the UV table |
| `Chunking.ChunkingSystem.FinalizeChunkMesh` | Assets/Scripts/ChunkingSystem.cs:264-295 | the chunk gets its mesh object and its temporary buffers are freed |
| `Chunking.ChunkingSystem.UnloadChunk` | Assets/Scripts/ChunkingSystem.cs:297-330 | a WaitingToLoad chunk becomes Unloaded and a Loaded one WaitingToUnload, both with their buffers freed; either is removed and its entity destroyed; an absent coordinate or another state changes nothing |
| `Chunking.ChunkingSystem.PreComputeUVOffsets` | Assets/Scripts/ChunkingSystem.cs:332-341 | slot i of the UV table holds column i % dim and row i / dim, each tileOffset wide |
| `Chunking.ChunkingSystem.OnChunkLoaded` | Assets/Scripts/ChunkingSystem.cs:394-411 | a Loaded chunk gets a new entity with its ChunkData and a buffer holding its tiles, and is marked clean; otherwise nothing changes |
| `Chunking.ChunkingSystem.OnChunkUnloaded` | Assets/Scripts/ChunkingSystem.cs:413-420 | the chunk's entity, if any, is destroyed and unmapped |
| `Chunking.ChunkingSystem.UpdateChunkBuffers` | Assets/Scripts/ChunkingSystem.cs:422-435 | exactly the Loaded, dirty chunks are copied to their buffers and marked clean |
| `Chunking.ChunkingSystem.CopyTileDataToBuffer` | Assets/Scripts/ChunkingSystem.cs:438-469 | a Loaded chunk with an entity gets its buffer resized to its tile count and filled with its tiles; otherwise nothing changes |
| `Chunking.NewChunk` | Assets/Scripts/ChunkingSystem.cs:32-39 | a new chunk is Unloaded and clean, with its tile array allocated and n² zero tiles |
| `Chunking.UvOffsetTable` | Assets/Scripts/ChunkingSystem.cs:332-341 | the UV table has dim² entries |
| `Chunking.UvOffsetTableAt` | Assets/Scripts/ChunkingSystem.cs:335-340 | the slot of column x and row y holds (x·tileOffset, y·tileOffset) |
| `Chunking.UvOffsetsInUnitSquare` | Assets/Scripts/ChunkingSystem.cs:122-124 | with tileOffset = 1/dim every slot's rectangle lies inside the texture's unit square |
| `Chunking.CopiedToBufferWellFormed` | Assets/Scripts/ChunkingSystem.cs:438-469 | CopyTileDataToBuffer keeps the entity bookkeeping well formed |
| `Chunking.ChunkLoadedWellFormed` | Assets/Scripts/ChunkingSystem.cs:394-411 | OnChunkLoaded keeps the entity bookkeeping well formed |
| `Chunking.FinalizedAllWellFormed` | Assets/Scripts/ChunkingSystem.cs:219-228 | the finalisation loop keeps the entity bookkeeping well formed |
| `Chunking.ChunkUnloadedWellFormed` | Assets/Scripts/ChunkingSystem.cs:413-420 | destroying a chunk's entity leaves the other chunks' entities alone |
| `Chunking.UnloadedAllWellFormed` | Assets/Scripts/ChunkingSystem.cs:181-184 | the unload loop keeps the entity bookkeeping well formed |
| `Chunking.GetLoadedChunk` | Assets/Scripts/ChunkingSystem.cs:344-354 | returns a chunk exactly when it is active and Loaded, and then that chunk |
| `Chunking.LoadedChunkIsPublished` | Assets/Scripts/ChunkingSystem.cs:344-354 | under the publication invariant a chunk is returned exactly when it has an entity, whose ChunkData names it and its tile count |
| `Chunking.GetTileDataFromWorldPosition` | Assets/Scripts/ChunkingSystem.cs:471-514 | a tile returned comes from the active chunk at the truncated quotient |
| `Chunking.TileAtWorldPositionFinds` | Assets/Scripts/ChunkingSystem.cs:471-514 | the corrected lookup returns the tile at local column x and row y, index x + y·n, of the floor-divided chunk when that chunk is active, and nothing when it is not |
| `Chunking.AsWrittenAgreesAwayFromNegatives` | Assets/Scripts/ChunkingSystem.cs:477-480 | where each coordinate of the tile is non-negative or a multiple of n the lookup as written agrees with the corrected one |
| `Chunking.AsWrittenMissesNegativeTiles` | Assets/Scripts/ChunkingSystem.cs:477-501 | a tile with a negative coordinate that is not a multiple of n is never found as written, whatever is loaded |
| `Chunking.NegativeTileCounterexample` | Assets/Scripts/ChunkingSystem.cs:471-514 | with 16-tile chunks and chunk (-1, 0) loaded, position (-0.5, 0, 0.5) finds nothing as written, and tile 15 with the correction |
| `Chunking.ChunkLoadedShape` | Assets/Scripts/ChunkingSystem.cs:394-411 | OnChunkLoaded on a Loaded chunk, field by field: clean, entity nextEntity with its ChunkData and tile buffer, mapped, nextEntity advanced |
| `Chunking.NewEntityWellFormed` | Assets/Scripts/ChunkingSystem.cs:398-405 | mapping a chunk to a newly created entity with its component and an empty buffer keeps the bookkeeping well formed |
| `Chunking.ResizedUninitialized` | Assets/Scripts/ChunkingSystem.cs:458 | the resized buffer has the asked length and keeps its leading elements |
| `Chunking.FinalizedAllIdle` | Assets/Scripts/ChunkingSystem.cs:219-228 | with nothing WaitingToLoad, the finalisation loop changes nothing |

## Left out

- Unity ECS and job plumbing: systems, queries, `BufferLookup`, `ScheduleParallel`, `JobHandle` combination and completion. The chunk manager joins its job batch before going on, so loading is modelled as the noise job, then the mesh job, then finalisation, in sequence.
- Rendering and scene objects: `Mesh`, `GameObject`, `MeshFilter`, `MeshRenderer`, `BoxCollider`, layers, materials and `Destroy`. A chunk's GameObject is the flag `hasChunkObject`; the finished mesh is the `Mesh` value `ScheduleChunkJob` returns, which is dropped after the join.
- `OnDestroy`, `worldSeed` and the camera transform: disposal at shutdown is not modelled; the camera position is a parameter of `Start`, `Update` and `UpdateChunks`.
- Logging (`Debug.Log*`): every warning or error path is modelled by what it returns, without the message.
- Floating point: floats are reals, with no rounding. `math.sqrt(2f)` is the parameter `sqrt2`; `Mathf.PerlinNoise` is the parameter `perlin`. The follower's normalisation, position integration and 0.001 arrival test are replaced by a boolean that says whether the character arrived this frame.
- 32-bit integers: coordinates, indices and the entity counter are unbounded, so overflow of `int` (for example the `int.MaxValue` placeholder chunk of `HasLineOfSight`, modelled as "no chunk yet") is not modelled.
- The commented-out Jump Point Search and the alternative heuristics of `PathFindingSystem.cs` are dead code. `OnCreate`/`OnUpdate` of the planner, which gather requests and call `PerformAStarPathfinding`, are ECS glue.
- `fCost` is written but never read by the planner, so it is carried along without properties.
- Chunks in `ChunkingSystem.activeChunks` are values (`ChunkView`), not shared references. The model therefore does not capture aliasing between the dictionary entry and the `chunk` variable a method works on. `UnloadChunk` returns the view a remaining reference would see instead.
- The `Chunk` class models one chunk object and its methods; `ChunkingSystem` does not allocate `Chunk` objects, because its per-chunk state is the value view above.
- The noise and mesh jobs of `ScheduleChunkJob` write fresh arrays, where the source writes the chunk's own `NativeArray`s; the contents are the same.
- `uvOffsets` is a sequence rather than a `NativeArray`, and its allocation flag is not modelled.
- `Dictionary` and `HashSet` iteration order is not specified by .NET. The unload loop and `UpdateChunkBuffers` are proved for any order, and the kept set is visited in the order its two loops insert it.
- `PriorityQueue.SiftedUpIsHeap`, `PriorityQueue.SiftedDownIsHeap`, `PriorityQueue.EnqueueKeepsHeap` and `PriorityQueue.DequeueKeepsHeap` are proved only for exact nodes (tolerance 0). With the source's tolerance of 0.0001 the parent relation is not kept, as `PriorityQueue.ToleranceBreaksHeapOrder` shows. The planner's correctness does not depend on heap order.
- `PathSmoothing.OptimizePathLineOfSight`: requires that every point of the path sees the next one. That holds for every path the planner passes it (`AStar.RetracedInSight`). On other input the source's outer loop may not advance.
- `PathFollower.Tick`: requires the buffer read to be in range, as `DynamicBuffer`'s indexer demands. The invariant `PathFollower.OnPath` gives this for every freshly published path.
- `MeshJob.Execute`: requires every tile type's atlas slot to be inside `uvOffsets`. The source does not enforce this: `tileAtlasDimension` is a public inspector field that only defaults to 8 (Assets/Scripts/ChunkingSystem.cs:94). The model assumes it in `Chunking.ChunkingSystem.constructor`, which requires `tileAtlasDimension >= 8` and `chunkSize > 0`. By `MeshJob.AtlasDimensionSuffices` a smaller atlas leaves some slot outside the table, and the source then indexes past `uvOffsets` (Assets/Scripts/Jobs/MeshJob.cs:45-49) and throws. With a `chunkSize` of 0 the integer division of `GetTileDataFromWorldPosition` (Assets/Scripts/ChunkingSystem.cs:477-480) throws, and the chunk arrays are empty.
- `TileMap.WellFormed`: every planner member, from `TileMap.IsTileWalkable` to `AStar.PerformAStarPathfinding`, requires every buffer in the combined map to hold chunkSize² tiles. The source does not check this. It indexes the buffers unchecked (Assets/Scripts/ECSSystem/PathFindingSystem.cs:285, 402) with `config.ChunkSize` (line 89). That value equals the chunk manager's `chunkSize` only because the test scene copies it over (Assets/Scripts/Testing/PathfindingTest.cs:67). With a different value `DynamicBuffer`'s indexer throws, and the model does not capture that path. When the two sizes agree, `Chunking.ChunkingSystem.FrameFeedsPlanner` proves the chunk manager's buffers meet the requirement.

## Findings

| source | as written | input that shows it | evidently intended | confidence | as-written member | corrected member |
|---|---|---|---|---|---|---|
| Assets/Scripts/ChunkingSystem.cs:477-480 | `GetTileDataFromWorldPosition` finds the chunk with C#'s truncating `/`; for a tile with a negative coordinate that is not a multiple of `chunkSize` the local coordinate is negative, so the lookup returns null | chunk size 16, chunk (-1, 0) loaded, position (-0.5, 0, 0.5): global tile (-1, 0) is local tile (15, 0) of chunk (-1, 0), yet the lookup tries chunk (0, 0) | floor division, as `WorldToChunk` and `IsTileWalkable` use, so every tile of every active chunk is found | high; not executed | `Chunking.AsWrittenMissesNegativeTiles` | `Chunking.TileAtWorldPositionFinds` |
| Assets/Scripts/ECSSystem/PathFindingSystem.cs:428 | the neighbour scan pre-checks the neighbour's chunk with truncating division, so west or south of the origin a walkable neighbour in a loaded chunk is dropped when the truncated chunk is not loaded | chunk size 4, only chunk (-1, 0) loaded and all walkable: from (-2, 0) the step to (-1, 0) is dropped, because the pre-check looks for chunk (0, 0) | no separate pre-check, or one with floor division: `IsTileWalkable` already finds the owning chunk by floor division | high; not executed | `TileMap.PreCheckDropsWalkableTile` | `TileMap.IntendedNeighborsExact` |
| Assets/Scripts/ECSSystem/PathFindingSystem.cs:168-178 | publishing a new path writes `PathLength` and `Success` but never resets the follower's `NextUnprocessedIndex` or `FinishedProcessing` | a character three waypoints into a five-point path gets a new two-point path: the next tick reads waypoint 3 of a two-element buffer; a character that finished a path never follows another one | reset the cursor to 0 and the finished flag to false on publication | medium; not executed | `PathFollower.StaleCursorOverrunsNewPath` | `PathFollower.PublishFreshIsFollowed` |

The planner members in `AStar` use the neighbour scan and the publication as written, so that what they prove holds of the code as it stands. The corrected definitions sit beside them, with their properties proved.
