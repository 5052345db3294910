/** PerformAStarPathfinding: A* over the global tile grid of all loaded chunks,
    with the eight-direction neighbour rule, step costs 1 and sqrt2, the octile
    heuristic, a binary-heap open list, a closed set, and the two post-processing
    passes. The search is proved to terminate without any iteration bound, and
    to succeed exactly when the target tile can be reached from the start tile
    by neighbour steps. */
module AStar {
  import opened Grid
  import opened TileData
  import opened TileMap
  import opened LineOfSight
  import opened PriorityQueue
  import opened PathSmoothing

  /** The neighbours the search expands from a tile. */
  function Neighbors(t: Int2, buffers: Buffers, chunkSize: int): seq<Int2>
    requires WellFormed(buffers, chunkSize)
  {
    NeighborsUpTo(t, buffers, chunkSize, |Directions|)
  }

  predicate StepAt(w: seq<Int2>, i: int, buffers: Buffers, chunkSize: int)
    requires WellFormed(buffers, chunkSize) && 0 <= i < |w| - 1
  {
    w[i + 1] in Neighbors(w[i], buffers, chunkSize)
  }

  /** A walk: a non-empty sequence of tiles, each a neighbour of the one before. */
  predicate IsWalk(w: seq<Int2>, buffers: Buffers, chunkSize: int)
    requires WellFormed(buffers, chunkSize)
  {
    |w| >= 1 && forall i :: 0 <= i < |w| - 1 ==> StepAt(w, i, buffers, chunkSize)
  }

  ghost predicate Reachable(from: Int2, to: Int2, buffers: Buffers, chunkSize: int)
    requires WellFormed(buffers, chunkSize)
  {
    exists w :: IsWalk(w, buffers, chunkSize) && w[0] == from && w[|w| - 1] == to
  }

  /** The tiles the open list holds entries for. */
  function Positions(heap: seq<NodeWithPriority>): set<Int2>
  {
    set node | node in heap :: node.position
  }

  lemma PositionsAfterEnqueue(heap: seq<NodeWithPriority>, heap': seq<NodeWithPriority>, v: NodeWithPriority)
    requires multiset(heap') == multiset(heap) + multiset{v}
    ensures Positions(heap') == Positions(heap) + {v.position}
  {
    forall p | p in Positions(heap')
      ensures p in Positions(heap) + {v.position}
    {
      var node :| node in heap' && node.position == p;
      assert node in multiset(heap');
    }
    forall p | p in Positions(heap) + {v.position}
      ensures p in Positions(heap')
    {
      if p == v.position {
        assert v in multiset(heap');
      } else {
        var node :| node in heap && node.position == p;
        assert node in multiset(heap);
        assert node in multiset(heap');
      }
    }
  }

  lemma PositionsAfterDequeue(heap: seq<NodeWithPriority>, heap': seq<NodeWithPriority>, root: NodeWithPriority)
    requires multiset(heap') + multiset{root} == multiset(heap)
    ensures Positions(heap) == Positions(heap') + {root.position}
  {
    PositionsAfterEnqueue(heap', heap, root);
  }

  /** Every tile of every loaded chunk: a finite set, which bounds the closed set. */
  function LoadedTiles(buffers: Buffers, chunkSize: int): set<Int2>
    requires WellFormed(buffers, chunkSize)
  {
    set c, i | c in buffers && 0 <= i < chunkSize * chunkSize :: TileOfIndex(c, i, chunkSize)
  }

  /** Tile i (row-major) of chunk c. */
  function TileOfIndex(c: Int2, i: int, chunkSize: int): Int2
    requires chunkSize > 0
  {
    Int2(c.x * chunkSize + i % chunkSize, c.y * chunkSize + i / chunkSize)
  }

  lemma WalkableIsLoaded(t: Int2, buffers: Buffers, chunkSize: int)
    requires WellFormed(buffers, chunkSize) && IsTileWalkable(t, buffers, chunkSize)
    ensures t in LoadedTiles(buffers, chunkSize)
  {
    var c, l := ChunkOf(t, chunkSize), LocalOf(t, chunkSize);
    var i := LocalIndex(t, chunkSize);
    RowMajorInRange(l.x, l.y, chunkSize);
    assert TileOfIndex(c, i, chunkSize) == t;
  }

  /** The parent link of k: set when k was reached from its parent, a closed tile
      whose neighbour k is, at exactly the parent's cost plus one step. */
  predicate ParentLink(k: Int2, g: map<Int2, real>, parent: map<Int2, Int2>, closed: set<Int2>,
                       buffers: Buffers, chunkSize: int, sqrt2: real)
    requires WellFormed(buffers, chunkSize) && k in parent
  {
    k in g && parent[k] in closed && parent[k] in g &&
    k in Neighbors(parent[k], buffers, chunkSize) &&
    g[k] == g[parent[k]] + StepCost(parent[k], k, sqrt2)
  }

  /** The start tile has a cost and no parent; the target is never closed; the
      first tile closed is the start. */
  ghost predicate StartFacts(startTile: Int2, targetTile: Int2, g: map<Int2, real>, parent: map<Int2, Int2>,
                             closed: set<Int2>, heap: seq<NodeWithPriority>)
  {
    startTile in g && startTile !in parent && targetTile !in closed &&
    (closed == {} ==> Positions(heap) <= {startTile}) &&
    (closed != {} ==> startTile in closed)
  }

  /** Every tile with a cost lies in a loaded chunk, and is the start or has a parent. */
  ghost predicate KeysLoaded(startTile: Int2, g: map<Int2, real>, parent: map<Int2, Int2>,
                             buffers: Buffers, chunkSize: int)
    requires WellFormed(buffers, chunkSize)
  {
    forall k :: k in g ==> k in LoadedTiles(buffers, chunkSize) && (k == startTile || k in parent)
  }

  ghost predicate ParentsLinked(g: map<Int2, real>, parent: map<Int2, Int2>, closed: set<Int2>,
                                buffers: Buffers, chunkSize: int, sqrt2: real)
    requires WellFormed(buffers, chunkSize)
  {
    forall k :: k in parent ==> ParentLink(k, g, parent, closed, buffers, chunkSize, sqrt2)
  }

  /** Open entries have costs, and every tile with a cost is
      closed or still has an entry in the open list. */
  ghost predicate OpenCovers(g: map<Int2, real>, closed: set<Int2>, heap: seq<NodeWithPriority>)
  {
    Positions(heap) <= g.Keys &&
    (forall t :: t in g ==> t in closed || t in Positions(heap))
  }

  /** Closed tiles have costs, and every neighbour of a closed tile is closed,
      or has a cost no greater than one step from it. */
  ghost predicate ClosedRelaxed(g: map<Int2, real>, closed: set<Int2>, buffers: Buffers, chunkSize: int, sqrt2: real)
    requires WellFormed(buffers, chunkSize)
  {
    closed <= g.Keys &&
    forall c, nb :: c in closed && nb in Neighbors(c, buffers, chunkSize) ==>
      nb in closed || (nb in g && g[nb] <= g[c] + StepCost(c, nb, sqrt2))
  }

  /** What holds of gCost, parent, the closed list and the open list's heap at
      the head of the search loop. */
  ghost predicate SearchInvariant(startTile: Int2, targetTile: Int2, g: map<Int2, real>, parent: map<Int2, Int2>,
                                  closed: set<Int2>, heap: seq<NodeWithPriority>,
                                  buffers: Buffers, chunkSize: int, sqrt2: real)
    requires WellFormed(buffers, chunkSize)
  {
    StartFacts(startTile, targetTile, g, parent, closed, heap) &&
    KeysLoaded(startTile, g, parent, buffers, chunkSize) &&
    ParentsLinked(g, parent, closed, buffers, chunkSize, sqrt2) &&
    OpenCovers(g, closed, heap) &&
    ClosedRelaxed(g, closed, buffers, chunkSize, sqrt2)
  }

  /** What one expansion of `current` does: the tiles in `updated` are the
      neighbours, not closed, whose cost strictly improved (or that were new);
      they get `current` as parent and a fresh heap entry, and nothing else
      changes. When no neighbour can improve, nothing is enqueued. */
  ghost predicate Relaxed(current: Int2, neighbors: seq<Int2>, closed: set<Int2>,
                          g0: map<Int2, real>, parent0: map<Int2, Int2>, heap0: seq<NodeWithPriority>,
                          g: map<Int2, real>, parent: map<Int2, Int2>, heap: seq<NodeWithPriority>,
                          updated: set<Int2>, sqrt2: real)
    requires current in g0
  {
    (forall t :: t in updated ==>
       t in neighbors && t !in closed && t in g && t in parent && parent[t] == current &&
       g[t] == g0[current] + StepCost(current, t, sqrt2) && (t in g0 ==> g[t] < g0[t])) &&
    (forall t :: t !in updated ==>
       (t in g <==> t in g0) && (t in g ==> g[t] == g0[t]) &&
       (t in parent <==> t in parent0) && (t in parent ==> parent[t] == parent0[t])) &&
    (forall nb :: nb in neighbors ==>
       nb in closed || (nb in g && g[nb] <= g0[current] + StepCost(current, nb, sqrt2))) &&
    Positions(heap) == Positions(heap0) + updated &&
    ((forall nb :: nb in neighbors ==>
       nb in closed || (nb in g0 && g0[nb] <= g0[current] + StepCost(current, nb, sqrt2))) ==>
       heap == heap0 && updated == {})
  }

  /** The foreach over the neighbours of the current tile: skip closed ones, and
      relax the others whose tentative cost is new or lower. */
  method ExpandNeighbors(current: Int2, neighbors: seq<Int2>, closed: set<Int2>,
                         gCost: map<Int2, real>, fCost: map<Int2, real>, parent: map<Int2, Int2>,
                         openList: NativePriorityQueue, globalTargetPosition: Point, sqrt2: real)
    returns (g: map<Int2, real>, f: map<Int2, real>, p: map<Int2, Int2>, ghost updated: set<Int2>)
    requires current in gCost && current in closed
    modifies openList
    ensures Relaxed(current, neighbors, closed, gCost, parent, old(openList.heap), g, p, openList.heap, updated, sqrt2)
  {
    g, f, p, updated := gCost, fCost, parent, {};
    var k := 0;
    while k < |neighbors|
      invariant 0 <= k <= |neighbors|
      invariant current !in updated
      invariant Relaxed(current, neighbors[..k], closed, gCost, parent, old(openList.heap), g, p, openList.heap, updated, sqrt2)
    {
      var globalNeighborTile := neighbors[k];
      assert neighbors[..k + 1] == neighbors[..k] + [globalNeighborTile];
      ghost var heapBefore := openList.heap;
      var relaxes := false;
      if globalNeighborTile !in closed {
        var tentativeGCost := g[current] + StepCost(current, globalNeighborTile, sqrt2);
        if globalNeighborTile !in g || tentativeGCost < g[globalNeighborTile] {
          relaxes := true;
          ghost var g1, p1, updated1 := g, p, updated;
          g := g[globalNeighborTile := tentativeGCost];
          var fCostValue := tentativeGCost + HeuristicOctile(TileCorner(globalNeighborTile), globalTargetPosition, sqrt2);
          f := f[globalNeighborTile := fCostValue];
          p := p[globalNeighborTile := current];
          openList.Enqueue(NewNode(globalNeighborTile, fCostValue));
          PositionsAfterEnqueue(heapBefore, openList.heap, NewNode(globalNeighborTile, fCostValue));
          updated := updated + {globalNeighborTile};
          RelaxedUpdate(current, neighbors[..k], globalNeighborTile, closed, gCost, parent, old(openList.heap),
                        g1, p1, heapBefore, updated1, openList.heap, sqrt2);
        }
      }
      if !relaxes {
        RelaxedSkip(current, neighbors[..k], globalNeighborTile, closed, gCost, parent, old(openList.heap),
                    g, p, openList.heap, updated, sqrt2);
      }
      k := k + 1;
    }
    assert neighbors[..k] == neighbors;
  }

  /** A neighbour that is closed or cannot improve leaves the state as it is. */
  lemma RelaxedSkip(current: Int2, neighbors: seq<Int2>, nb: Int2, closed: set<Int2>,
                    g0: map<Int2, real>, parent0: map<Int2, Int2>, heap0: seq<NodeWithPriority>,
                    g: map<Int2, real>, parent: map<Int2, Int2>, heap: seq<NodeWithPriority>,
                    updated: set<Int2>, sqrt2: real)
    requires current in g0 && current !in updated && current in closed
    requires Relaxed(current, neighbors, closed, g0, parent0, heap0, g, parent, heap, updated, sqrt2)
    requires nb in closed || (nb in g && g[nb] <= g[current] + StepCost(current, nb, sqrt2))
    ensures Relaxed(current, neighbors + [nb], closed, g0, parent0, heap0, g, parent, heap, updated, sqrt2)
  {
    assert g[current] == g0[current];
    if nb !in closed && nb in g0 && g0[nb] <= g0[current] + StepCost(current, nb, sqrt2) {
      assert nb !in updated;
    }
  }

  /** A neighbour whose cost improves joins `updated`. */
  lemma RelaxedUpdate(current: Int2, neighbors: seq<Int2>, nb: Int2, closed: set<Int2>,
                      g0: map<Int2, real>, parent0: map<Int2, Int2>, heap0: seq<NodeWithPriority>,
                      g: map<Int2, real>, parent: map<Int2, Int2>, heap: seq<NodeWithPriority>,
                      updated: set<Int2>, heap': seq<NodeWithPriority>, sqrt2: real)
    requires current in g0 && current !in updated && current in closed
    requires Relaxed(current, neighbors, closed, g0, parent0, heap0, g, parent, heap, updated, sqrt2)
    requires nb !in closed && current in g
    requires nb !in g || g[current] + StepCost(current, nb, sqrt2) < g[nb]
    requires Positions(heap') == Positions(heap) + {nb}
    ensures var t := g[current] + StepCost(current, nb, sqrt2);
      Relaxed(current, neighbors + [nb], closed, g0, parent0, heap0, g[nb := t], parent[nb := current], heap',
              updated + {nb}, sqrt2)
  {
    assert g[current] == g0[current];
  }

  // One iteration of the search loop, part by part: `current` was dequeued
  // (heap0 to heapMid), added to the closed list (closed0 to closed), and
  // expanded (g0, parent0, heapMid to g, parent, heap).

  lemma StepKeepsStartFacts(startTile: Int2, targetTile: Int2, current: Int2,
                            g0: map<Int2, real>, parent0: map<Int2, Int2>, closed0: set<Int2>, heap0: seq<NodeWithPriority>,
                            heapMid: seq<NodeWithPriority>, neighbors: seq<Int2>,
                            g: map<Int2, real>, parent: map<Int2, Int2>, closed: set<Int2>, heap: seq<NodeWithPriority>,
                            updated: set<Int2>, sqrt2: real)
    requires StartFacts(startTile, targetTile, g0, parent0, closed0, heap0)
    requires current in Positions(heap0) && current != targetTile && current in g0
    requires closed == closed0 + {current}
    requires Relaxed(current, neighbors, closed, g0, parent0, heapMid, g, parent, heap, updated, sqrt2)
    ensures StartFacts(startTile, targetTile, g, parent, closed, heap)
  {
    assert startTile in closed;
    assert startTile !in updated;
  }

  lemma StepKeepsKeysLoaded(startTile: Int2, current: Int2,
                              g0: map<Int2, real>, parent0: map<Int2, Int2>, closed: set<Int2>,
                              heapMid: seq<NodeWithPriority>,
                              g: map<Int2, real>, parent: map<Int2, Int2>, heap: seq<NodeWithPriority>,
                              updated: set<Int2>, buffers: Buffers, chunkSize: int, sqrt2: real)
    requires WellFormed(buffers, chunkSize)
    requires KeysLoaded(startTile, g0, parent0, buffers, chunkSize) && current in g0
    requires Relaxed(current, Neighbors(current, buffers, chunkSize), closed, g0, parent0, heapMid, g, parent, heap, updated, sqrt2)
    ensures KeysLoaded(startTile, g, parent, buffers, chunkSize)
  {
    NeighborsSoundComplete(current, buffers, chunkSize);
    forall k | k in g
      ensures k in LoadedTiles(buffers, chunkSize) && (k == startTile || k in parent)
    {
      if k in updated {
        assert k in Neighbors(current, buffers, chunkSize);
        WalkableIsLoaded(k, buffers, chunkSize);
      }
    }
  }

  lemma StepKeepsParentsLinked(current: Int2,
                               g0: map<Int2, real>, parent0: map<Int2, Int2>, closed0: set<Int2>,
                               heapMid: seq<NodeWithPriority>,
                               g: map<Int2, real>, parent: map<Int2, Int2>, closed: set<Int2>, heap: seq<NodeWithPriority>,
                               updated: set<Int2>, buffers: Buffers, chunkSize: int, sqrt2: real)
    requires WellFormed(buffers, chunkSize)
    requires ParentsLinked(g0, parent0, closed0, buffers, chunkSize, sqrt2)
    requires closed == closed0 + {current} && current in g0
    requires Relaxed(current, Neighbors(current, buffers, chunkSize), closed, g0, parent0, heapMid, g, parent, heap, updated, sqrt2)
    ensures ParentsLinked(g, parent, closed, buffers, chunkSize, sqrt2)
  {
    forall k | k in parent
      ensures ParentLink(k, g, parent, closed, buffers, chunkSize, sqrt2)
    {
      assert current !in updated;
      if k !in updated {
        assert ParentLink(k, g0, parent0, closed0, buffers, chunkSize, sqrt2);
        assert parent0[k] !in updated;
      }
    }
  }

  lemma StepKeepsOpenCovers(current: Int2,
                            g0: map<Int2, real>, parent0: map<Int2, Int2>, closed0: set<Int2>, heap0: seq<NodeWithPriority>,
                            heapMid: seq<NodeWithPriority>, neighbors: seq<Int2>,
                            g: map<Int2, real>, parent: map<Int2, Int2>, closed: set<Int2>, heap: seq<NodeWithPriority>,
                            updated: set<Int2>, sqrt2: real)
    requires OpenCovers(g0, closed0, heap0)
    requires Positions(heap0) == Positions(heapMid) + {current}
    requires closed == closed0 + {current} && current in g0
    requires Relaxed(current, neighbors, closed, g0, parent0, heapMid, g, parent, heap, updated, sqrt2)
    ensures OpenCovers(g, closed, heap)
  {
    forall t | t in g
      ensures t in closed || t in Positions(heap)
    {
      if t !in updated {
        assert t in closed0 || t in Positions(heap0);
      }
    }
  }

  lemma StepKeepsClosedRelaxed(current: Int2,
                               g0: map<Int2, real>, parent0: map<Int2, Int2>, closed0: set<Int2>,
                               heapMid: seq<NodeWithPriority>,
                               g: map<Int2, real>, parent: map<Int2, Int2>, closed: set<Int2>, heap: seq<NodeWithPriority>,
                               updated: set<Int2>, buffers: Buffers, chunkSize: int, sqrt2: real)
    requires WellFormed(buffers, chunkSize)
    requires ClosedRelaxed(g0, closed0, buffers, chunkSize, sqrt2)
    requires closed == closed0 + {current} && current in g0
    requires Relaxed(current, Neighbors(current, buffers, chunkSize), closed, g0, parent0, heapMid, g, parent, heap, updated, sqrt2)
    ensures ClosedRelaxed(g, closed, buffers, chunkSize, sqrt2)
  {
    forall c, nb | c in closed && nb in Neighbors(c, buffers, chunkSize)
      ensures nb in closed || (nb in g && g[nb] <= g[c] + StepCost(c, nb, sqrt2))
    {
      assert c !in updated;
      if c != current {
        assert nb in closed0 || (nb in g0 && g0[nb] <= g0[c] + StepCost(c, nb, sqrt2));
      }
    }
  }

  /** Dequeuing a tile that is already closed and expanding it again enqueues
      nothing: what makes the search terminate. */
  lemma ReexpansionEnqueuesNothing(current: Int2,
                                   g0: map<Int2, real>, parent0: map<Int2, Int2>, closed: set<Int2>,
                                   heapMid: seq<NodeWithPriority>,
                                   g: map<Int2, real>, parent: map<Int2, Int2>, heap: seq<NodeWithPriority>,
                                   updated: set<Int2>, buffers: Buffers, chunkSize: int, sqrt2: real)
    requires WellFormed(buffers, chunkSize)
    requires ClosedRelaxed(g0, closed, buffers, chunkSize, sqrt2) && current in closed && current in g0
    requires Relaxed(current, Neighbors(current, buffers, chunkSize), closed, g0, parent0, heapMid, g, parent, heap, updated, sqrt2)
    ensures heap == heapMid
  {
    var ns := Neighbors(current, buffers, chunkSize);
    assert forall nb :: nb in ns ==>
      nb in closed || (nb in g0 && g0[nb] <= g0[current] + StepCost(current, nb, sqrt2));
  }

  /** Closing a tile of the finite universe that was not yet closed shrinks the
      set of tiles left to close. */
  lemma ClosingShrinks(universe: set<Int2>, closed: set<Int2>, current: Int2)
    requires current in universe && current !in closed
    ensures |universe - (closed + {current})| < |universe - closed|
  {
    assert universe - closed == (universe - (closed + {current})) + {current};
  }

  /** When the open list is empty, the closed set holds the start and every
      neighbour of its own tiles. */
  lemma ExhaustedSearch(startTile: Int2, targetTile: Int2, g: map<Int2, real>, parent: map<Int2, Int2>,
                        closed: set<Int2>, buffers: Buffers, chunkSize: int, sqrt2: real)
    requires WellFormed(buffers, chunkSize)
    requires StartFacts(startTile, targetTile, g, parent, closed, [])
    requires OpenCovers(g, closed, [])
    requires ClosedRelaxed(g, closed, buffers, chunkSize, sqrt2)
    ensures startTile in closed && targetTile !in closed
    ensures ClosedUnderNeighbors(closed, buffers, chunkSize)
  {
    assert Positions([]) == {};
    assert startTile in closed;
    forall c, nb | c in closed && nb in Neighbors(c, buffers, chunkSize)
      ensures nb in closed
    {
      assert nb in closed || nb in g;
    }
  }

  /** One pass keeps the facts about the start, the costed tiles and the parent
      links. */
  lemma StepKeepsTree(startTile: Int2, targetTile: Int2, current: Int2,
                      g0: map<Int2, real>, parent0: map<Int2, Int2>, closed0: set<Int2>, heap0: seq<NodeWithPriority>,
                      heapMid: seq<NodeWithPriority>,
                      g: map<Int2, real>, parent: map<Int2, Int2>, closed: set<Int2>, heap: seq<NodeWithPriority>,
                      updated: set<Int2>, buffers: Buffers, chunkSize: int, sqrt2: real)
    requires WellFormed(buffers, chunkSize)
    requires StartFacts(startTile, targetTile, g0, parent0, closed0, heap0)
    requires KeysLoaded(startTile, g0, parent0, buffers, chunkSize)
    requires ParentsLinked(g0, parent0, closed0, buffers, chunkSize, sqrt2)
    requires current in Positions(heap0) && current != targetTile && current in g0
    requires closed == closed0 + {current}
    requires Relaxed(current, Neighbors(current, buffers, chunkSize), closed, g0, parent0, heapMid, g, parent, heap, updated, sqrt2)
    ensures StartFacts(startTile, targetTile, g, parent, closed, heap)
    ensures KeysLoaded(startTile, g, parent, buffers, chunkSize)
    ensures ParentsLinked(g, parent, closed, buffers, chunkSize, sqrt2)
  {
    StepKeepsStartFacts(startTile, targetTile, current, g0, parent0, closed0, heap0, heapMid,
                        Neighbors(current, buffers, chunkSize), g, parent, closed, heap, updated, sqrt2);
    StepKeepsKeysLoaded(startTile, current, g0, parent0, closed, heapMid, g, parent,
                          heap, updated, buffers, chunkSize, sqrt2);
    StepKeepsParentsLinked(current, g0, parent0, closed0, heapMid, g, parent, closed,
                           heap, updated, buffers, chunkSize, sqrt2);
  }

  /** One pass keeps the facts about the open and closed lists, and a
      re-expanded closed tile enqueues nothing. */
  lemma StepKeepsFrontier(current: Int2,
                          g0: map<Int2, real>, parent0: map<Int2, Int2>, closed0: set<Int2>, heap0: seq<NodeWithPriority>,
                          heapMid: seq<NodeWithPriority>,
                          g: map<Int2, real>, parent: map<Int2, Int2>, closed: set<Int2>, heap: seq<NodeWithPriority>,
                          updated: set<Int2>, buffers: Buffers, chunkSize: int, sqrt2: real)
    requires WellFormed(buffers, chunkSize)
    requires OpenCovers(g0, closed0, heap0)
    requires ClosedRelaxed(g0, closed0, buffers, chunkSize, sqrt2)
    requires Positions(heap0) == Positions(heapMid) + {current}
    requires closed == closed0 + {current} && current in g0
    requires Relaxed(current, Neighbors(current, buffers, chunkSize), closed, g0, parent0, heapMid, g, parent, heap, updated, sqrt2)
    ensures OpenCovers(g, closed, heap)
    ensures ClosedRelaxed(g, closed, buffers, chunkSize, sqrt2)
    ensures current in closed0 ==> heap == heapMid
  {
    StepKeepsOpenCovers(current, g0, parent0, closed0, heap0, heapMid, Neighbors(current, buffers, chunkSize),
                        g, parent, closed, heap, updated, sqrt2);
    if current in closed0 {
      assert closed == closed0;
      ReexpansionEnqueuesNothing(current, g0, parent0, closed, heapMid, g, parent, heap,
                                 updated, buffers, chunkSize, sqrt2);
    }
    StepKeepsClosedRelaxed(current, g0, parent0, closed0, heapMid, g, parent, closed,
                           heap, updated, buffers, chunkSize, sqrt2);
  }

  /** The rest of one pass of the search loop, after the dequeued tile proved
      not to be the target: close it and expand it. The invariant is kept
      (heap0 is the heap before the dequeue), and the pass either closes a new
      tile or enqueues nothing. */
  method CloseAndExpand(startTile: Int2, targetTile: Int2, globalTargetPosition: Point, globalCurrentTile: Int2,
                        g0: map<Int2, real>, f0: map<Int2, real>, parent0: map<Int2, Int2>, closed0: set<Int2>,
                        openList: NativePriorityQueue, ghost heap0: seq<NodeWithPriority>,
                        buffers: Buffers, chunkSize: int, sqrt2: real)
    returns (gCost: map<Int2, real>, fCost: map<Int2, real>, parent: map<Int2, Int2>, closed: set<Int2>)
    requires WellFormed(buffers, chunkSize) && IsDiagonalCost(sqrt2)
    requires SearchInvariant(startTile, targetTile, g0, parent0, closed0, heap0, buffers, chunkSize, sqrt2)
    requires globalCurrentTile in Positions(heap0) && globalCurrentTile != targetTile
    requires Positions(heap0) == Positions(openList.heap) + {globalCurrentTile}
    modifies openList
    ensures SearchInvariant(startTile, targetTile, gCost, parent, closed, openList.heap, buffers, chunkSize, sqrt2)
    ensures |LoadedTiles(buffers, chunkSize) - closed| < |LoadedTiles(buffers, chunkSize) - closed0| ||
      (closed == closed0 && openList.heap == old(openList.heap))
  {
    gCost, fCost, parent, closed := g0, f0, parent0, closed0;
    if globalCurrentTile !in closed {
      ClosingShrinks(LoadedTiles(buffers, chunkSize), closed, globalCurrentTile);
    }
    closed := closed + {globalCurrentTile};
    ghost var heapMid := openList.heap;
    var globalNeighbors := GetWalkableNeighborsAcrossChunks(globalCurrentTile, buffers, chunkSize);
    ghost var updated;
    gCost, fCost, parent, updated := ExpandNeighbors(globalCurrentTile, globalNeighbors, closed, gCost, fCost, parent,
                                                    openList, globalTargetPosition, sqrt2);
    StepKeepsTree(startTile, targetTile, globalCurrentTile, g0, parent0, closed0, heap0, heapMid,
                  gCost, parent, closed, openList.heap, updated, buffers, chunkSize, sqrt2);
    StepKeepsFrontier(globalCurrentTile, g0, parent0, closed0, heap0, heapMid,
                      gCost, parent, closed, openList.heap, updated, buffers, chunkSize, sqrt2);
  }

  /** The search loop of PerformAStarPathfinding, from enqueuing the start tile
      to the first dequeue of the target tile or an empty open list. When the
      open list runs empty, the closed set holds the start, not the target, and
      every neighbour of its tiles. */
  method Search(startTile: Int2, targetTile: Int2, globalStartPosition: Point, globalTargetPosition: Point,
                buffers: Buffers, chunkSize: int, sqrt2: real)
    returns (pathFound: bool, gCost: map<Int2, real>, parent: map<Int2, Int2>, closed: set<Int2>)
    requires WellFormed(buffers, chunkSize) && IsDiagonalCost(sqrt2)
    requires IsTileWalkable(startTile, buffers, chunkSize) && startTile != targetTile
    ensures startTile in gCost && startTile !in parent
    ensures forall k :: k in gCost ==> k == startTile || k in parent
    ensures forall k :: k in parent ==> ParentLink(k, gCost, parent, closed, buffers, chunkSize, sqrt2)
    ensures pathFound ==> targetTile in gCost
    ensures !pathFound ==> startTile in closed && targetTile !in closed
    ensures !pathFound ==> ClosedUnderNeighbors(closed, buffers, chunkSize)
  {
    WalkableIsLoaded(startTile, buffers, chunkSize);
    gCost := map[startTile := 0.0];
    var fCost := map[startTile := HeuristicOctile(globalStartPosition, globalTargetPosition, sqrt2)];
    parent := map[];
    var openList := new NativePriorityQueue(true);
    closed := {};
    openList.Enqueue(NewNode(startTile, fCost[startTile]));
    PositionsAfterEnqueue([], openList.heap, NewNode(startTile, fCost[startTile]));
    pathFound := false;

    while !openList.IsEmpty()
      invariant SearchInvariant(startTile, targetTile, gCost, parent, closed, openList.heap, buffers, chunkSize, sqrt2)
      decreases |LoadedTiles(buffers, chunkSize) - closed|, |openList.heap|
    {
      ghost var heap0 := openList.heap;
      var currentNode := openList.Dequeue();
      var globalCurrentTile := currentNode.position;
      PositionsAfterDequeue(heap0, openList.heap, currentNode);
      if globalCurrentTile == targetTile {
        pathFound := true;
        break;
      }
      gCost, fCost, parent, closed := CloseAndExpand(startTile, targetTile, globalTargetPosition, globalCurrentTile,
                                                     gCost, fCost, parent, closed, openList, heap0,
                                                     buffers, chunkSize, sqrt2);
    }
    if !pathFound {
      assert openList.heap == [];
      ExhaustedSearch(startTile, targetTile, gCost, parent, closed, buffers, chunkSize, sqrt2);
    }
  }

  // ---------------------------------------------------------------------------
  // What a finished search means

  /** Every neighbour of a tile of the set is in the set. */
  predicate ClosedUnderNeighbors(closed: set<Int2>, buffers: Buffers, chunkSize: int)
    requires WellFormed(buffers, chunkSize)
  {
    forall c, nb :: c in closed && nb in Neighbors(c, buffers, chunkSize) ==> nb in closed
  }

  /** Along a walk that starts in a set closed under neighbours, every tile is in the set. */
  lemma {:induction false} WalkStaysInside(w: seq<Int2>, closed: set<Int2>, i: int, buffers: Buffers, chunkSize: int)
    requires WellFormed(buffers, chunkSize) && IsWalk(w, buffers, chunkSize) && w[0] in closed
    requires ClosedUnderNeighbors(closed, buffers, chunkSize)
    requires 0 <= i < |w|
    ensures w[i] in closed
    decreases i
  {
    if i > 0 {
      WalkStaysInside(w, closed, i - 1, buffers, chunkSize);
      assert StepAt(w, i - 1, buffers, chunkSize);
      assert w[i] in Neighbors(w[i - 1], buffers, chunkSize);
    }
  }

  /** An exhausted search proves the target unreachable: the closed set holds
      the start, not the target, and every neighbour of its tiles. */
  lemma ClosedSetBlocks(startTile: Int2, targetTile: Int2, closed: set<Int2>, buffers: Buffers, chunkSize: int)
    requires WellFormed(buffers, chunkSize)
    requires startTile in closed && targetTile !in closed
    requires ClosedUnderNeighbors(closed, buffers, chunkSize)
    ensures !Reachable(startTile, targetTile, buffers, chunkSize)
  {
    forall w | IsWalk(w, buffers, chunkSize) && w[0] == startTile
      ensures w[|w| - 1] != targetTile
    {
      WalkStaysInside(w, closed, |w| - 1, buffers, chunkSize);
    }
  }

  /** Each entry of a chain is a neighbour of the next (its parent), and every
      entry but the first is walkable. */
  predicate ChainLinksAt(chain: seq<Int2>, i: int, buffers: Buffers, chunkSize: int)
    requires WellFormed(buffers, chunkSize) && 0 <= i < |chain| - 1
  {
    chain[i] in Neighbors(chain[i + 1], buffers, chunkSize) && IsTileWalkable(chain[i + 1], buffers, chunkSize)
  }

  /** The parent chain a successful search leaves behind: it runs from the
      target back to the start, every link is a neighbour step from a walkable
      tile, and the parent links descend in cost. */
  lemma {:induction false} ParentChain(startTile: Int2, targetTile: Int2, g: map<Int2, real>, parent: map<Int2, Int2>,
                                       closed: set<Int2>, buffers: Buffers, chunkSize: int, sqrt2: real)
    requires WellFormed(buffers, chunkSize) && IsDiagonalCost(sqrt2)
    requires IsTileWalkable(startTile, buffers, chunkSize) && startTile != targetTile
    requires startTile in g && startTile !in parent && targetTile in g
    requires forall k :: k in g ==> k == startTile || k in parent
    requires forall k :: k in parent ==> ParentLink(k, g, parent, closed, buffers, chunkSize, sqrt2)
    ensures ParentsDescend(parent, g)
    ensures var chain := TraceBack(targetTile, parent, g);
      |chain| >= 2 && chain[0] == targetTile && chain[|chain| - 1] == startTile &&
      forall i :: 0 <= i < |chain| - 1 ==> ChainLinksAt(chain, i, buffers, chunkSize)
  {
    forall k | k in parent
      ensures k in g && parent[k] in g && g[parent[k]] < g[k]
    {
      assert ParentLink(k, g, parent, closed, buffers, chunkSize, sqrt2);
    }
    var chain := TraceBack(targetTile, parent, g);
    forall i | 0 <= i < |chain| - 1
      ensures ChainLinksAt(chain, i, buffers, chunkSize)
    {
      assert LinkedAt(chain, parent, i);
      assert ParentLink(chain[i], g, parent, closed, buffers, chunkSize, sqrt2);
      var a := chain[i + 1];
      if a != startTile {
        assert ParentLink(a, g, parent, closed, buffers, chunkSize, sqrt2);
        NeighborsSoundComplete(parent[a], buffers, chunkSize);
      }
    }
  }

  /** A chain read backwards is a walk from its last entry to its first. */
  lemma ReversedChainIsWalk(chain: seq<Int2>, buffers: Buffers, chunkSize: int)
    requires WellFormed(buffers, chunkSize) && |chain| >= 1
    requires forall i :: 0 <= i < |chain| - 1 ==> ChainLinksAt(chain, i, buffers, chunkSize)
    ensures IsWalk(Reverse(chain), buffers, chunkSize)
    ensures Reverse(chain)[0] == chain[|chain| - 1] && Reverse(chain)[|chain| - 1] == chain[0]
  {
    var w := Reverse(chain);
    forall i | 0 <= i < |w| - 1
      ensures StepAt(w, i, buffers, chunkSize)
    {
      assert ChainLinksAt(chain, |chain| - 2 - i, buffers, chunkSize);
    }
  }

  /** The retraced path sees from each point to the next: consecutive points
      lie on a tile and one of its neighbours. */
  lemma RetracedInSight(chain: seq<Int2>, path: seq<Point>, preciseStart: Point, preciseTarget: Point,
                        buffers: Buffers, chunkSize: int)
    requires WellFormed(buffers, chunkSize) && |chain| >= 2
    requires forall i :: 0 <= i < |chain| - 1 ==> ChainLinksAt(chain, i, buffers, chunkSize)
    requires TileUnder(preciseStart) == chain[|chain| - 1] && TileUnder(preciseTarget) == chain[0]
    requires path == PinEnds(Reverse(Centers(chain)), preciseStart, preciseTarget)
    ensures |path| == |chain|
    ensures InSightPairwise(path, buffers, chunkSize)
  {
    var n := |chain|;
    assert forall i :: 0 <= i < n ==> TileUnder(path[i]) == chain[n - 1 - i];
    forall i | 0 <= i < n - 1
      ensures HasSight(path[i], path[i + 1], buffers, chunkSize)
    {
      var a, b := chain[n - 1 - i], chain[n - 2 - i];
      assert ChainLinksAt(chain, n - 2 - i, buffers, chunkSize);
      NeighborsUpToContents(a, buffers, chunkSize, |Directions|);
      var j :| 0 <= j < |Directions| && b == a.Plus(Directions[j]) && Admissible(a, Directions[j], buffers, chunkSize);
      NeighborInSight(a, Directions[j], path[i], path[i + 1], buffers, chunkSize);
    }
  }

  // ---------------------------------------------------------------------------
  // PerformAStarPathfinding

  /** DynamicBuffer.ResizeUninitialized: keep the first `length` elements; new
      slots hold whatever memory held, modelled as the origin. */
  function ResizeUninitialized(buffer: seq<PathPointBufferElement>, length: nat): (r: seq<PathPointBufferElement>)
    ensures |r| == length
    ensures forall i :: 0 <= i < length && i < |buffer| ==> r[i] == buffer[i]
  {
    if length <= |buffer| then buffer[..length]
    else buffer + seq(length - |buffer|, _ => PathPointBufferElement(Point(0.0, 0.0)))
  }

  /** The positions a path buffer holds. */
  function Waypoints(buffer: seq<PathPointBufferElement>): (ps: seq<Point>)
    ensures |ps| == |buffer| && forall i :: 0 <= i < |buffer| ==> ps[i] == buffer[i].position
  {
    seq(|buffer|, i requires 0 <= i < |buffer| => buffer[i].position)
  }

  /** The output copy: the buffer is resized to the path's length and every
      waypoint written in order, so the buffer then holds exactly the path. */
  method CopyToBuffer(buffer: seq<PathPointBufferElement>, path: seq<Point>)
    returns (newBuffer: seq<PathPointBufferElement>)
    ensures Waypoints(newBuffer) == path
  {
    newBuffer := ResizeUninitialized(buffer, |path|);
    var i := 0;
    while i < |path|
      invariant 0 <= i <= |path| && |newBuffer| == |path|
      invariant forall k :: 0 <= k < i ==> newBuffer[k] == PathPointBufferElement(path[k])
    {
      newBuffer := newBuffer[i := PathPointBufferElement(path[i])];
      i := i + 1;
    }
  }

  /** The success branch of PerformAStarPathfinding up to the copy: retrace the
      parent chain into a path and smooth it. The chain is a walk from the start
      tile to the target tile, and the smoothed path runs from the exact start
      to the exact target, each point in sight of the next. */
  method SmoothedPath(globalStartTile: Int2, globalTargetTile: Int2, globalStartPosition: Point, globalTargetPosition: Point,
                      gCost: map<Int2, real>, parent: map<Int2, Int2>, ghost closed: set<Int2>,
                      buffers: Buffers, chunkSize: int, sqrt2: real)
    returns (smoothPath: seq<Point>)
    requires WellFormed(buffers, chunkSize) && IsDiagonalCost(sqrt2)
    requires IsTileWalkable(globalStartTile, buffers, chunkSize) && globalStartTile != globalTargetTile
    requires TileUnder(globalStartPosition) == globalStartTile && TileUnder(globalTargetPosition) == globalTargetTile
    requires globalStartTile in gCost && globalStartTile !in parent && globalTargetTile in gCost
    requires forall k :: k in gCost ==> k == globalStartTile || k in parent
    requires forall k :: k in parent ==> ParentLink(k, gCost, parent, closed, buffers, chunkSize, sqrt2)
    ensures Reachable(globalStartTile, globalTargetTile, buffers, chunkSize)
    ensures |smoothPath| >= 2 && smoothPath[0] == globalStartPosition && smoothPath[|smoothPath| - 1] == globalTargetPosition
    ensures InSightPairwise(smoothPath, buffers, chunkSize)
  {
    ParentChain(globalStartTile, globalTargetTile, gCost, parent, closed, buffers, chunkSize, sqrt2);
    ghost var chain := TraceBack(globalTargetTile, parent, gCost);
    ReversedChainIsWalk(chain, buffers, chunkSize);
    var path := RetracePathSmooth(globalTargetTile, parent, chunkSize, globalStartPosition, globalTargetPosition, gCost);
    RetracedInSight(chain, path, globalStartPosition, globalTargetPosition, buffers, chunkSize);
    ghost var picks;
    smoothPath, picks := OptimizePathLineOfSight(path, buffers, chunkSize);
  }

  /** What the search branch publishes for start tile s and target tile t:
      success exactly when t is reachable from s; on failure only Success
      changes; on success the buffer holds at least two waypoints from the exact
      start to the exact target, each in sight of the next, and PathLength is
      their number. */
  ghost predicate SearchOutcome(request: PathfindingRequest, s: Int2, t: Int2, buffers: Buffers, n: int,
                                result: PathfindingResult, resultBuffer: seq<PathPointBufferElement>,
                                newResult: PathfindingResult, newBuffer: seq<PathPointBufferElement>)
    requires WellFormed(buffers, n)
  {
    (newResult.success <==> Reachable(s, t, buffers, n)) &&
    (!newResult.success ==> newResult == result.(success := false) && newBuffer == resultBuffer) &&
    (newResult.success ==>
      newResult == result.(pathLength := |newBuffer|, success := true) && |newBuffer| >= 2 &&
      newBuffer[0].position == request.globalStartPosition &&
      newBuffer[|newBuffer| - 1].position == request.globalTargetPosition &&
      InSightPairwise(Waypoints(newBuffer), buffers, n))
  }

  /** The search branch of PerformAStarPathfinding: both tiles walkable and
      different. */
  method SearchAndPublish(request: PathfindingRequest, globalStartTile: Int2, globalTargetTile: Int2,
                          chunkSize: int, buffers: Buffers, sqrt2: real,
                          result: PathfindingResult, resultBuffer: seq<PathPointBufferElement>)
    returns (newResult: PathfindingResult, newBuffer: seq<PathPointBufferElement>)
    requires WellFormed(buffers, chunkSize) && IsDiagonalCost(sqrt2)
    requires globalStartTile == TileUnder(request.globalStartPosition)
    requires globalTargetTile == TileUnder(request.globalTargetPosition)
    requires IsTileWalkable(globalStartTile, buffers, chunkSize) && IsTileWalkable(globalTargetTile, buffers, chunkSize)
    requires globalStartTile != globalTargetTile
    ensures SearchOutcome(request, globalStartTile, globalTargetTile, buffers, chunkSize,
                          result, resultBuffer, newResult, newBuffer)
  {
    newResult, newBuffer := result, resultBuffer;
    var globalStartPosition := request.globalStartPosition;
    var globalTargetPosition := request.globalTargetPosition;
    var pathFound, gCost, parent, closed := Search(globalStartTile, globalTargetTile, globalStartPosition,
                                                   globalTargetPosition, buffers, chunkSize, sqrt2);
    if pathFound {
      newResult, newBuffer := PublishPath(request, globalStartTile, globalTargetTile, gCost, parent, closed,
                                          buffers, chunkSize, sqrt2, result, resultBuffer);
    } else {
      newResult := newResult.(success := false);
      ClosedSetBlocks(globalStartTile, globalTargetTile, closed, buffers, chunkSize);
    }
  }

  /** The found branch: retrace, smooth, and copy the path into the buffer. */
  method PublishPath(request: PathfindingRequest, globalStartTile: Int2, globalTargetTile: Int2,
                     gCost: map<Int2, real>, parent: map<Int2, Int2>, ghost closed: set<Int2>,
                     buffers: Buffers, chunkSize: int, sqrt2: real,
                     result: PathfindingResult, resultBuffer: seq<PathPointBufferElement>)
    returns (newResult: PathfindingResult, newBuffer: seq<PathPointBufferElement>)
    requires WellFormed(buffers, chunkSize) && IsDiagonalCost(sqrt2)
    requires IsTileWalkable(globalStartTile, buffers, chunkSize) && globalStartTile != globalTargetTile
    requires TileUnder(request.globalStartPosition) == globalStartTile
    requires TileUnder(request.globalTargetPosition) == globalTargetTile
    requires globalStartTile in gCost && globalStartTile !in parent && globalTargetTile in gCost
    requires forall k :: k in gCost ==> k == globalStartTile || k in parent
    requires forall k :: k in parent ==> ParentLink(k, gCost, parent, closed, buffers, chunkSize, sqrt2)
    ensures newResult.success
    ensures SearchOutcome(request, globalStartTile, globalTargetTile, buffers, chunkSize,
                          result, resultBuffer, newResult, newBuffer)
  {
    var smoothPath := SmoothedPath(globalStartTile, globalTargetTile, request.globalStartPosition,
                                   request.globalTargetPosition, gCost, parent, closed, buffers, chunkSize, sqrt2);
    newBuffer := CopyToBuffer(resultBuffer, smoothPath);
    newResult := result.(pathLength := |smoothPath|);
    newResult := newResult.(success := true);
    assert |newBuffer| == |smoothPath| && newResult == result.(pathLength := |newBuffer|, success := true);
    PublishedOutcome(request, globalStartTile, globalTargetTile, buffers, chunkSize, result, resultBuffer,
                     smoothPath, newResult, newBuffer);
  }

  /** The found branch's outputs meet SearchOutcome once the buffer holds the
      smoothed path. */
  lemma PublishedOutcome(request: PathfindingRequest, s: Int2, t: Int2, buffers: Buffers, n: int,
                         result: PathfindingResult, resultBuffer: seq<PathPointBufferElement>, smoothPath: seq<Point>,
                         newResult: PathfindingResult, newBuffer: seq<PathPointBufferElement>)
    requires WellFormed(buffers, n) && Reachable(s, t, buffers, n)
    requires |smoothPath| >= 2 && smoothPath[0] == request.globalStartPosition
    requires smoothPath[|smoothPath| - 1] == request.globalTargetPosition
    requires InSightPairwise(smoothPath, buffers, n)
    requires Waypoints(newBuffer) == smoothPath
    requires newResult == result.(pathLength := |smoothPath|, success := true)
    ensures SearchOutcome(request, s, t, buffers, n, result, resultBuffer, newResult, newBuffer)
  {
    var last := |smoothPath| - 1;
    assert |newBuffer| == |smoothPath|;
    assert newBuffer[0].position == smoothPath[0];
    assert newBuffer[last].position == smoothPath[last];
  }

  /** PerformAStarPathfinding for one request. The result component and the
      entity's path buffer are passed in and returned.
      - Start or target tile not walkable: nothing changes.
      - Same tile: the path is [start, target], of length 2, and succeeds.
      - Otherwise: SearchOutcome. The follower's cursor fields are never touched. */
  method PerformAStarPathfinding(request: PathfindingRequest, chunkSize: int, buffers: Buffers, sqrt2: real,
                                 result: PathfindingResult, resultBuffer: seq<PathPointBufferElement>)
    returns (newResult: PathfindingResult, newBuffer: seq<PathPointBufferElement>)
    requires WellFormed(buffers, chunkSize) && IsDiagonalCost(sqrt2)
    ensures var s, t := TileUnder(request.globalStartPosition), TileUnder(request.globalTargetPosition);
      !(IsTileWalkable(s, buffers, chunkSize) && IsTileWalkable(t, buffers, chunkSize)) ==>
        newResult == result && newBuffer == resultBuffer
    ensures var s, t := TileUnder(request.globalStartPosition), TileUnder(request.globalTargetPosition);
      IsTileWalkable(s, buffers, chunkSize) && IsTileWalkable(t, buffers, chunkSize) && s == t ==>
        newResult == result.(pathLength := 2, success := true) &&
        newBuffer == [PathPointBufferElement(request.globalStartPosition), PathPointBufferElement(request.globalTargetPosition)]
    ensures var s, t := TileUnder(request.globalStartPosition), TileUnder(request.globalTargetPosition);
      IsTileWalkable(s, buffers, chunkSize) && IsTileWalkable(t, buffers, chunkSize) && s != t ==>
        SearchOutcome(request, s, t, buffers, chunkSize, result, resultBuffer, newResult, newBuffer)
  {
    newResult, newBuffer := result, resultBuffer;
    var globalStartTile := TileUnder(request.globalStartPosition);
    var globalTargetTile := TileUnder(request.globalTargetPosition);

    if !IsTileWalkable(globalStartTile, buffers, chunkSize) || !IsTileWalkable(globalTargetTile, buffers, chunkSize) {
      return;
    }

    if globalStartTile == globalTargetTile {
      newBuffer := ResizeUninitialized(newBuffer, 2);
      newBuffer := newBuffer[0 := PathPointBufferElement(request.globalStartPosition)];
      newBuffer := newBuffer[1 := PathPointBufferElement(request.globalTargetPosition)];
      newResult := newResult.(pathLength := 2, success := true);
      return;
    }

    newResult, newBuffer := SearchAndPublish(request, globalStartTile, globalTargetTile, chunkSize, buffers, sqrt2,
                                             result, resultBuffer);
  }
}
