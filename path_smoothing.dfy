/** Post-processing of a found path: RetracePathSmooth follows parent links
    back from the target, reverses the list in place and pins its ends to the
    exact requested points; OptimizePathLineOfSight then keeps, greedily, the
    furthest waypoint still in sight (string pulling). */
module PathSmoothing {
  import opened Grid
  import opened TileData
  import opened TileMap
  import opened LineOfSight

  /** Parent links lead to strictly cheaper tiles: the invariant the search keeps,
      and what makes the retrace loop stop. */
  predicate ParentsDescend(parent: map<Int2, Int2>, g: map<Int2, real>)
  {
    forall k :: k in parent ==> k in g && parent[k] in g && g[parent[k]] < g[k]
  }

  /** Tiles with a parent and a cost at most v. */
  function AtOrBelow(parent: map<Int2, Int2>, g: map<Int2, real>, v: real): set<Int2>
  {
    set k | k in parent.Keys && k in g && g[k] <= v
  }

  /** Following a parent link shrinks AtOrBelow strictly: the tile left behind
      drops out and nothing enters. */
  lemma ParentShrinksMeasure(parent: map<Int2, Int2>, g: map<Int2, real>, current: Int2)
    requires ParentsDescend(parent, g) && current in parent
    ensures |AtOrBelow(parent, g, g[parent[current]])| < |AtOrBelow(parent, g, g[current])|
  {
    var a, b := AtOrBelow(parent, g, g[parent[current]]), AtOrBelow(parent, g, g[current]);
    assert a <= b;
    assert current in b - a;
    assert b == a + (b - a);
  }

  /** Entry i of a chain has a parent, which is entry i + 1. */
  predicate LinkedAt(chain: seq<Int2>, parent: map<Int2, Int2>, i: int)
    requires 0 <= i < |chain| - 1
  {
    chain[i] in parent && parent[chain[i]] == chain[i + 1]
  }

  lemma LinkedCons(current: Int2, rest: seq<Int2>, parent: map<Int2, Int2>)
    requires |rest| >= 1 && current in parent && parent[current] == rest[0]
    requires forall i :: 0 <= i < |rest| - 1 ==> LinkedAt(rest, parent, i)
    ensures forall i :: 0 <= i < |rest| ==> LinkedAt([current] + rest, parent, i)
  {
    forall i | 0 <= i < |rest|
      ensures LinkedAt([current] + rest, parent, i)
    {
      if i > 0 { assert LinkedAt(rest, parent, i - 1); }
    }
  }

  /** The chain of tiles from `current` along parent links to a tile without one. */
  function TraceBack(current: Int2, parent: map<Int2, Int2>, g: map<Int2, real>): (chain: seq<Int2>)
    requires ParentsDescend(parent, g) && current in g
    ensures |chain| >= 1 && chain[0] == current && chain[|chain| - 1] !in parent
    ensures forall i :: 0 <= i < |chain| - 1 ==> LinkedAt(chain, parent, i)
    ensures (current in parent) == (|chain| >= 2)
    ensures forall i :: 0 <= i < |chain| ==> chain[i] in g
    decreases |AtOrBelow(parent, g, g[current])|
  {
    if current !in parent then [current]
    else
      ParentShrinksMeasure(parent, g, current);
      var rest := TraceBack(parent[current], parent, g);
      LinkedCons(current, rest, parent);
      [current] + rest
  }

  /** The tile centres of a chain of tiles. */
  function Centers(chain: seq<Int2>): (ps: seq<Point>)
    ensures |ps| == |chain| && forall i :: 0 <= i < |chain| ==> ps[i] == TileCenter(chain[i])
  {
    seq(|chain|, i requires 0 <= i < |chain| => TileCenter(chain[i]))
  }

  function Reverse<T>(s: seq<T>): (r: seq<T>)
    ensures |r| == |s| && forall i :: 0 <= i < |s| ==> r[i] == s[|s| - 1 - i]
  {
    seq(|s|, i requires 0 <= i < |s| => s[|s| - 1 - i])
  }

  /** The first point replaced by the start, then the last by the target. */
  function PinEnds(path: seq<Point>, preciseStart: Point, preciseTarget: Point): seq<Point>
    requires |path| >= 1
  {
    path[0 := preciseStart][|path| - 1 := preciseTarget]
  }

  /** The path RetracePathSmooth builds: the chain's tile centres from start to
      target, with its ends pinned. */
  function Retraced(target: Int2, parent: map<Int2, Int2>, g: map<Int2, real>,
                    preciseStart: Point, preciseTarget: Point): seq<Point>
    requires ParentsDescend(parent, g) && target in g
  {
    PinEnds(Reverse(Centers(TraceBack(target, parent, g))), preciseStart, preciseTarget)
  }

  /** The retraced path runs from the exact start to the exact target through the
      centres of the chain's tiles, in order from the root of the chain; it has at
      least two points when the target has a parent. */
  lemma {:induction false} RetracedShape(target: Int2, parent: map<Int2, Int2>, g: map<Int2, real>,
                                         preciseStart: Point, preciseTarget: Point)
    requires ParentsDescend(parent, g) && target in parent
    ensures var chain, path := TraceBack(target, parent, g), Retraced(target, parent, g, preciseStart, preciseTarget);
      |path| == |chain| >= 2 && path[0] == preciseStart && path[|path| - 1] == preciseTarget &&
      TileUnder(path[0]) == TileUnder(preciseStart) &&
      (forall i :: 0 < i < |path| - 1 ==> path[i] == TileCenter(chain[|chain| - 1 - i])) &&
      (forall i :: 0 < i < |path| - 1 ==> TileUnder(path[i]) == chain[|chain| - 1 - i])
  {
  }

  /** RetracePathSmooth. `g` is the search's cost map, which orders the parent links. */
  method RetracePathSmooth(targetIndex: Int2, parent: map<Int2, Int2>, chunkSize: int,
                           preciseStart: Point, preciseTarget: Point, ghost g: map<Int2, real>)
    returns (path: seq<Point>)
    requires ParentsDescend(parent, g) && targetIndex in g
    ensures path == Retraced(targetIndex, parent, g, preciseStart, preciseTarget)
  {
    ghost var chain := TraceBack(targetIndex, parent, g);
    ghost var k := 0;
    path := [];
    var currentIndex := targetIndex;
    while currentIndex in parent
      invariant 0 <= k < |chain| && currentIndex == chain[k]
      invariant path == Centers(chain[..k])
      decreases |chain| - k
    {
      assert LinkedAt(chain, parent, k);
      var globalPosition := TileCenter(currentIndex);
      path := path + [globalPosition];
      currentIndex := parent[currentIndex];
      assert chain[..k + 1] == chain[..k] + [chain[k]];
      k := k + 1;
    }
    var startGlobalPosition := TileCenter(currentIndex);
    path := path + [startGlobalPosition];
    assert chain[..k + 1] == chain;

    path := ReverseInPlace(path);
    path := path[0 := preciseStart];
    path := path[|path| - 1 := preciseTarget];
  }

  /** The in-place reversal: swap the i-th point from each end for i below half
      the length. */
  method ReverseInPlace(forward: seq<Point>) returns (path: seq<Point>)
    ensures path == Reverse(forward)
  {
    path := forward;
    var n := |forward|;
    var i := 0;
    while i < n / 2
      invariant 0 <= i <= n / 2 && |path| == n
      invariant forall k :: 0 <= k < i ==> path[k] == forward[n - 1 - k]
      invariant forall k :: n - i <= k < n ==> path[k] == forward[n - 1 - k]
      invariant forall k :: i <= k < n - i ==> path[k] == forward[k]
    {
      var temp := path[i];
      path := path[i := path[|path| - 1 - i]];
      path := path[|path| - 1 - i := temp];
      i := i + 1;
    }
  }

  /** Consecutive points of a path see each other. */
  predicate InSightPairwise(path: seq<Point>, buffers: Buffers, chunkSize: int)
    requires WellFormed(buffers, chunkSize)
  {
    forall i :: 0 <= i < |path| - 1 ==> SightAt(path, i, buffers, chunkSize)
  }

  /** Point i of a path sees point i + 1. */
  predicate SightAt(path: seq<Point>, i: int, buffers: Buffers, chunkSize: int)
    requires WellFormed(buffers, chunkSize) && 0 <= i < |path| - 1
  {
    HasSight(path[i], path[i + 1], buffers, chunkSize)
  }

  /** Point j of a path is in sight from point a. */
  predicate SeesFrom(path: seq<Point>, a: int, j: int, buffers: Buffers, chunkSize: int)
    requires WellFormed(buffers, chunkSize) && 0 <= a < |path| && 0 <= j < |path|
  {
    HasSight(path[a], path[j], buffers, chunkSize)
  }

  /** The waypoints OptimizePathLineOfSight keeps, as indices into the path: they
      start at 0, end at the last point, increase, and each is the first point
      after which sight from the previous kept point fails (or the path ends). */
  predicate GreedyPicks(path: seq<Point>, picks: seq<int>, buffers: Buffers, chunkSize: int)
    requires WellFormed(buffers, chunkSize)
  {
    |picks| >= 1 && picks[0] == 0 &&
    (forall k :: 0 <= k < |picks| ==> 0 <= picks[k] < |path|) &&
    (forall k :: 0 <= k < |picks| - 1 ==> PickStep(path, picks[k], picks[k + 1], buffers, chunkSize))
  }

  /** One greedy step from kept point `a` to kept point `b`: b is further on, every
      point up to b is in sight from a, and the point after b is not. */
  predicate PickStep(path: seq<Point>, a: int, b: int, buffers: Buffers, chunkSize: int)
    requires WellFormed(buffers, chunkSize)
    requires 0 <= a < |path| && 0 <= b < |path|
  {
    a < b &&
    (forall j :: a < j <= b ==> SeesFrom(path, a, j, buffers, chunkSize)) &&
    (b + 1 < |path| ==> !SeesFrom(path, a, b + 1, buffers, chunkSize))
  }

  /** The inner scan of OptimizePathLineOfSight: from `from`, advance while the
      next point is in sight; the result is the last point in sight, one before
      the scan stopped. */
  method FurthestInSight(path: seq<Point>, from: int, buffers: Buffers, chunkSize: int) returns (last: int)
    requires WellFormed(buffers, chunkSize)
    requires 0 <= from < |path| - 1 && SightAt(path, from, buffers, chunkSize)
    ensures from < last < |path| && PickStep(path, from, last, buffers, chunkSize)
  {
    var nextIndex := from + 1;
    while nextIndex < |path|
      invariant from + 1 <= nextIndex <= |path|
      invariant forall j :: from < j < nextIndex ==> SeesFrom(path, from, j, buffers, chunkSize)
      decreases |path| - nextIndex
    {
      var visible := HasLineOfSight(path[from], path[nextIndex], buffers, chunkSize);
      if !visible {
        return nextIndex - 1;
      }
      nextIndex := nextIndex + 1;
    }
    return nextIndex - 1;
  }

  lemma ExtendPicks(path: seq<Point>, picks: seq<int>, next: int, buffers: Buffers, chunkSize: int)
    requires WellFormed(buffers, chunkSize)
    requires GreedyPicks(path, picks, buffers, chunkSize)
    requires picks[|picks| - 1] < next < |path|
    requires PickStep(path, picks[|picks| - 1], next, buffers, chunkSize)
    ensures GreedyPicks(path, picks + [next], buffers, chunkSize)
  {
    var p := picks + [next];
    forall k | 0 <= k < |p| - 1
      ensures PickStep(path, p[k], p[k + 1], buffers, chunkSize)
    {
      if k < |picks| - 1 { assert p[k] == picks[k] && p[k + 1] == picks[k + 1]; }
    }
  }

  /** Greedy picks see each other one to the next. */
  lemma PicksInSight(path: seq<Point>, picks: seq<int>, opt: seq<Point>, buffers: Buffers, chunkSize: int)
    requires WellFormed(buffers, chunkSize)
    requires GreedyPicks(path, picks, buffers, chunkSize)
    requires |opt| == |picks| && forall k :: 0 <= k < |picks| ==> opt[k] == path[picks[k]]
    ensures InSightPairwise(opt, buffers, chunkSize)
  {
    forall k | 0 <= k < |opt| - 1
      ensures SightAt(opt, k, buffers, chunkSize)
    {
      assert PickStep(path, picks[k], picks[k + 1], buffers, chunkSize);
      assert SeesFrom(path, picks[k], picks[k + 1], buffers, chunkSize);
    }
  }

  /** The points of `path` at the indices `picks`, in order. */
  function Picked(path: seq<Point>, picks: seq<int>): (opt: seq<Point>)
    requires forall k :: 0 <= k < |picks| ==> 0 <= picks[k] < |path|
    ensures |opt| == |picks| && forall k :: 0 <= k < |picks| ==> opt[k] == path[picks[k]]
  {
    seq(|picks|, k requires 0 <= k < |picks| => path[picks[k]])
  }

  lemma PickedSnoc(path: seq<Point>, picks: seq<int>, next: int)
    requires forall k :: 0 <= k < |picks| ==> 0 <= picks[k] < |path|
    requires 0 <= next < |path|
    ensures Picked(path, picks + [next]) == Picked(path, picks) + [path[next]]
  {
    assert forall k :: 0 <= k < |picks| ==> (picks + [next])[k] == picks[k];
  }

  /** OptimizePathLineOfSight. When every point sees the next one (as on a
      retraced path), each pass of the outer loop advances, so it terminates; the
      result is the subsequence of greedy picks, runs from the first point to
      the last, and every kept point sees the next kept one. */
  method OptimizePathLineOfSight(path: seq<Point>, buffers: Buffers, chunkSize: int)
    returns (optimizedPath: seq<Point>, ghost picks: seq<int>)
    requires WellFormed(buffers, chunkSize)
    requires InSightPairwise(path, buffers, chunkSize)
    ensures |path| == 0 ==> optimizedPath == []
    ensures |path| > 0 ==>
      GreedyPicks(path, picks, buffers, chunkSize) && picks[|picks| - 1] == |path| - 1 &&
      optimizedPath == Picked(path, picks)
    ensures |path| > 0 ==> optimizedPath[0] == path[0] && optimizedPath[|optimizedPath| - 1] == path[|path| - 1]
    ensures |path| >= 2 ==> |optimizedPath| >= 2
    ensures InSightPairwise(optimizedPath, buffers, chunkSize)
  {
    optimizedPath := [];
    picks := [];
    if |path| == 0 {
      return;
    }
    optimizedPath := optimizedPath + [path[0]];
    picks := [0];
    var currentIndex := 0;
    while currentIndex < |path| - 1
      invariant 0 <= currentIndex < |path|
      invariant GreedyPicks(path, picks, buffers, chunkSize) && picks[|picks| - 1] == currentIndex
      invariant optimizedPath == Picked(path, picks)
      invariant currentIndex > 0 ==> |picks| >= 2
      decreases |path| - currentIndex
    {
      var last := FurthestInSight(path, currentIndex, buffers, chunkSize);
      var nextIndex := last + 1;
      ExtendPicks(path, picks, nextIndex - 1, buffers, chunkSize);
      PickedSnoc(path, picks, nextIndex - 1);
      optimizedPath := optimizedPath + [path[nextIndex - 1]];
      picks := picks + [nextIndex - 1];
      currentIndex := nextIndex - 1;
    }
    PicksInSight(path, picks, optimizedPath, buffers, chunkSize);
  }
}
