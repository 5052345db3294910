/** Line of sight for path smoothing: the supercover variant of Bresenham's line
    from one tile to another, which also lists both side tiles wherever the line
    passes exactly through a tile corner, and the test that every listed tile is
    in a loaded chunk and walkable. */
module LineOfSight {
  import opened Grid
  import opened TileData
  import opened TileMap

  /** Tiles still to go along one axis when stepping by `step` (1 or -1). */
  function Remaining(from: int, to: int, step: int): int
  {
    if step == 1 then to - from else from - to
  }

  /** a * b, by repeated addition, so that the loop's error term stays linear
      for the solver; ProductIsMul connects it to `*`. */
  function Product(a: nat, b: nat): nat
  {
    if a == 0 then 0 else Product(a - 1, b) + b
  }

  lemma {:induction false} ProductIsMul(a: nat, b: nat)
    ensures Product(a, b) == a * b
  {
    if a > 0 {
      ProductIsMul(a - 1, b);
      MulDistributes(a - 1, b);
    }
  }

  /** The state the Bresenham loop keeps: the remaining distances ax and ay lie
      in the step directions and within |dx| and |dy|, and the error term is
      dx - dy + ax * dy - ay * dx. */
  predicate LineInvariant(x0: int, y0: int, x1: int, y1: int, dx: int, dy: int, sx: int, sy: int, err: int)
  {
    var ax, ay := Remaining(x0, x1, sx), Remaining(y0, y1, sy);
    (sx == 1 || sx == -1) && (sy == 1 || sy == -1) &&
    0 <= ax <= dx && 0 <= ay <= dy &&
    err == dx - dy + Product(ax, dy) - Product(ay, dx)
  }

  /** The loop's moving state: the current cell and the error term. */
  datatype Cursor = Cursor(x: int, y: int, err: int)

  /** The state after one iteration of the loop from a cell that is not the end. */
  function Next(x0: int, y0: int, dx: int, dy: int, sx: int, sy: int, err: int): Cursor
  {
    var e2 := 2 * err;
    var err1 := if e2 > -dy then err - dy else err;
    var x0' := if e2 > -dy then x0 + sx else x0;
    var err2 := if e2 < dx then err1 + dx else err1;
    var y0' := if e2 < dx then y0 + sy else y0;
    Cursor(x0', y0', err2)
  }

  /** One iteration of the loop: it steps along x only while x has distance
      left, along y only while y has, and along at least one of them, so the
      invariant holds again and the remaining distance shrinks. */
  lemma StepKeepsInvariant(x0: int, y0: int, x1: int, y1: int, dx: int, dy: int, sx: int, sy: int, err: int)
    requires LineInvariant(x0, y0, x1, y1, dx, dy, sx, sy, err)
    requires !(x0 == x1 && y0 == y1)
    ensures var n := Next(x0, y0, dx, dy, sx, sy, err);
      LineInvariant(n.x, n.y, x1, y1, dx, dy, sx, sy, n.err) &&
      Remaining(n.x, x1, sx) + Remaining(n.y, y1, sy) < Remaining(x0, x1, sx) + Remaining(y0, y1, sy)
  {
  }

  /** The cells the loop lists from the state (x0, y0, err) on: the current cell,
      then on a corner crossing (2 * err == 0) the cell one step along x and the
      cell one step along y, then the cells from the next state. */
  function Cover(x0: int, y0: int, x1: int, y1: int, dx: int, dy: int, sx: int, sy: int, err: int): seq<Int2>
    requires LineInvariant(x0, y0, x1, y1, dx, dy, sx, sy, err)
    decreases Remaining(x0, x1, sx) + Remaining(y0, y1, sy)
  {
    if x0 == x1 && y0 == y1 then [Int2(x0, y0)]
    else
      StepKeepsInvariant(x0, y0, x1, y1, dx, dy, sx, sy, err);
      var n := Next(x0, y0, dx, dy, sx, sy, err);
      var corner := if 2 * err == 0 then [Int2(x0 + sx, y0), Int2(x0, y0 + sy)] else [];
      [Int2(x0, y0)] + corner + Cover(n.x, n.y, x1, y1, dx, dy, sx, sy, n.err)
  }

  /** Cover, unfolded once at a cell that is not the end. */
  lemma CoverStep(x0: int, y0: int, x1: int, y1: int, dx: int, dy: int, sx: int, sy: int, err: int)
    requires LineInvariant(x0, y0, x1, y1, dx, dy, sx, sy, err) && !(x0 == x1 && y0 == y1)
    ensures var n := Next(x0, y0, dx, dy, sx, sy, err);
      LineInvariant(n.x, n.y, x1, y1, dx, dy, sx, sy, n.err) &&
      Remaining(n.x, x1, sx) + Remaining(n.y, y1, sy) < Remaining(x0, x1, sx) + Remaining(y0, y1, sy) &&
      Cover(x0, y0, x1, y1, dx, dy, sx, sy, err) ==
        [Int2(x0, y0)] + (if 2 * err == 0 then [Int2(x0 + sx, y0), Int2(x0, y0 + sy)] else []) +
        Cover(n.x, n.y, x1, y1, dx, dy, sx, sy, n.err)
  {
    StepKeepsInvariant(x0, y0, x1, y1, dx, dy, sx, sy, err);
  }

  /** The state SupercoverLine sets up satisfies the loop invariant. */
  lemma LineStart(start: Int2, end: Int2)
    ensures var dx: int, dy: int := Abs(end.x - start.x), Abs(end.y - start.y);
      var sx := if start.x < end.x then 1 else -1;
      var sy := if start.y < end.y then 1 else -1;
      LineInvariant(start.x, start.y, end.x, end.y, dx, dy, sx, sy, dx - dy)
  {
    var dx: int, dy: int := Abs(end.x - start.x), Abs(end.y - start.y);
    ProductIsMul(dx, dy);
    ProductIsMul(dy, dx);
  }

  /** The supercover line from one tile to another, as SupercoverLine sets it up. */
  function Line(start: Int2, end: Int2): seq<Int2>
  {
    var dx: int, dy: int := Abs(end.x - start.x), Abs(end.y - start.y);
    var sx := if start.x < end.x then 1 else -1;
    var sy := if start.y < end.y then 1 else -1;
    LineStart(start, end);
    Cover(start.x, start.y, end.x, end.y, dx, dy, sx, sy, dx - dy)
  }

  /** The cells from a state begin at its current cell and end at the end cell. */
  lemma {:induction false} CoverEnds(x0: int, y0: int, x1: int, y1: int, dx: int, dy: int, sx: int, sy: int, err: int)
    requires LineInvariant(x0, y0, x1, y1, dx, dy, sx, sy, err)
    ensures var cells := Cover(x0, y0, x1, y1, dx, dy, sx, sy, err);
      |cells| >= 1 && cells[0] == Int2(x0, y0) && cells[|cells| - 1] == Int2(x1, y1)
    decreases Remaining(x0, x1, sx) + Remaining(y0, y1, sy)
  {
    if !(x0 == x1 && y0 == y1) {
      CoverStep(x0, y0, x1, y1, dx, dy, sx, sy, err);
      var n := Next(x0, y0, dx, dy, sx, sy, err);
      CoverEnds(n.x, n.y, x1, y1, dx, dy, sx, sy, n.err);
    }
  }

  /** The line from one tile to another begins at the first and ends at the second. */
  lemma LineEnds(start: Int2, end: Int2)
    ensures var cells := Line(start, end);
      |cells| >= 1 && cells[0] == start && cells[|cells| - 1] == end
  {
    var dx: int, dy: int := Abs(end.x - start.x), Abs(end.y - start.y);
    var sx := if start.x < end.x then 1 else -1;
    var sy := if start.y < end.y then 1 else -1;
    LineIsCover(start, end);
    CoverEnds(start.x, start.y, end.x, end.y, dx, dy, sx, sy, dx - dy);
  }

  /** Line, unfolded: the cells from SupercoverLine's initial state. */
  lemma LineIsCover(start: Int2, end: Int2)
    ensures var dx: int, dy: int := Abs(end.x - start.x), Abs(end.y - start.y);
      var sx := if start.x < end.x then 1 else -1;
      var sy := if start.y < end.y then 1 else -1;
      LineInvariant(start.x, start.y, end.x, end.y, dx, dy, sx, sy, dx - dy) &&
      Line(start, end) == Cover(start.x, start.y, end.x, end.y, dx, dy, sx, sy, dx - dy)
  {
    LineStart(start, end);
  }

  lemma EmptyConcat<T>(s: seq<T>)
    ensures [] + s == s
  {
  }

  /** One diagonal step: the line lists both side tiles between the two. */
  lemma LineToDiagonal(a: Int2, sx: int, sy: int)
    requires (sx == 1 || sx == -1) && (sy == 1 || sy == -1)
    ensures Line(a, Int2(a.x + sx, a.y + sy)) == [a, Int2(a.x + sx, a.y), Int2(a.x, a.y + sy), Int2(a.x + sx, a.y + sy)]
  {
    var b := Int2(a.x + sx, a.y + sy);
    LineIsCover(a, b);
    CoverStep(a.x, a.y, b.x, b.y, 1, 1, sx, sy, 0);
    assert LineInvariant(b.x, b.y, b.x, b.y, 1, 1, sx, sy, 0);
    assert Cover(b.x, b.y, b.x, b.y, 1, 1, sx, sy, 0) == [b];
  }

  /** One step along x: the line is just the two tiles. */
  lemma LineToHorizontal(a: Int2, sx: int)
    requires sx == 1 || sx == -1
    ensures Line(a, Int2(a.x + sx, a.y)) == [a, Int2(a.x + sx, a.y)]
  {
    var b := Int2(a.x + sx, a.y);
    LineIsCover(a, b);
    CoverStep(a.x, a.y, b.x, b.y, 1, 0, sx, -1, 1);
    assert LineInvariant(b.x, b.y, b.x, b.y, 1, 0, sx, -1, 1);
    assert Cover(b.x, b.y, b.x, b.y, 1, 0, sx, -1, 1) == [b];
  }

  /** One step along y: the line is just the two tiles. */
  lemma LineToVertical(a: Int2, sy: int)
    requires sy == 1 || sy == -1
    ensures Line(a, Int2(a.x, a.y + sy)) == [a, Int2(a.x, a.y + sy)]
  {
    var b := Int2(a.x, a.y + sy);
    LineIsCover(a, b);
    CoverStep(a.x, a.y, b.x, b.y, 0, 1, -1, sy, -1);
    assert LineInvariant(b.x, b.y, b.x, b.y, 0, 1, -1, sy, -1);
    assert Cover(b.x, b.y, b.x, b.y, 0, 1, -1, sy, -1) == [b];
  }

  /** Between a tile and a neighbour the line is the two tiles, plus both corner
      tiles for a diagonal neighbour. */
  lemma LineToNeighbor(a: Int2, d: Int2)
    requires d in Directions
    ensures IsDiagonal(d) ==> Line(a, a.Plus(d)) == [a, Int2(a.x + d.x, a.y), Int2(a.x, a.y + d.y), a.Plus(d)]
    ensures !IsDiagonal(d) ==> Line(a, a.Plus(d)) == [a, a.Plus(d)]
  {
    assert (d.x == 1 || d.x == -1 || d.x == 0) && (d.y == 1 || d.y == -1 || d.y == 0) && d != Int2(0, 0);
    if IsDiagonal(d) {
      LineToDiagonal(a, d.x, d.y);
    } else if d.x != 0 {
      LineToHorizontal(a, d.x);
    } else {
      LineToVertical(a, d.y);
    }
  }

  /** A line through tile corners lists the side tiles: from (0,0) to (2,2) it
      touches (1,0) and (0,1) as well as the diagonal. */
  lemma DiagonalLineCoversCorners()
    ensures Line(Int2(0, 0), Int2(2, 2)) ==
      [Int2(0, 0), Int2(1, 0), Int2(0, 1), Int2(1, 1), Int2(2, 1), Int2(1, 2), Int2(2, 2)]
  {
    LineStart(Int2(0, 0), Int2(2, 2));
    CoverStep(0, 0, 2, 2, 2, 2, 1, 1, 0);
    CoverStep(1, 1, 2, 2, 2, 2, 1, 1, 0);
    assert Cover(2, 2, 2, 2, 2, 2, 1, 1, 0) == [Int2(2, 2)];
  }

  lemma ConcatAssociates<T>(a: seq<T>, b: seq<T>, c: seq<T>, d: seq<T>)
    ensures a + b + c + d == a + (b + c + d)
  {
  }

  /** The loop invariant of SupercoverLine is kept by one pass: listing the
      current cell and the corner cells, then moving to the next state. */
  lemma CoverAppend(line: seq<Int2>, result: seq<Int2>, x0: int, y0: int, x1: int, y1: int,
                    dx: int, dy: int, sx: int, sy: int, err: int, corner: seq<Int2>, n: Cursor)
    requires LineInvariant(x0, y0, x1, y1, dx, dy, sx, sy, err) && !(x0 == x1 && y0 == y1)
    requires result + Cover(x0, y0, x1, y1, dx, dy, sx, sy, err) == line
    requires n == Next(x0, y0, dx, dy, sx, sy, err)
    requires corner == if 2 * err == 0 then [Int2(x0 + sx, y0), Int2(x0, y0 + sy)] else []
    ensures LineInvariant(n.x, n.y, x1, y1, dx, dy, sx, sy, n.err)
    ensures Remaining(n.x, x1, sx) + Remaining(n.y, y1, sy) < Remaining(x0, x1, sx) + Remaining(y0, y1, sy)
    ensures result + [Int2(x0, y0)] + corner + Cover(n.x, n.y, x1, y1, dx, dy, sx, sy, n.err) == line
  {
    CoverStep(x0, y0, x1, y1, dx, dy, sx, sy, err);
    ConcatAssociates(result, [Int2(x0, y0)], corner, Cover(n.x, n.y, x1, y1, dx, dy, sx, sy, n.err));
  }

  /** One pass of the loop after the current cell is listed: the corner cells
      when 2 * err == 0, then the Bresenham steps. */
  method Advance(x0: int, y0: int, dx: int, dy: int, sx: int, sy: int, err: int)
    returns (corner: seq<Int2>, x0': int, y0': int, err': int)
    ensures Cursor(x0', y0', err') == Next(x0, y0, dx, dy, sx, sy, err)
    ensures corner == if 2 * err == 0 then [Int2(x0 + sx, y0), Int2(x0, y0 + sy)] else []
  {
    corner, x0', y0', err' := [], x0, y0, err;
    var e2 := 2 * err;
    if e2 == 0 {
      corner := corner + [Int2(x0 + sx, y0)];
      corner := corner + [Int2(x0, y0 + sy)];
    }
    if e2 > -dy {
      err' := err' - dy;
      x0' := x0' + sx;
    }
    if e2 < dx {
      err' := err' + dx;
      y0' := y0' + sy;
    }
  }

  /** SupercoverLine: the loop lists exactly Line(start, end); it stops because
      every iteration moves one tile nearer the end along x, y or both. */
  method SupercoverLine(start: Int2, end: Int2) returns (result: seq<Int2>)
    ensures result == Line(start, end)
  {
    result := [];
    var x0, y0 := start.x, start.y;
    var x1, y1 := end.x, end.y;
    var dx: int := Abs(x1 - x0);
    var dy: int := Abs(y1 - y0);
    var sx := if x0 < x1 then 1 else -1;
    var sy := if y0 < y1 then 1 else -1;
    var err := dx - dy;
    LineIsCover(start, end);
    EmptyConcat(Cover(x0, y0, x1, y1, dx, dy, sx, sy, err));
    while true
      invariant LineInvariant(x0, y0, x1, y1, dx, dy, sx, sy, err)
      invariant result + Cover(x0, y0, x1, y1, dx, dy, sx, sy, err) == Line(start, end)
      decreases Remaining(x0, x1, sx) + Remaining(y0, y1, sy)
    {
      ghost var before, cx, cy, cerr := result, x0, y0, err;
      result := result + [Int2(x0, y0)];
      if x0 == x1 && y0 == y1 {
        break;
      }
      var corner;
      corner, x0, y0, err := Advance(x0, y0, dx, dy, sx, sy, err);
      result := result + corner;
      CoverAppend(Line(start, end), before, cx, cy, x1, y1, dx, dy, sx, sy, cerr, corner, Cursor(x0, y0, err));
    }
  }

  /** Line of sight between two positions: every tile of the line between the
      tiles under them is in a loaded chunk and walkable. */
  predicate HasSight(start: Point, end: Point, buffers: Buffers, chunkSize: int)
    requires WellFormed(buffers, chunkSize)
  {
    var line := Line(TileUnder(start), TileUnder(end));
    forall i :: 0 <= i < |line| ==> IsTileWalkable(line[i], buffers, chunkSize)
  }

  /** A step to an admissible neighbour is always in sight: the corner rule makes
      both side tiles of a diagonal walkable. Positions anywhere inside the two
      tiles see each other. */
  lemma NeighborInSight(a: Int2, d: Int2, p: Point, q: Point, buffers: Buffers, chunkSize: int)
    requires WellFormed(buffers, chunkSize) && d in Directions
    requires IsTileWalkable(a, buffers, chunkSize) && Admissible(a, d, buffers, chunkSize)
    requires TileUnder(p) == a && TileUnder(q) == a.Plus(d)
    ensures HasSight(p, q, buffers, chunkSize)
  {
    LineToNeighbor(a, d);
  }

  /** HasLineOfSight: walks the line, fetching a chunk's buffer only when the
      chunk changes (None stands for the initial placeholder chunk), and fails on
      the first tile that is in a missing chunk or not walkable. */
  method HasLineOfSight(start: Point, end: Point, buffers: Buffers, chunkSize: int) returns (visible: bool)
    requires WellFormed(buffers, chunkSize)
    ensures visible <==> HasSight(start, end, buffers, chunkSize)
  {
    var startTile := TileUnder(start);
    var endTile := TileUnder(end);
    var line := SupercoverLine(startTile, endTile);
    var currentChunk: Option<Int2> := None;
    var currentTileBuffer: seq<TileBufferElement> := [];
    var i := 0;
    while i < |line|
      invariant 0 <= i <= |line|
      invariant forall j :: 0 <= j < i ==> IsTileWalkable(line[j], buffers, chunkSize)
      invariant currentChunk.Some? ==> currentChunk.value in buffers && currentTileBuffer == buffers[currentChunk.value]
    {
      var point := line[i];
      var chunkCoord := Int2(FloorDiv(point.x, chunkSize), FloorDiv(point.y, chunkSize));
      if currentChunk != Some(chunkCoord) {
        if chunkCoord !in buffers {
          return false;
        }
        currentTileBuffer := buffers[chunkCoord];
        currentChunk := Some(chunkCoord);
      }
      var localTile := Int2(point.x - chunkCoord.x * chunkSize, point.y - chunkCoord.y * chunkSize);
      if localTile.x < 0 || localTile.y < 0 || localTile.x >= chunkSize || localTile.y >= chunkSize {
        return false;
      }
      var index := localTile.x + localTile.y * chunkSize;
      RowMajorInRange(localTile.x, localTile.y, chunkSize);
      if !currentTileBuffer[index].tileData.isWalkable {
        return false;
      }
      i := i + 1;
    }
    return true;
  }
}
