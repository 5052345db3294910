/** Coordinates shared by the chunk manager and the path planner: integer tile and
    chunk coordinates (int2 / Vector2Int), continuous positions (float2, Vector3),
    and the two integer divisions the source mixes: floor division, used by
    IsTileWalkable, HasLineOfSight and WorldToChunk, and C#'s truncating `/`,
    used by the neighbour pre-check and GetTileDataFromWorldPosition.
    Floats are modelled as reals; integers as unbounded ints. */
module Grid {

  /** int2 / Vector2Int: a global tile coordinate or a chunk coordinate. */
  datatype Int2 = Int2(x: int, y: int)
  {
    function Plus(d: Int2): Int2 { Int2(x + d.x, y + d.y) }
  }

  /** float2: a continuous position on the tile plane. */
  datatype Point = Point(x: real, y: real)

  /** Vector3 (x, y, z) in world space; the tile plane is x/z. */
  datatype Vec3 = Vec3(x: real, y: real, z: real)

  /** Vector2, used for texture coordinates. */
  datatype Vec2 = Vec2(x: real, y: real)

  function Abs(a: int): nat { if a < 0 then -a else a }

  function AbsReal(a: real): real { if a < 0.0 then -a else a }

  function MinReal(a: real, b: real): real { if a <= b then a else b }

  function MaxReal(a: real, b: real): real { if a <= b then b else a }

  /** An integer grid coordinate times a real scale factor. */
  function Scale(v: int, factor: real): real { v as real * factor }

  /** Floor division by a positive divisor (`math.floor(a / (float)b)`,
      `Mathf.FloorToInt`): the unique q with q*b <= a < q*b + b. */
  function FloorDiv(a: int, b: int): (q: int)
    requires b > 0
    ensures q * b <= a < q * b + b
  {
    a / b
  }

  /** C#'s integer `/` by a positive divisor: rounds toward zero. */
  function TruncDiv(a: int, b: int): (q: int)
    requires b > 0
    ensures 0 <= a ==> 0 <= q * b <= a < q * b + b
    ensures a < 0 ==> q * b - b < a <= q * b <= 0
  {
    if a >= 0 then
      var p := FloorDiv(a, b);
      QuotientNonnegative(a, b, p);
      MulNonnegative(p, b);
      p
    else
      var p := FloorDiv(-a, b);
      QuotientNonnegative(-a, b, p);
      MulNonnegative(p, b);
      MulNegate(p, b);
      -p
  }

  /** The two divisions part exactly on negative numbers that are not multiples
      of the divisor: there truncation lands one chunk nearer to zero. */
  lemma TruncDivVersusFloorDiv(a: int, b: int)
    requires b > 0
    ensures (0 <= a || a % b == 0) ==> TruncDiv(a, b) == FloorDiv(a, b)
    ensures (a < 0 && a % b != 0) ==> TruncDiv(a, b) == FloorDiv(a, b) + 1
  {
    if a < 0 {
      var p, r := (-a) / b, (-a) % b;
      assert -a == p * b + r;
      MulNegate(p, b);
      if r == 0 {
        DivModUnique(a, b, -p, 0);
      } else {
        MulNegate(p + 1, b);
        MulDistributes(p, b);
        DivModUnique(a, b, -p - 1, b - r);
      }
    }
  }

  lemma MulNonnegative(k: int, b: int)
    requires k >= 0 && b >= 0
    ensures k * b >= 0
  {}

  lemma MulNegate(p: int, b: int)
    ensures (-p) * b == -(p * b)
  {}

  lemma MulDistributes(t: int, b: int)
    ensures (t + 1) * b == t * b + b
  {}

  /** A quotient of a non-negative number by a positive one is non-negative. */
  lemma QuotientNonnegative(a: int, b: int, p: int)
    requires b > 0 && a >= 0 && p * b <= a < p * b + b
    ensures p >= 0
  {
    if p < 0 {
      MulNonnegative(-p - 1, b);
      MulNegate(p + 1, b);
    }
  }

  lemma TimesStrict(t: int, q: int, b: int)
    requires b > 0 && t < q
    ensures t * b + b <= q * b
  {
    var k := q - t - 1;
    MulNonnegative(k, b);
    assert q * b == (t + 1) * b + k * b;
    MulDistributes(t, b);
  }

  lemma TimesStrictIf(t: int, q: int, b: int)
    requires b > 0
    ensures t < q ==> t * b + b <= q * b
  {
    if t < q { TimesStrict(t, q, b); }
  }

  /** Two quotients that bracket the same a are equal. */
  lemma QuotientUnique(t: int, q: int, b: int, a: int)
    requires b > 0
    requires q * b <= a < q * b + b && t * b <= a < t * b + b
    ensures t == q
  {
    if t < q { TimesStrict(t, q, b); }
    if q < t { TimesStrict(q, t, b); }
  }

  /** A tile's chunk as the C# code computes it with int and int2 division
      (`g / chunkSize`), which truncates toward zero. */
  function TruncatedChunk(g: Int2, chunkSize: int): Int2
    requires chunkSize > 0
  {
    Int2(TruncDiv(g.x, chunkSize), TruncDiv(g.y, chunkSize))
  }

  /** The chunk that owns a global tile, by floor division per axis. */
  function ChunkOf(g: Int2, chunkSize: int): Int2
    requires chunkSize > 0
  {
    Int2(FloorDiv(g.x, chunkSize), FloorDiv(g.y, chunkSize))
  }

  /** A tile's coordinate inside its owning chunk. */
  function LocalOf(g: Int2, chunkSize: int): (l: Int2)
    requires chunkSize > 0
    ensures 0 <= l.x < chunkSize && 0 <= l.y < chunkSize
    ensures g.x == ChunkOf(g, chunkSize).x * chunkSize + l.x
    ensures g.y == ChunkOf(g, chunkSize).y * chunkSize + l.y
  {
    var c := ChunkOf(g, chunkSize);
    Int2(g.x - c.x * chunkSize, g.y - c.y * chunkSize)
  }

  /** Row-major index of a local coordinate (`x + y * chunkSize`). */
  function RowMajor(x: int, y: int, chunkSize: int): int
  {
    x + y * chunkSize
  }

  /** For in-range x and y the row-major index lands in [0, chunkSize^2), and it
      determines x and y: the index is injective on the chunk's square. */
  lemma RowMajorInRange(x: int, y: int, chunkSize: int)
    requires 0 <= x < chunkSize && 0 <= y < chunkSize
    ensures 0 <= RowMajor(x, y, chunkSize) < chunkSize * chunkSize
    ensures RowMajor(x, y, chunkSize) % chunkSize == x
    ensures RowMajor(x, y, chunkSize) / chunkSize == y
  {
    var i := RowMajor(x, y, chunkSize);
    TimesStrict(y, chunkSize, chunkSize);
    MulNonnegative(y, chunkSize);
    DivModUnique(i, chunkSize, y, x);
  }

  lemma RowMajorInjective(x1: int, y1: int, x2: int, y2: int, chunkSize: int)
    requires 0 <= x1 < chunkSize && 0 <= y1 < chunkSize
    requires 0 <= x2 < chunkSize && 0 <= y2 < chunkSize
    requires RowMajor(x1, y1, chunkSize) == RowMajor(x2, y2, chunkSize)
    ensures x1 == x2 && y1 == y2
  {
    RowMajorInRange(x1, y1, chunkSize);
    RowMajorInRange(x2, y2, chunkSize);
  }

  /** The inverse direction: index i of a chunk of side n is tile (i % n, i / n),
      in range, and x + y*n gives i back. */
  lemma IndexToTile(i: int, n: int)
    requires n > 0 && 0 <= i < n * n
    ensures 0 <= i % n < n && 0 <= i / n < n
    ensures RowMajor(i % n, i / n, n) == i
  {
    var q := FloorDiv(i, n);
    QuotientNonnegative(i, n, q);
    TimesStrictIf(n - 1, q, n);
    MulDistributes(n - 1, n);
  }

  lemma DivModUnique(i: int, n: int, q: int, r: int)
    requires n > 0 && 0 <= r < n && i == q * n + r
    ensures i / n == q && i % n == r
  {
    var q' := i / n;
    var r' := i % n;
    assert i == q' * n + r';
    QuotientUnique(q', q, n, i);
  }

  /** The row-major index of a global tile in its owning chunk: always inside
      [0, chunkSize^2), so IsTileWalkable's bounds check can never fire. */
  function LocalIndex(g: Int2, chunkSize: int): (i: int)
    requires chunkSize > 0
    ensures 0 <= i < chunkSize * chunkSize
  {
    var l := LocalOf(g, chunkSize);
    RowMajorInRange(l.x, l.y, chunkSize);
    RowMajor(l.x, l.y, chunkSize)
  }

  /** `(int2)math.floor(p)`: the tile under a continuous position. */
  function TileUnder(p: Point): Int2
  {
    Int2(p.x.Floor, p.y.Floor)
  }

  /** The centre of a tile (`x + 0.5f, y + 0.5f`); its floor is the tile again. */
  function TileCenter(t: Int2): (p: Point)
    ensures TileUnder(p) == t
  {
    Point(t.x as real + 0.5, t.y as real + 0.5)
  }

  /** The integer tile as a float2 (`(float2)int2`), as the heuristic sees it. */
  function TileCorner(t: Int2): Point
  {
    Point(t.x as real, t.y as real)
  }
}
