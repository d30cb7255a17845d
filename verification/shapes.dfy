/**
 * The tilings of the cover image (`Shape`, `Hexagon` and `Triangle`).
 *
 * A shape is built from the tile size `scale` in pixels, a `padding_factor`
 * that spreads the tiles apart, and the canvas size.  `generate_units` walks
 * a lattice of indices and produces one polygon per lattice cell (two for
 * triangles) in units of one tile; calling the shape multiplies every
 * coordinate by `scale`.
 */
module Shapes {
  import opened Numbers
  import opened Geometry
  import opened Lattice

  /** A polygon: its vertices in drawing order. */
  type Polygon = seq<Point>

  datatype Kind = Hexagon | Triangle

  /** The constructor arguments of a tiling. */
  datatype Shape = Shape(kind: Kind, scale: real, paddingFactor: real, outWidth: int, outHeight: int)

  /** The program never checks its arguments; it only makes sense for positive ones. */
  predicate Valid(sh: Shape)
  {
    sh.scale > 0.0 && sh.paddingFactor > 0.0 && sh.outWidth > 0 && sh.outHeight > 0
  }

  /** `units`: the distance between neighbouring tile centres, in pixels. */
  function Units(sh: Shape): (u: real)
    requires Valid(sh)
    ensures u > 0.0
  {
    sh.scale * sh.paddingFactor
  }

  /** `out_width / units`: the canvas width in tile steps. */
  function WidthRatio(sh: Shape): (w: real)
    requires Valid(sh)
    ensures w > 0.0 && w * Units(sh) == sh.outWidth as real
  {
    sh.outWidth as real / Units(sh)
  }

  /**
   * `out_height / units * 2 / sqrt(3)`, the canvas height in rows of tiles,
   * is q * sqrt3 for the rational q returned here.
   */
  function HeightRatio(sh: Shape): (q: real)
    requires Valid(sh)
    ensures q > 0.0 && 3.0 * q * Units(sh) == 2.0 * sh.outHeight as real
  {
    2.0 * sh.outHeight as real / (3.0 * Units(sh))
  }

  /** `offset`, the first vertex of the tile at the origin: (1/2, 1/(2 sqrt3)) = (1/2, sqrt3/6). */
  const UnitOffset: Point := Point(0.5, 1.0 / 6.0)

  /** `placement_wrt_s`: the step between neighbouring tiles of a row, pf * (1, 0). */
  function PlacementS(pf: real): Point
  {
    Mul(pf, Point(1.0, 0.0))
  }

  // ----- Hexagon -----

  /** `y_end`: one more than the truncated height ratio. */
  function HexagonYEnd(sh: Shape): (n: int)
    requires Valid(sh)
    ensures n >= 1
  {
    1 + TruncRoot3(HeightRatio(sh))
  }

  /** `x_start = int(-y_end / 2)`: Python's true division, then truncation toward zero. */
  function HexagonXStart(sh: Shape): int
    requires Valid(sh)
  {
    Trunc(-(HexagonYEnd(sh) as real) / 2.0)
  }

  /** `x_end`: one more than the truncated width ratio. */
  function HexagonXEnd(sh: Shape): int
    requires Valid(sh)
  {
    1 + Trunc(WidthRatio(sh))
  }

  /**
   * The loop bounds: the rows t end just past the height ratio
   * (t_end - 1 <= q sqrt3 < t_end), the columns s start half a row count to
   * the left of 0 and end just past the width ratio (s_end - 1 <= W < s_end).
   */
  lemma HexagonBounds(sh: Shape)
    requires Valid(sh)
    ensures var q, n := HeightRatio(sh), HexagonYEnd(sh);
      ((n - 1) * (n - 1)) as real <= 3.0 * q * q < (n * n) as real
    ensures HexagonXStart(sh) == -(HexagonYEnd(sh) / 2) <= 0
    ensures (HexagonXEnd(sh) - 1) as real <= WidthRatio(sh) < HexagonXEnd(sh) as real
  {
    var n := HexagonYEnd(sh);
    assert n == 2 * (n / 2) + n % 2;
    assert -(n as real) / 2.0 == -((n / 2) as real) - (n % 2) as real / 2.0;
  }

  /** `placement_wrt_t = rot60 @ placement_wrt_s`: the step to the next row. */
  function HexagonPlacementT(pf: real): Point
  {
    RotMatrix(Sixty, PlacementS(pf))
  }

  /** `base_p`: the centre of hexagon (s, t). */
  function HexagonBase(pf: real, s: int, t: int): Point
  {
    Add(Mul(s as real, PlacementS(pf)), Mul(t as real, HexagonPlacementT(pf)))
  }

  /** The centre of hexagon (s, t) is s * pf * (1, 0) + t * pf * (1/2, sqrt3/2). */
  lemma HexagonBaseClosed(pf: real, s: int, t: int)
    ensures HexagonBase(pf, s, t) == Point(pf * (s as real + t as real / 2.0), pf * t as real / 2.0)
  {
  }

  /** The hexagon of cell (s, t): `base_p + matrix_power(rot60, i) @ offset` for i in 0..5. */
  function HexagonUnit(pf: real, s: int, t: int): (h: Polygon)
    ensures |h| == 6
  {
    seq(6, i requires 0 <= i < 6 => Add(HexagonBase(pf, s, t), MatrixPower(Sixty, i, UnitOffset)))
  }

  /** The hexagon is regular: all six vertices lie 1/sqrt3 from its centre. */
  lemma HexagonVertexDistance(pf: real, s: int, t: int, i: int)
    requires 0 <= i < 6
    ensures Norm(Sub(HexagonUnit(pf, s, t)[i], HexagonBase(pf, s, t))) == 1.0 / 3.0
  {
    var b, v := HexagonBase(pf, s, t), MatrixPower(Sixty, i, UnitOffset);
    SubAdd(b, v);
    MatrixPowerNorm(Sixty, i, UnitOffset);
  }

  /** The vertex mean of a hexagon is its centre: the six turned offsets cancel. */
  lemma HexagonCentroid(pf: real, s: int, t: int)
    ensures Mean(HexagonUnit(pf, s, t)) == HexagonBase(pf, s, t)
  {
    Sum6(HexagonUnit(pf, s, t));
  }

  /** Neighbouring centres are pf apart, along the row and to the next row. */
  lemma HexagonSpacing(pf: real, s: int, t: int)
    ensures HexagonBase(pf, s + 1, t) == Add(HexagonBase(pf, s, t), PlacementS(pf))
    ensures HexagonBase(pf, s, t + 1) == Add(HexagonBase(pf, s, t), HexagonPlacementT(pf))
    ensures Norm(PlacementS(pf)) == Norm(HexagonPlacementT(pf)) == pf * pf
  {
    RotMatrixNorm(Sixty, PlacementS(pf));
  }

  /**
   * Without padding the hexagons tile the plane: hexagon (s, t) shares its
   * right edge with hexagon (s + 1, t) and its upper right edge with (s, t + 1).
   */
  lemma HexagonNeighbours(s: int, t: int)
    ensures HexagonUnit(1.0, s, t)[0] == HexagonUnit(1.0, s + 1, t)[2]
    ensures HexagonUnit(1.0, s, t)[5] == HexagonUnit(1.0, s + 1, t)[3]
    ensures HexagonUnit(1.0, s, t)[0] == HexagonUnit(1.0, s, t + 1)[4]
    ensures HexagonUnit(1.0, s, t)[1] == HexagonUnit(1.0, s, t + 1)[3]
  {
  }

  /** The hexagons of a list of cells, in the order of the cells. */
  function Hexagons(pf: real, cells: seq<(int, int)>): (hs: seq<Polygon>)
    ensures |hs| == |cells|
  {
    seq(|cells|, k requires 0 <= k < |cells| => HexagonUnit(pf, cells[k].0, cells[k].1))
  }

  /** One more cell adds its hexagon at the end. */
  lemma HexagonsSnoc(pf: real, cells: seq<(int, int)>, c: (int, int))
    ensures Hexagons(pf, cells + [c]) == Hexagons(pf, cells) + [HexagonUnit(pf, c.0, c.1)]
  {
  }

  /** The hexagons of two runs of cells, one after the other. */
  lemma HexagonsAppend(pf: real, a: seq<(int, int)>, b: seq<(int, int)>)
    ensures Hexagons(pf, a + b) == Hexagons(pf, a) + Hexagons(pf, b)
  {
  }

  /** The cells `Hexagon.generate_units` visits: s outer over [x_start, x_end), t inner over [0, y_end). */
  function HexagonCells(sh: Shape): seq<(int, int)>
    requires Valid(sh)
  {
    Grid(HexagonXStart(sh), HexagonXEnd(sh), HexagonYEnd(sh))
  }

  /** What `Hexagon.generate_units` yields. */
  function HexagonUnits(sh: Shape): seq<Polygon>
    requires Valid(sh)
  {
    Hexagons(sh.paddingFactor, HexagonCells(sh))
  }

  /** Count: (x_end - x_start) * y_end hexagons. */
  lemma HexagonCount(sh: Shape)
    requires Valid(sh)
    ensures |HexagonUnits(sh)| == (HexagonXEnd(sh) - HexagonXStart(sh)) * HexagonYEnd(sh)
  {
    HexagonBounds(sh);
    GridSize(HexagonXStart(sh), HexagonXEnd(sh), HexagonYEnd(sh));
  }

  /** Order: the k-th hexagon is the one of cell (x_start + k div y_end, k mod y_end). */
  lemma HexagonIndex(sh: Shape, k: int)
    requires Valid(sh) && 0 <= k < |HexagonUnits(sh)|
    ensures HexagonXStart(sh) + k / HexagonYEnd(sh) < HexagonXEnd(sh)
    ensures HexagonUnits(sh)[k] ==
      HexagonUnit(sh.paddingFactor, HexagonXStart(sh) + k / HexagonYEnd(sh), k % HexagonYEnd(sh))
  {
    GridIndex(HexagonXStart(sh), HexagonXEnd(sh), HexagonYEnd(sh), k);
  }

  /** Coverage: every cell of the two ranges is visited, at position (s - x_start) * y_end + t. */
  lemma HexagonPosition(sh: Shape, s: int, t: int)
    requires Valid(sh)
    requires HexagonXStart(sh) <= s < HexagonXEnd(sh) && 0 <= t < HexagonYEnd(sh)
    ensures var k := (s - HexagonXStart(sh)) * HexagonYEnd(sh) + t;
      0 <= k < |HexagonUnits(sh)| && HexagonUnits(sh)[k] == HexagonUnit(sh.paddingFactor, s, t)
  {
    GridAt(HexagonXStart(sh), HexagonXEnd(sh), HexagonYEnd(sh), s, t);
  }

  /**
   * The nested loops of `Hexagon.generate_units` for given bounds: s outer,
   * t inner, one hexagon per cell.
   */
  method HexagonLoop(pf: real, xStart: int, xEnd: int, yEnd: nat) returns (polys: seq<Polygon>)
    ensures polys == Hexagons(pf, Grid(xStart, xEnd, yEnd))
  {
    polys := [];
    ghost var cells: seq<(int, int)> := [];
    var s := xStart;
    while s < xEnd
      invariant s == xStart || xStart < s <= xEnd
      invariant cells == Grid(xStart, s, yEnd)
      invariant polys == Hexagons(pf, cells)
      decreases xEnd - s
    {
      var t := 0;
      while t < yEnd
        invariant 0 <= t <= yEnd
        invariant cells == Grid(xStart, s, yEnd) + Row(s, t)
        invariant polys == Hexagons(pf, cells)
        decreases yEnd - t
      {
        HexagonsSnoc(pf, cells, (s, t));
        RowSnoc(Grid(xStart, s, yEnd), s, t);
        polys := polys + [HexagonUnit(pf, s, t)];
        cells := cells + [(s, t)];
        t := t + 1;
      }
      GridSnoc(xStart, s, yEnd);
      s := s + 1;
    }
  }

  // ----- Triangle -----

  /** `2 + int(y_end)`: the number of rows of triangle cells. */
  function TriangleRows(sh: Shape): (n: nat)
    requires Valid(sh)
    ensures n >= 2
  {
    2 + TruncRoot3(HeightRatio(sh))
  }

  /** `2 + int(x_end)`: the number of triangle cells per row. */
  function TriangleColumns(sh: Shape): (n: nat)
    requires Valid(sh)
    ensures n >= 2
  {
    2 + Trunc(WidthRatio(sh))
  }

  /** The loop bounds: one row and one column more than the canvas needs, and at most two more. */
  lemma TriangleBounds(sh: Shape)
    requires Valid(sh)
    ensures var q, n := HeightRatio(sh), TriangleRows(sh);
      ((n - 2) * (n - 2)) as real <= 3.0 * q * q < ((n - 1) * (n - 1)) as real
    ensures (TriangleColumns(sh) - 2) as real <= WidthRatio(sh) < (TriangleColumns(sh) - 1) as real
  {
  }

  /** `placement_wrt_t`: the step to the next row, pf * (0, sqrt3 / 2). */
  function TrianglePlacementT(pf: real): Point
  {
    Mul(pf, Point(0.0, 0.5))
  }

  /** `s if t % 2 else s - 0.5`: the column position; the rows with even t move half a step left. */
  function RowShift(t: int, s: int): real
  {
    if t % 2 != 0 then s as real else s as real - 0.5
  }

  /** `base_p` of the first triangle of cell (t, s). */
  function TriangleBase(pf: real, t: int, s: int): Point
  {
    Add(Mul(RowShift(t, s), PlacementS(pf)), Mul(t as real, TrianglePlacementT(pf)))
  }

  /**
   * The first triangle of cell (t, s) is centred at pf * (s - 1/2, t sqrt3 / 2)
   * on even rows and at pf * (s, t sqrt3 / 2) on odd rows: the even rows are
   * the shifted ones.
   */
  lemma TriangleBaseClosed(pf: real, t: int, s: int)
    ensures t % 2 == 0 ==> TriangleBase(pf, t, s) == Point(pf * (s as real - 0.5), pf * t as real / 2.0)
    ensures t % 2 == 1 ==> TriangleBase(pf, t, s) == Point(pf * s as real, pf * t as real / 2.0)
  {
  }

  /** `base_p + matrix_power(rot120, i) @ offset` for i in 0..2. */
  function TriangleVertices(base: Point, offset: Point): (v: Polygon)
    ensures |v| == 3
  {
    seq(3, i requires 0 <= i < 3 => Add(base, MatrixPower(OneTwenty, i, offset)))
  }

  /** The step `base_p += padding_factor * (0.5, 1/sqrt3 - sqrt3/2)`; 1/sqrt3 is sqrt3/3. */
  const DownShift: Point := Point(0.5, 1.0 / 3.0 - 0.5)

  /** The first ("up") triangle of cell (t, s). */
  function UpTriangle(pf: real, t: int, s: int): Polygon
  {
    TriangleVertices(TriangleBase(pf, t, s), UnitOffset)
  }

  /** The second ("down") triangle of cell (t, s): moved base, offset turned by 60 degrees. */
  function DownTriangle(pf: real, t: int, s: int): Polygon
  {
    TriangleVertices(Add(TriangleBase(pf, t, s), Mul(pf, DownShift)), RotMatrix(Sixty, UnitOffset))
  }

  /** The triangles of a list of cells: up then down for each cell, in the order of the cells. */
  function Triangles(pf: real, cells: seq<(int, int)>): (ts: seq<Polygon>)
    ensures |ts| == 2 * |cells|
  {
    if cells == [] then []
    else
      var c := cells[|cells| - 1];
      Triangles(pf, cells[..|cells| - 1]) + [UpTriangle(pf, c.0, c.1), DownTriangle(pf, c.0, c.1)]
  }

  /** One more cell adds its two triangles at the end. */
  lemma TrianglesSnoc(pf: real, cells: seq<(int, int)>, c: (int, int))
    ensures Triangles(pf, cells + [c]) == Triangles(pf, cells) + [UpTriangle(pf, c.0, c.1), DownTriangle(pf, c.0, c.1)]
  {
    assert (cells + [c])[..|cells|] == cells;
  }

  /** Position 2k holds the up triangle and 2k + 1 the down triangle of the k-th cell. */
  lemma {:induction false} TrianglesAt(pf: real, cells: seq<(int, int)>, k: int)
    requires 0 <= k < |cells|
    ensures Triangles(pf, cells)[2 * k] == UpTriangle(pf, cells[k].0, cells[k].1)
    ensures Triangles(pf, cells)[2 * k + 1] == DownTriangle(pf, cells[k].0, cells[k].1)
  {
    var n := |cells| - 1;
    if k < n {
      TrianglesAt(pf, cells[..n], k);
    }
  }

  /** The cells `Triangle.generate_units` visits: t outer over [0, rows), s inner over [0, columns). */
  function TriangleCells(sh: Shape): seq<(int, int)>
    requires Valid(sh)
  {
    Grid(0, TriangleRows(sh), TriangleColumns(sh))
  }

  /** What `Triangle.generate_units` yields. */
  function TriangleUnits(sh: Shape): seq<Polygon>
    requires Valid(sh)
  {
    Triangles(sh.paddingFactor, TriangleCells(sh))
  }

  /** Two triangles for each cell of a rows * columns lattice. */
  lemma TrianglesCount(pf: real, rows: nat, columns: nat)
    ensures |Triangles(pf, Grid(0, rows, columns))| == 2 * rows * columns
  {
    GridSize(0, rows, columns);
    assert 2 * (rows * columns) == 2 * rows * columns;
  }

  /** Count: two triangles for each of the rows * columns cells. */
  lemma TriangleCount(sh: Shape)
    requires Valid(sh)
    ensures |TriangleUnits(sh)| == 2 * TriangleRows(sh) * TriangleColumns(sh)
  {
    TrianglesCount(sh.paddingFactor, TriangleRows(sh), TriangleColumns(sh));
  }

  /** Order: triangles 2k and 2k + 1 are the up and down triangles of cell (k div columns, k mod columns). */
  lemma TriangleIndex(sh: Shape, k: int)
    requires Valid(sh) && 0 <= k < |TriangleCells(sh)|
    ensures k / TriangleColumns(sh) < TriangleRows(sh)
    ensures var t, s := k / TriangleColumns(sh), k % TriangleColumns(sh);
      TriangleUnits(sh)[2 * k] == UpTriangle(sh.paddingFactor, t, s) &&
      TriangleUnits(sh)[2 * k + 1] == DownTriangle(sh.paddingFactor, t, s)
  {
    GridIndex(0, TriangleRows(sh), TriangleColumns(sh), k);
    TrianglesAt(sh.paddingFactor, TriangleCells(sh), k);
  }

  /** Every triangle is equilateral with side 1: its vertices lie 1/sqrt3 from its centre. */
  lemma TriangleVertexDistance(base: Point, offset: Point, i: int)
    requires Norm(offset) == 1.0 / 3.0 && 0 <= i < 3
    ensures Norm(Sub(TriangleVertices(base, offset)[i], base)) == 1.0 / 3.0
  {
    SubAdd(base, MatrixPower(OneTwenty, i, offset));
    MatrixPowerNorm(OneTwenty, i, offset);
  }

  /**
   * Both triangles the loop draws for cell (t, s) are equilateral with side 1:
   * the offsets they turn, `offset` and `rot60 @ offset`, both have norm 1/3.
   */
  lemma DrawnTrianglesEquilateral(pf: real, t: int, s: int, i: int)
    requires 0 <= i < 3
    ensures Norm(UnitOffset) == 1.0 / 3.0 && Norm(RotMatrix(Sixty, UnitOffset)) == 1.0 / 3.0
    ensures Norm(Sub(UpTriangle(pf, t, s)[i], TriangleBase(pf, t, s))) == 1.0 / 3.0
    ensures var b := Add(TriangleBase(pf, t, s), Mul(pf, DownShift));
      Norm(Sub(DownTriangle(pf, t, s)[i], b)) == 1.0 / 3.0
  {
    RotMatrixNorm(Sixty, UnitOffset);
    TriangleVertexDistance(TriangleBase(pf, t, s), UnitOffset, i);
    TriangleVertexDistance(Add(TriangleBase(pf, t, s), Mul(pf, DownShift)), RotMatrix(Sixty, UnitOffset), i);
  }

  /** The vertex mean of a triangle is its base point: the three turned offsets cancel. */
  lemma TriangleCentroid(base: Point, offset: Point)
    ensures Mean(TriangleVertices(base, offset)) == base
  {
    var v := TriangleVertices(base, offset);
    Sum3(v);
    assert MatrixPower(OneTwenty, 2, offset) == RotMatrix(OneTwenty, RotMatrix(OneTwenty, offset));
  }

  /**
   * The down triangle is the up triangle turned half way round about the
   * midpoint between their centres: vertex i of the one is opposite vertex
   * (i + 2) mod 3 of the other.
   */
  lemma DownOppositeUp(pf: real, t: int, s: int, i: int)
    requires 0 <= i < 3
    ensures var b := TriangleBase(pf, t, s);
      Sub(DownTriangle(pf, t, s)[i], Add(b, Mul(pf, DownShift))) ==
      Mul(-1.0, Sub(UpTriangle(pf, t, s)[(i + 2) % 3], b))
  {
    var b := TriangleBase(pf, t, s);
    SubAdd(Add(b, Mul(pf, DownShift)), MatrixPower(OneTwenty, i, RotMatrix(Sixty, UnitOffset)));
    SubAdd(b, MatrixPower(OneTwenty, (i + 2) % 3, UnitOffset));
    assert MatrixPower(OneTwenty, 2, UnitOffset) == RotMatrix(OneTwenty, RotMatrix(OneTwenty, UnitOffset));
    assert MatrixPower(OneTwenty, 2, RotMatrix(Sixty, UnitOffset))
      == RotMatrix(OneTwenty, RotMatrix(OneTwenty, RotMatrix(Sixty, UnitOffset)));
  }

  /**
   * Without padding the two triangles of a cell share an edge: the down
   * triangle's first two vertices are the up triangle's first and last.
   */
  lemma TrianglesShareEdge(t: int, s: int)
    ensures DownTriangle(1.0, t, s)[0] == UpTriangle(1.0, t, s)[0]
    ensures DownTriangle(1.0, t, s)[1] == UpTriangle(1.0, t, s)[2]
  {
    assert MatrixPower(OneTwenty, 2, UnitOffset) == RotMatrix(OneTwenty, RotMatrix(OneTwenty, UnitOffset));
  }

  /** The two polygons one pass of the inner loop appends are the up and down triangles of its cell. */
  lemma TriangleCellStep(pf: real, cells: seq<(int, int)>, t: int, s: int)
    ensures var base := TriangleBase(pf, t, s);
      Triangles(pf, cells) + [TriangleVertices(base, UnitOffset)]
        + [TriangleVertices(Add(base, Mul(pf, DownShift)), RotMatrix(Sixty, UnitOffset))]
      == Triangles(pf, cells + [(t, s)])
  {
    TrianglesSnoc(pf, cells, (t, s));
  }

  /**
   * The nested loops of `Triangle.generate_units`: t outer, s inner; for each
   * cell the up triangle, then `base_p` moved and `offset` turned in place,
   * then the down triangle.
   */
  method TriangleLoop(pf: real, rows: nat, columns: nat) returns (polys: seq<Polygon>)
    ensures polys == Triangles(pf, Grid(0, rows, columns))
  {
    polys := [];
    ghost var cells: seq<(int, int)> := [];
    var t := 0;
    while t < rows
      invariant 0 <= t <= rows
      invariant cells == Grid(0, t, columns)
      invariant polys == Triangles(pf, cells)
      decreases rows - t
    {
      var s := 0;
      while s < columns
        invariant 0 <= s <= columns
        invariant cells == Grid(0, t, columns) + Row(t, s)
        invariant polys == Triangles(pf, cells)
        decreases columns - s
      {
        TriangleCellStep(pf, cells, t, s);
        RowSnoc(Grid(0, t, columns), t, s);
        var base := TriangleBase(pf, t, s);
        var offset := UnitOffset;
        polys := polys + [TriangleVertices(base, offset)];
        base := Add(base, Mul(pf, DownShift));
        offset := RotMatrix(Sixty, offset);
        polys := polys + [TriangleVertices(base, offset)];
        cells := cells + [(t, s)];
        s := s + 1;
      }
      GridSnoc(0, t, columns);
      t := t + 1;
    }
  }

  // ----- Shape -----

  /** What `generate_units` yields, for either kind of shape. */
  function GenerateUnits(sh: Shape): seq<Polygon>
    requires Valid(sh)
  {
    match sh.kind
    case Hexagon => HexagonUnits(sh)
    case Triangle => TriangleUnits(sh)
  }

  /** `generate_units`, run: the loops of the shape's kind over its bounds. */
  method GenerateUnitsLoop(sh: Shape) returns (polys: seq<Polygon>)
    requires Valid(sh)
    ensures polys == GenerateUnits(sh)
  {
    match sh.kind {
      case Hexagon =>
        polys := HexagonLoop(sh.paddingFactor, HexagonXStart(sh), HexagonXEnd(sh), HexagonYEnd(sh));
      case Triangle =>
        polys := TriangleLoop(sh.paddingFactor, TriangleRows(sh), TriangleColumns(sh));
    }
  }

  /** Every hexagon has six vertices and every triangle three. */
  lemma VertexCounts(sh: Shape, k: int)
    requires Valid(sh) && 0 <= k < |GenerateUnits(sh)|
    ensures |GenerateUnits(sh)[k]| == (if sh.kind == Hexagon then 6 else 3)
  {
    if sh.kind == Triangle {
      var cells := TriangleCells(sh);
      TrianglesAt(sh.paddingFactor, cells, k / 2);
      assert k == 2 * (k / 2) || k == 2 * (k / 2) + 1;
    }
  }

  /** `[(x * scale, y * scale) for x, y in vertices]` for every polygon. */
  function Scaled(polys: seq<Polygon>, k: real): (r: seq<Polygon>)
    ensures |r| == |polys|
    ensures forall j :: 0 <= j < |r| ==> |r[j]| == |polys[j]|
  {
    seq(|polys|, j requires 0 <= j < |polys| =>
      seq(|polys[j]|, i requires 0 <= i < |polys[j]| => Mul(k, polys[j][i])))
  }

  /** `Shape.__call__`: the unit polygons in order, every coordinate multiplied by `scale`. */
  function Call(sh: Shape): seq<Polygon>
    requires Valid(sh)
  {
    Scaled(GenerateUnits(sh), sh.scale)
  }

  /** Scaling twice is scaling by the product. */
  lemma ScaledTwice(polys: seq<Polygon>, j: real, k: real)
    ensures Scaled(Scaled(polys, k), j) == Scaled(polys, j * k)
  {
    var l, r := Scaled(Scaled(polys, k), j), Scaled(polys, j * k);
    forall a | 0 <= a < |polys|
      ensures l[a] == r[a]
    {
      forall i | 0 <= i < |polys[a]|
        ensures l[a][i] == r[a][i]
      {
        MulMul(j, k, polys[a][i]);
      }
    }
  }

  /** Scaling by k and then by 1/k gives the unit polygons back. */
  lemma ScaledInverse(polys: seq<Polygon>, k: real)
    requires k != 0.0
    ensures Scaled(Scaled(polys, k), 1.0 / k) == polys
  {
    var j := 1.0 / k;
    assert j * k == 1.0;
    ScaledTwice(polys, j, k);
    var r := Scaled(polys, j * k);
    forall a | 0 <= a < |polys|
      ensures r[a] == polys[a]
    {
      forall i | 0 <= i < |polys[a]|
        ensures r[a][i] == polys[a][i]
      {
        assert 1.0 * polys[a][i].x == polys[a][i].x && 1.0 * polys[a][i].ys == polys[a][i].ys;
      }
    }
  }

  /** The centre of a drawn polygon is `scale` times the centre of its unit polygon. */
  lemma ScaledCentroid(polys: seq<Polygon>, k: real, a: int)
    requires 0 <= a < |polys| && polys[a] != []
    ensures Mean(Scaled(polys, k)[a]) == Mul(k, Mean(polys[a]))
  {
    MeanMul(k, polys[a]);
    assert Scaled(polys, k)[a] == seq(|polys[a]|, i requires 0 <= i < |polys[a]| => Mul(k, polys[a][i]));
  }

  /**
   * The drawn hexagons: as many as the lattice has cells, the k-th centred at
   * `scale` times the centre of its lattice cell.
   */
  lemma CallHexagonCentres(sh: Shape, k: int)
    requires Valid(sh) && sh.kind == Hexagon && 0 <= k < |Call(sh)|
    ensures |Call(sh)| == |HexagonCells(sh)|
    ensures var c := HexagonCells(sh)[k];
      Mean(Call(sh)[k]) == Mul(sh.scale, HexagonBase(sh.paddingFactor, c.0, c.1))
  {
    var c := HexagonCells(sh)[k];
    HexagonCentroid(sh.paddingFactor, c.0, c.1);
    ScaledCentroid(GenerateUnits(sh), sh.scale, k);
  }
}
