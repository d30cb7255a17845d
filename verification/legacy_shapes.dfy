/**
 * The older version of the tilings, kept at the top of the repository.  Its
 * `Triangle` is the same code as the current one; its `Hexagon` keeps the
 * row and column ratios as floats and truncates them only in the `range`
 * calls, which changes where the columns start.
 */
module LegacyShapes {
  import opened Numbers
  import opened Geometry
  import opened Lattice
  import opened Shapes

  /** `-int(x_start)` with `x_start = y_end / 2`, the float height ratio halved. */
  function LegacyHexagonXStart(sh: Shape): int
    requires Valid(sh)
  {
    -(TruncRoot3(HeightRatio(sh) / 2.0) as int)
  }

  /** `1 + int(y_end)`: the end of the row range. */
  function LegacyHexagonYEnd(sh: Shape): nat
    requires Valid(sh)
  {
    1 + TruncRoot3(HeightRatio(sh))
  }

  /** `1 + int(x_end)`: the end of the column range. */
  function LegacyHexagonXEnd(sh: Shape): int
    requires Valid(sh)
  {
    1 + Trunc(WidthRatio(sh))
  }

  /** What the older `Hexagon.generate_units` yields: the same hexagons over its own ranges. */
  function LegacyHexagonUnits(sh: Shape): seq<Polygon>
    requires Valid(sh)
  {
    Hexagons(sh.paddingFactor, Grid(LegacyHexagonXStart(sh), LegacyHexagonXEnd(sh), LegacyHexagonYEnd(sh)))
  }

  /** What the older `generate_units` yields, for either kind of shape. */
  function LegacyGenerateUnits(sh: Shape): seq<Polygon>
    requires Valid(sh)
  {
    match sh.kind
    case Hexagon => LegacyHexagonUnits(sh)
    case Triangle => TriangleUnits(sh)
  }

  /** The older `generate_units`, run: the same loops as the current one over the older bounds. */
  method LegacyGenerateUnitsLoop(sh: Shape) returns (polys: seq<Polygon>)
    requires Valid(sh)
    ensures polys == LegacyGenerateUnits(sh)
  {
    match sh.kind {
      case Hexagon =>
        polys := HexagonLoop(sh.paddingFactor, LegacyHexagonXStart(sh), LegacyHexagonXEnd(sh), LegacyHexagonYEnd(sh));
      case Triangle =>
        polys := TriangleLoop(sh.paddingFactor, TriangleRows(sh), TriangleColumns(sh));
    }
  }

  /** The older `Shape.__call__`: every coordinate multiplied by `scale`. */
  function LegacyCall(sh: Shape): seq<Polygon>
    requires Valid(sh)
  {
    Scaled(LegacyGenerateUnits(sh), sh.scale)
  }

  /**
   * Count: the older ranges give (1 + int(W) + int(Y/2)) * (1 + int(Y))
   * hexagons, with W the width ratio and Y the height ratio.
   */
  lemma LegacyHexagonCount(sh: Shape)
    requires Valid(sh)
    ensures LegacyHexagonXStart(sh) <= 0 < LegacyHexagonXEnd(sh)
    ensures |LegacyHexagonUnits(sh)|
      == (1 + Trunc(WidthRatio(sh)) + TruncRoot3(HeightRatio(sh) / 2.0)) * (1 + TruncRoot3(HeightRatio(sh)))
  {
    var a, e, n := LegacyHexagonXStart(sh), LegacyHexagonXEnd(sh), LegacyHexagonYEnd(sh);
    GridSize(a, e, n);
    assert e - a == 1 + Trunc(WidthRatio(sh)) + TruncRoot3(HeightRatio(sh) / 2.0);
  }

  /**
   * The older column start -floor(Y/2) lies at most one column right of the
   * current one, -floor((1 + floor Y)/2), where Y = q sqrt3 is the height ratio.
   */
  lemma LegacyStartBounds(sh: Shape)
    requires Valid(sh)
    ensures HexagonXStart(sh) <= LegacyHexagonXStart(sh) <= HexagonXStart(sh) + 1
  {
    HexagonBounds(sh);
    TruncRoot3Half(HeightRatio(sh));
  }

  /** Starting the columns later drops the first columns' hexagons and nothing else. */
  lemma LaterStart(pf: real, b: int, a: int, e: int, n: nat)
    requires b <= a <= e
    ensures var cur, leg := Hexagons(pf, Grid(b, e, n)), Hexagons(pf, Grid(a, e, n));
      |cur| - |leg| == (a - b) * n && leg == cur[|cur| - |leg|..]
  {
    GridSplit(b, a, e, n);
    HexagonsAppend(pf, Grid(b, a, n), Grid(a, e, n));
    GridSize(b, a, n);
  }

  /**
   * Compared with the current `Hexagon`, the older one visits the same rows and
   * ends at the same column but may start one column later: its hexagons are
   * the current list with the first (legacy start - current start) columns
   * dropped.
   */
  lemma LegacyHexagonSuffix(sh: Shape)
    requires Valid(sh)
    ensures var cur, leg := HexagonUnits(sh), LegacyHexagonUnits(sh);
      |leg| <= |cur| && |cur| - |leg| == (LegacyHexagonXStart(sh) - HexagonXStart(sh)) * HexagonYEnd(sh) &&
      leg == cur[|cur| - |leg|..]
  {
    LegacyStartBounds(sh);
    var b, a, e, n := HexagonXStart(sh), LegacyHexagonXStart(sh), HexagonXEnd(sh), HexagonYEnd(sh);
    assert LegacyHexagonXEnd(sh) == e && LegacyHexagonYEnd(sh) == n;
    LaterStart(sh.paddingFactor, b, a, e, n);
  }

  /**
   * The older tilings yield a suffix of the current ones: the hexagons lose
   * their first columns, and the two `Triangle`s agree.
   */
  lemma LegacyIsSuffix(sh: Shape)
    requires Valid(sh)
    ensures var cur, leg := GenerateUnits(sh), LegacyGenerateUnits(sh);
      |leg| <= |cur| && leg == cur[|cur| - |leg|..]
    ensures sh.kind == Triangle ==> LegacyGenerateUnits(sh) == GenerateUnits(sh)
  {
    if sh.kind == Hexagon {
      LegacyHexagonSuffix(sh);
      assert GenerateUnits(sh) == HexagonUnits(sh) && LegacyGenerateUnits(sh) == LegacyHexagonUnits(sh);
    }
  }

  /** Scaling a suffix of the polygons is the same suffix of the scaled polygons. */
  lemma ScaledSuffix(polys: seq<Polygon>, k: real, m: int)
    requires 0 <= m <= |polys|
    ensures Scaled(polys[m..], k) == Scaled(polys, k)[m..]
  {
  }

  /**
   * The older `__call__` draws a suffix of what the current one draws: the
   * same scaled polygons with the first columns of hexagons dropped.
   */
  lemma LegacyCallIsSuffix(sh: Shape)
    requires Valid(sh)
    ensures var cur, leg := Call(sh), LegacyCall(sh);
      |leg| <= |cur| && leg == cur[|cur| - |leg|..]
  {
    var cur, leg := GenerateUnits(sh), LegacyGenerateUnits(sh);
    LegacyIsSuffix(sh);
    ScaledSuffix(cur, sh.scale, |cur| - |leg|);
  }
}
