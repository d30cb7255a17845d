/**
 * The first version of the program, a single script: a fixed grid of
 * 57 x 11 hexagons, each built vertex by vertex by turning an offset, and
 * each coloured from one uniform random draw.
 */
module LegacyMain {
  import opened Geometry
  import opened Lattice
  import opened Shapes
  import opened Outcomes
  import opened Text
  // The script's `get_color` has the same body as the package's, so it is `CoverImage.GetColor`.
  import opened CoverImage

  const Scale: real := 10.0
  const PaddingFactor: real := 1.1

  /** `placement_wrt_s`: the step between neighbouring hexagons of a row, (2 scale pf, 0). */
  const PlacementWrtS: Point := Point(2.0 * Scale * PaddingFactor, 0.0)

  /** `offset` before the loop: (scale, scale / sqrt3), and scale / sqrt3 is (scale / 3) sqrt3. */
  const FirstOffset: Point := Point(Scale, Scale / 3.0)

  /** `base_point` of hexagon (s, t). */
  function BasePoint(s: int, t: int): Point
  {
    Add(Mul(s as real, PlacementWrtS), Mul(t as real, RotMatrix(Sixty, PlacementWrtS)))
  }

  /** The six vertices of hexagon (s, t): the base point plus the offset turned i times. */
  function HexagonVertices(s: int, t: int): (vs: seq<Point>)
    ensures |vs| == 6
  {
    seq(6, i requires 0 <= i < 6 => Add(BasePoint(s, t), MatrixPower(Sixty, i, FirstOffset)))
  }

  /**
   * `get_hexagon(s, t)`: the six vertices collected by adding the offset to
   * the base point and turning the offset a further 60 degrees each time,
   * written out as the points text.
   */
  method GetHexagon(s: int, t: int, fmt: Format) returns (points: string)
    ensures points == PointsText(HexagonVertices(s, t), fmt)
  {
    var placementWrtS := PlacementWrtS;
    var placementWrtT := RotMatrix(Sixty, placementWrtS);
    var basePoint := Add(Mul(s as real, placementWrtS), Mul(t as real, placementWrtT));
    var offset := FirstOffset;
    var vertices: seq<Point> := [];
    var i := 0;
    while i < 6
      invariant 0 <= i <= 6
      invariant vertices == HexagonVertices(s, t)[..i]
      invariant offset == MatrixPower(Sixty, i, FirstOffset)
    {
      vertices := vertices + [Add(basePoint, offset)];
      offset := RotMatrix(Sixty, offset);
      i := i + 1;
    }
    assert vertices == HexagonVertices(s, t);
    points := PointsText(vertices, fmt);
  }

  /** The offset is the first vertex of the unit hexagon at tile size 2 scale. */
  lemma FirstOffsetScaled()
    ensures FirstOffset == Mul(2.0 * Scale, UnitOffset)
    ensures PlacementWrtS == Mul(2.0 * Scale, PlacementS(PaddingFactor))
  {
  }

  /** The base point is the centre of cell (s, t) of the tiling at tile size 2 scale. */
  lemma BasePointScaled(s: int, t: int)
    ensures BasePoint(s, t) == Mul(2.0 * Scale, HexagonBase(PaddingFactor, s, t))
  {
    var k, ps := 2.0 * Scale, PlacementS(PaddingFactor);
    FirstOffsetScaled();
    RotMatrixMul(Sixty, k, ps);
    MulAdd(k, Mul(s as real, ps), Mul(t as real, RotMatrix(Sixty, ps)));
    MulMul(k, s as real, ps);
    MulMul(k, t as real, RotMatrix(Sixty, ps));
  }

  /**
   * `get_hexagon(s, t)` draws hexagon (s, t) of the `Hexagon` tiling with the
   * same padding and tile size 2 scale: vertex for vertex, the unit hexagon
   * scaled by 2 scale.
   */
  lemma HexagonVerticesScaled(s: int, t: int)
    ensures HexagonVertices(s, t) == Scaled([HexagonUnit(PaddingFactor, s, t)], 2.0 * Scale)[0]
  {
    var k := 2.0 * Scale;
    var unit := HexagonUnit(PaddingFactor, s, t);
    var scaled := Scaled([unit], k)[0];
    forall i | 0 <= i < 6
      ensures HexagonVertices(s, t)[i] == scaled[i]
    {
      BasePointScaled(s, t);
      FirstOffsetScaled();
      MatrixPowerMul(Sixty, i, k, UnitOffset);
      MulAdd(k, HexagonBase(PaddingFactor, s, t), MatrixPower(Sixty, i, UnitOffset));
    }
  }

  /**
   * Where cell (s, t) lies inside a `Hexagon` shape of tile size 2 scale with
   * the same padding, that shape draws exactly the vertices of `get_hexagon(s, t)`.
   */
  lemma GetHexagonInShape(sh: Shape, s: int, t: int)
    requires Valid(sh) && sh.kind == Hexagon && sh.scale == 2.0 * Scale && sh.paddingFactor == PaddingFactor
    requires HexagonXStart(sh) <= s < HexagonXEnd(sh) && 0 <= t < HexagonYEnd(sh)
    ensures var k := (s - HexagonXStart(sh)) * HexagonYEnd(sh) + t;
      0 <= k < |Call(sh)| && Call(sh)[k] == HexagonVertices(s, t)
  {
    HexagonPosition(sh, s, t);
    HexagonVerticesScaled(s, t);
  }

  /** The element `main` adds for cell (s, t) with its colour. */
  function CellElement(c: (int, int), fmt: Format, color: Rgb): Element
  {
    Element(PointsText(HexagonVertices(c.0, c.1), fmt), color)
  }

  /** The first m draws are all valid colour values. */
  predicate ValidDraws(m: nat, draw: nat -> real)
  {
    forall k :: 0 <= k < m ==> 0.0 <= draw(k) <= 1.0
  }

  /** The elements for a run of cells, the k-th cell coloured from the k-th draw. */
  function CellElements(cells: seq<(int, int)>, fmt: Format, cmap: Colormap, draw: nat -> real): (es: seq<Element>)
    ensures |es| == |cells|
  {
    seq(|cells|, k requires 0 <= k < |cells| => CellElement(cells[k], fmt, cmap(draw(k))))
  }

  /**
   * What `main` draws for a run of cells: every cell's element, or the error
   * of `get_color` when one of the draws is outside [0, 1] (the script stops
   * before anything is written).
   */
  function GridElements(cells: seq<(int, int)>, fmt: Format, cmap: Colormap, draw: nat -> real): (r: Result<seq<Element>>)
    ensures r.Ok? <==> ValidDraws(|cells|, draw)
    ensures r.Err? ==> r.error == ColorOutOfRange
  {
    if ValidDraws(|cells|, draw) then Ok(CellElements(cells, fmt, cmap, draw)) else Err(ColorOutOfRange)
  }

  /** One more cell adds its element, coloured from the next draw, at the end. */
  lemma CellElementsSnoc(cells: seq<(int, int)>, c: (int, int), fmt: Format, cmap: Colormap, draw: nat -> real)
    ensures CellElements(cells + [c], fmt, cmap, draw)
      == CellElements(cells, fmt, cmap, draw) + [CellElement(c, fmt, cmap(draw(|cells|)))]
  {
  }

  /** The cells `main` visits: s outer over [-5, 52), t inner over [0, 11). */
  function MainCells(): seq<(int, int)>
  {
    Grid(-5, 52, 11)
  }

  /** A draw outside [0, 1] at the position of cell (s, t) makes the whole grid fail. */
  lemma GridFails(lo: int, hi: int, n: nat, s: int, t: int, fmt: Format, cmap: Colormap, draw: nat -> real)
    requires lo <= s < hi && 0 <= t < n
    requires !(0.0 <= draw(|Grid(lo, s, n)| + t) <= 1.0)
    ensures GridElements(Grid(lo, hi, n), fmt, cmap, draw) == Err(ColorOutOfRange)
  {
    GridSize(lo, s, n);
    GridAt(lo, hi, n, s, t);
  }

  /** One more valid draw extends the valid prefix. */
  lemma ValidDrawsSnoc(m: nat, draw: nat -> real)
    requires ValidDraws(m, draw) && 0.0 <= draw(m) <= 1.0
    ensures ValidDraws(m + 1, draw)
  {
  }

  /**
   * The nested loops of `main` over s in [lo, hi) and t in [0, n): a
   * `get_hexagon` and a `get_color` of the next draw per cell; a draw
   * outside [0, 1] stops the script.
   */
  method GridLoop(lo: int, hi: int, n: nat, fmt: Format, cmap: Colormap, draw: nat -> real) returns (r: Result<seq<Element>>)
    ensures r == GridElements(Grid(lo, hi, n), fmt, cmap, draw)
  {
    var elements: seq<Element> := [];
    ghost var cells: seq<(int, int)> := [];
    var s := lo;
    while s < hi
      invariant s == lo || lo < s <= hi
      invariant cells == Grid(lo, s, n)
      invariant |elements| == |cells| && ValidDraws(|cells|, draw)
      invariant elements == CellElements(cells, fmt, cmap, draw)
      decreases hi - s
    {
      var t := 0;
      while t < n
        invariant 0 <= t <= n && cells == Grid(lo, s, n) + Row(s, t)
        invariant |elements| == |cells| && ValidDraws(|cells|, draw)
        invariant elements == CellElements(cells, fmt, cmap, draw)
        decreases n - t
      {
        var points := GetHexagon(s, t, fmt);
        var color := GetColor(draw(|elements|), cmap);
        if color.Err? {
          GridFails(lo, hi, n, s, t, fmt, cmap, draw);
          return Err(color.error);
        }
        CellElementsSnoc(cells, (s, t), fmt, cmap, draw);
        ValidDrawsSnoc(|cells|, draw);
        RowSnoc(Grid(lo, s, n), s, t);
        elements := elements + [Element(points, color.value)];
        cells := cells + [(s, t)];
        t := t + 1;
      }
      GridSnoc(lo, s, n);
      s := s + 1;
    }
    r := Ok(elements);
  }

  /** `main`'s grid: s from -5 to 51, t from 0 to 10. */
  method DrawGrid(fmt: Format, cmap: Colormap, draw: nat -> real) returns (r: Result<seq<Element>>)
    ensures r == GridElements(MainCells(), fmt, cmap, draw)
  {
    r := GridLoop(-5, 52, 11, fmt, cmap, draw);
  }

  /**
   * With the draws of `np.random.rand`, all in [0, 1), the script draws
   * 57 * 11 = 627 hexagons: the k-th is hexagon (-5 + k div 11, k mod 11),
   * coloured from the k-th draw.
   */
  lemma MainGrid(fmt: Format, cmap: Colormap, draw: nat -> real)
    requires forall i: nat :: 0.0 <= draw(i) < 1.0
    ensures var r := GridElements(MainCells(), fmt, cmap, draw);
      r.Ok? && |r.value| == 627 &&
      forall k :: 0 <= k < 627 ==>
        r.value[k] == Element(PointsText(HexagonVertices(-5 + k / 11, k % 11), fmt), cmap(draw(k)))
  {
    GridSize(-5, 52, 11);
    forall k | 0 <= k < 627
      ensures MainCells()[k] == (-5 + k / 11, k % 11)
    {
      GridIndex(-5, 52, 11, k);
    }
  }
}
