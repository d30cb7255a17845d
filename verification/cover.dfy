/**
 * The command of the cover-image package: pick a shape and a pattern by name,
 * tile the canvas, sample the pattern at every tile's centre, colour each
 * tile from its pattern value and emit one SVG polygon per tile.
 *
 * Writing the SVG and PNG files is not modelled; the result is the list of
 * polygon elements in drawing order.  The colormap, the random draws, the
 * Gaussian-process sample and float formatting are parameters.
 */
module CoverImage {
  import opened Numbers
  import opened Geometry
  import opened Lattice
  import opened Shapes
  import opened Outcomes
  import opened Patterns
  import opened Text

  // ----- Names -----

  /** The pattern generators the command offers. */
  datatype PatternKind = GaussianProcess | Random

  /** `_name_to_shape`: each shape class under its class name. */
  function ShapeName(k: Kind): string
  {
    match k
    case Hexagon => "Hexagon"
    case Triangle => "Triangle"
  }

  /** `_name_to_pattern`: each generator under its option name. */
  function PatternName(p: PatternKind): string
  {
    match p
    case GaussianProcess => "gaussian_process"
    case Random => "random"
  }

  /** Case folding of ASCII letters, as a case-insensitive choice compares names. */
  function Fold(s: string): (f: string)
    ensures |f| == |s|
    ensures forall i :: 0 <= i < |s| ==> (if 'A' <= s[i] <= 'Z' then f[i] as int == s[i] as int + 32 else f[i] == s[i])
  {
    seq(|s|, i requires 0 <= i < |s| => if 'A' <= s[i] <= 'Z' then (s[i] as int + 32) as char else s[i])
  }

  /** Folding twice is folding once. */
  lemma FoldIdempotent(s: string)
    ensures Fold(Fold(s)) == Fold(s)
  {
  }

  /**
   * The `--shape` option and the lookup `_name_to_shape[shape]`: a name
   * selects the shape whose class name it matches up to case, and any other
   * name is refused.
   */
  function ChooseShape(name: string): (r: Result<Kind>)
    ensures forall k: Kind :: r == Ok(k) <==> Fold(name) == Fold(ShapeName(k))
    ensures r.Err? ==> r.error == UnknownShape
  {
    assert Fold(ShapeName(Hexagon)) == "hexagon";
    assert Fold(ShapeName(Triangle)) == "triangle";
    if Fold(name) == "hexagon" then Ok(Hexagon)
    else if Fold(name) == "triangle" then Ok(Triangle)
    else Err(UnknownShape)
  }

  /**
   * The `--pattern` option and the lookup `_name_to_pattern[pattern]`: a name
   * selects the generator it matches up to case, and any other name is refused.
   */
  function ChoosePattern(name: string): (r: Result<PatternKind>)
    ensures forall p: PatternKind :: r == Ok(p) <==> Fold(name) == Fold(PatternName(p))
    ensures r.Err? ==> r.error == UnknownPattern
  {
    assert Fold(PatternName(GaussianProcess)) == "gaussian_process";
    assert Fold(PatternName(Random)) == "random";
    if Fold(name) == "gaussian_process" then Ok(GaussianProcess)
    else if Fold(name) == "random" then Ok(Random)
    else Err(UnknownPattern)
  }

  /** Every shape and every pattern can be chosen by its own name, in any case. */
  lemma ChooseByName(k: Kind, p: PatternKind, name: string, other: string)
    requires Fold(name) == Fold(ShapeName(k)) && Fold(other) == Fold(PatternName(p))
    ensures ChooseShape(name) == Ok(k) && ChoosePattern(other) == Ok(p)
  {
  }

  // ----- Defaults -----

  const DefaultShape: string := "Hexagon"
  const DefaultPattern: string := "gaussian_process"
  const DefaultScale: real := 10.0
  const DefaultPaddingFactor: real := 1.1
  const DefaultWidth: int := 1128
  const DefaultHeight: int := 191

  /** The default canvas tiled with default hexagons. */
  function DefaultShapeValue(): (sh: Shape)
    ensures Valid(sh)
  {
    Shape(Hexagon, DefaultScale, DefaultPaddingFactor, DefaultWidth, DefaultHeight)
  }

  /**
   * The default command draws 113 columns (s from -10 to 102) of 21 rows
   * (t from 0 to 20): 2373 hexagons.
   */
  lemma DefaultHexagons()
    ensures var sh := DefaultShapeValue();
      HexagonXStart(sh) == -10 && HexagonXEnd(sh) == 103 && HexagonYEnd(sh) == 21
      && |Call(sh)| == 2373
  {
    var sh := DefaultShapeValue();
    var q := HeightRatio(sh);
    assert q == 382.0 / 33.0;
    var n := TruncRoot3(q);
    var r := 3.0 * q * q;
    assert 400.0 <= r < 441.0;
    RootsBelow(n, 21, r);
    RootsBelow(20, n + 1, r);
    assert WidthRatio(sh) == 1128.0 / 11.0;
    HexagonBounds(sh);
    HexagonCount(sh);
  }

  // ----- Colours -----

  /** An `rgb(r, g, b)` fill: the first three bytes of a colormap entry. */
  datatype Rgb = Rgb(red: int, green: int, blue: int)

  /** The `viridis` colormap read as bytes: not modelled, a parameter. */
  type Colormap = real -> Rgb

  /** `get_color`: the colormap's colour for a value in [0, 1], and an error for any other value. */
  function GetColor(x: real, cmap: Colormap): (c: Result<Rgb>)
    ensures c.Ok? <==> 0.0 <= x <= 1.0
    ensures c.Ok? ==> c.value == cmap(x)
    ensures c.Err? ==> c.error == ColorOutOfRange
  {
    if 0.0 <= x <= 1.0 then Ok(cmap(x)) else Err(ColorOutOfRange)
  }

  /**
   * `[get_color(v) for v in values]`: one colour per value, in order, or the
   * error of the first value outside [0, 1].
   */
  function Colors(values: seq<real>, cmap: Colormap): (r: Result<seq<Rgb>>)
    ensures r.Ok? <==> forall i :: 0 <= i < |values| ==> 0.0 <= values[i] <= 1.0
    ensures r.Ok? ==> |r.value| == |values| && forall i :: 0 <= i < |values| ==> r.value[i] == cmap(values[i])
    ensures r.Err? ==> r.error == ColorOutOfRange
  {
    if values == [] then Ok([])
    else
      var n := |values| - 1;
      match Colors(values[..n], cmap)
      case Err(e) => Err(e)
      case Ok(cs) =>
        match GetColor(values[n], cmap)
        case Err(e) => Err(e)
        case Ok(c) => Ok(cs + [c])
  }

  /** `get_color` on a float as numpy leaves it: NaN fails the range test like any value outside [0, 1]. */
  function GetColorAsWritten(f: Float, cmap: Colormap): (c: Result<Rgb>)
    ensures c.Ok? <==> f.Num? && 0.0 <= f.v <= 1.0
    ensures c.Ok? ==> c.value == cmap(f.v)
    ensures c.Err? ==> c.error == ColorOutOfRange
  {
    match f
    case NaN => Err(ColorOutOfRange)
    case Num(x) => GetColor(x, cmap)
  }

  /** `[get_color(v) for v in values]` over floats that may be NaN. */
  function ColorsAsWritten(fs: seq<Float>, cmap: Colormap): (r: Result<seq<Rgb>>)
    ensures r.Ok? <==> forall i :: 0 <= i < |fs| ==> fs[i].Num? && 0.0 <= fs[i].v <= 1.0
    ensures r.Ok? ==> |r.value| == |fs| && forall i :: 0 <= i < |fs| ==> r.value[i] == cmap(fs[i].v)
    ensures r.Err? ==> r.error == ColorOutOfRange
  {
    if fs == [] then Ok([])
    else
      var n := |fs| - 1;
      match ColorsAsWritten(fs[..n], cmap)
      case Err(e) => Err(e)
      case Ok(cs) =>
        match GetColorAsWritten(fs[n], cmap)
        case Err(e) => Err(e)
        case Ok(c) => Ok(cs + [c])
  }

  /** On numbers, the colours of the floats are the colours of the values, failure included. */
  lemma {:induction false} ColorsAgree(values: seq<real>, cmap: Colormap)
    ensures ColorsAsWritten(seq(|values|, i requires 0 <= i < |values| => Num(values[i])), cmap) == Colors(values, cmap)
  {
    var fs := seq(|values|, i requires 0 <= i < |values| => Num(values[i]));
    if values != [] {
      var n := |values| - 1;
      ColorsAgree(values[..n], cmap);
      assert fs[..n] == seq(n, i requires 0 <= i < n => Num(values[..n][i]));
    }
  }

  // ----- Sample points and pairing -----

  /** `np.mean(s, axis=0)` for every polygon: the points the pattern is sampled at. */
  function Centroids(polys: seq<Polygon>): (c: seq<Point>)
    requires forall k :: 0 <= k < |polys| ==> polys[k] != []
    ensures |c| == |polys|
  {
    seq(|polys|, k requires 0 <= k < |polys| => Mean(polys[k]))
  }

  /** Python's `zip`: pairs in order, as many as the shorter list has. */
  function Zip<A, B>(xs: seq<A>, ys: seq<B>): (zs: seq<(A, B)>)
    ensures |zs| == if |xs| <= |ys| then |xs| else |ys|
    ensures forall i :: 0 <= i < |zs| ==> zs[i] == (xs[i], ys[i])
  {
    if xs == [] || ys == [] then []
    else [(xs[0], ys[0])] + Zip(xs[1..], ys[1..])
  }

  /** The polygon elements `_main` adds to the SVG tree. */
  datatype Element = Element(points: string, fill: Rgb)

  /** One element per pair of a polygon and a colour, in order. */
  function Elements(polys: seq<Polygon>, colors: seq<Rgb>, fmt: Format): (es: seq<Element>)
    ensures |es| == if |polys| <= |colors| then |polys| else |colors|
    ensures forall i :: 0 <= i < |es| ==> es[i] == Element(PointsText(polys[i], fmt), colors[i])
  {
    var pairs := Zip(polys, colors);
    seq(|pairs|, i requires 0 <= i < |pairs| => Element(PointsText(pairs[i].0, fmt), pairs[i].1))
  }

  // ----- The pipeline -----

  /** Every polygon a shape draws has vertices: six for a hexagon, three for a triangle. */
  lemma CallPolygons(sh: Shape)
    requires Valid(sh)
    ensures |Call(sh)| == |GenerateUnits(sh)|
    ensures forall k :: 0 <= k < |Call(sh)| ==> |Call(sh)[k]| == (if sh.kind == Hexagon then 6 else 3)
  {
    forall k | 0 <= k < |Call(sh)|
      ensures |Call(sh)[k]| == (if sh.kind == Hexagon then 6 else 3)
    {
      VertexCounts(sh, k);
    }
  }

  /**
   * A tiling is never empty: at least one column of at least one row of
   * hexagons, or at least two by two cells of triangles.
   */
  lemma CallNonEmpty(sh: Shape)
    requires Valid(sh)
    ensures |Call(sh)| >= 1
  {
    if sh.kind == Hexagon {
      HexagonBounds(sh);
      HexagonCount(sh);
      assert HexagonXEnd(sh) - HexagonXStart(sh) >= 1;
    } else {
      TriangleCount(sh);
    }
  }

  /** The centre of every tile, in drawing order. */
  function SamplePoints(sh: Shape): (ps: seq<Point>)
    requires Valid(sh)
    ensures |ps| == |Call(sh)|
  {
    CallPolygons(sh);
    Centroids(Call(sh))
  }

  /**
   * The sample points are the tile centres scaled by `scale`: for hexagons
   * the centre of the hexagon's cell; for triangles the base point of the up
   * triangle and the moved base point of the down triangle.
   */
  lemma SamplePointsAreCentres(sh: Shape, k: int)
    requires Valid(sh) && 0 <= k < |Call(sh)|
    ensures sh.kind == Hexagon ==> var c := HexagonCells(sh)[k];
      SamplePoints(sh)[k] == Mul(sh.scale, HexagonBase(sh.paddingFactor, c.0, c.1))
    ensures sh.kind == Triangle ==> var c := TriangleCells(sh)[k / 2];
      var b := TriangleBase(sh.paddingFactor, c.0, c.1);
      SamplePoints(sh)[k] == Mul(sh.scale, if k % 2 == 0 then b else Add(b, Mul(sh.paddingFactor, DownShift)))
  {
    CallPolygons(sh);
    if sh.kind == Hexagon {
      CallHexagonCentres(sh, k);
    } else {
      var pf := sh.paddingFactor;
      var j := k / 2;
      var c := TriangleCells(sh)[j];
      var b := TriangleBase(pf, c.0, c.1);
      TrianglesAt(pf, TriangleCells(sh), j);
      ScaledCentroid(GenerateUnits(sh), sh.scale, k);
      if k % 2 == 0 {
        assert k == 2 * j;
        TriangleCentroid(b, UnitOffset);
      } else {
        assert k == 2 * j + 1;
        TriangleCentroid(Add(b, Mul(pf, DownShift)), RotMatrix(Sixty, UnitOffset));
      }
    }
  }

  /**
   * `pattern(sample_points)`: `draw(i)` is the i-th number `np.random.rand`
   * returns, `gp(points)` the Gaussian-process sample at the points.
   */
  function Pattern(kind: PatternKind, points: seq<Point>, draw: nat -> real, gp: seq<Point> -> seq<real>): (r: Result<seq<real>>)
    ensures kind == Random ==> r.Ok? && |r.value| == |points|
    ensures kind == GaussianProcess ==> r == GaussianProcessPattern(gp(points))
  {
    match kind
    case Random => Ok(RandomPattern(points, draw))
    case GaussianProcess => GaussianProcessPattern(gp(points))
  }

  /**
   * `_main` up to writing the files: the polygons of the shape, the pattern
   * sampled at their centres, a colour per pattern value, and one element per
   * polygon and colour, in drawing order.
   */
  function Render(sh: Shape, kind: PatternKind, draw: nat -> real, gp: seq<Point> -> seq<real>, cmap: Colormap, fmt: Format): (r: Result<seq<Element>>)
    requires Valid(sh)
    ensures r.Ok? ==> |r.value| <= |Call(sh)|
    ensures r.Ok? ==> forall k :: 0 <= k < |r.value| ==> r.value[k].points == PointsText(Call(sh)[k], fmt)
  {
    match Pattern(kind, SamplePoints(sh), draw, gp)
    case Err(e) => Err(e)
    case Ok(values) =>
      match Colors(values, cmap)
      case Err(e) => Err(e)
      case Ok(colors) => Ok(Elements(Call(sh), colors, fmt))
  }

  /**
   * With the random pattern every tile is drawn: the draws of `np.random.rand`
   * lie in [0, 1), so no colour is refused, and tile k gets the colour of draw k.
   */
  lemma RenderRandom(sh: Shape, draw: nat -> real, gp: seq<Point> -> seq<real>, cmap: Colormap, fmt: Format)
    requires Valid(sh)
    requires forall i: nat :: 0.0 <= draw(i) < 1.0
    ensures var r := Render(sh, Random, draw, gp, cmap, fmt);
      r.Ok? && |r.value| == |Call(sh)| &&
      forall k :: 0 <= k < |Call(sh)| ==> r.value[k] == Element(PointsText(Call(sh)[k], fmt), cmap(draw(k)))
  {
    RandomPatternRange(SamplePoints(sh), draw);
  }

  /**
   * With the Gaussian-process pattern drawn at every tile centre, the command
   * fails exactly when the sample is constant, and otherwise colours every
   * tile from its rescaled sample value.
   */
  lemma RenderGaussian(sh: Shape, draw: nat -> real, gp: seq<Point> -> seq<real>, cmap: Colormap, fmt: Format)
    requires Valid(sh)
    requires |gp(SamplePoints(sh))| == |Call(sh)|
    ensures Render(sh, GaussianProcess, draw, gp, cmap, fmt).Err? <==> Constant(gp(SamplePoints(sh)))
    ensures Render(sh, GaussianProcess, draw, gp, cmap, fmt).Err? ==>
      Render(sh, GaussianProcess, draw, gp, cmap, fmt).error == ConstantSample
    ensures Render(sh, GaussianProcess, draw, gp, cmap, fmt).Ok? ==>
      var es, values := Render(sh, GaussianProcess, draw, gp, cmap, fmt).value, Rescale(gp(SamplePoints(sh))).value;
      |es| == |Call(sh)| &&
      forall k :: 0 <= k < |Call(sh)| ==> es[k] == Element(PointsText(Call(sh)[k], fmt), cmap(values[k]))
  {
    CallNonEmpty(sh);
    var pts := SamplePoints(sh);
    var sample := gp(pts);
    var r := Render(sh, GaussianProcess, draw, gp, cmap, fmt);
    assert Pattern(GaussianProcess, pts, draw, gp) == GaussianProcessPattern(sample);
    if Rescale(sample).Ok? {
      var values := Rescale(sample).value;
      RescaleRange(sample);
      InRangeElements(Call(sh), values, cmap, fmt);
      assert r == Ok(Elements(Call(sh), Colors(values, cmap).value, fmt));
    }
  }

  /** Values all in [0, 1], one per polygon, colour every polygon: polygon k gets the colour of value k. */
  lemma InRangeElements(polys: seq<Polygon>, values: seq<real>, cmap: Colormap, fmt: Format)
    requires |values| == |polys| && forall v :: v in values ==> 0.0 <= v <= 1.0
    ensures Colors(values, cmap).Ok?
    ensures var es := Elements(polys, Colors(values, cmap).value, fmt);
      |es| == |polys| && forall k :: 0 <= k < |polys| ==> es[k] == Element(PointsText(polys[k], fmt), cmap(values[k]))
  {
    assert forall i :: 0 <= i < |values| ==> values[i] in values;
  }

  /**
   * `_main` with the Gaussian-process pattern as written: the rescale
   * divides by zero for a constant sample and the NaNs reach `get_color`.
   */
  function RenderGaussianAsWritten(sh: Shape, gp: seq<Point> -> seq<real>, cmap: Colormap, fmt: Format): (r: Result<seq<Element>>)
    requires Valid(sh)
    ensures r.Ok? ==> |r.value| <= |Call(sh)|
  {
    match RescaleAsWritten(gp(SamplePoints(sh)))
    case Err(e) => Err(e)
    case Ok(values) =>
      match ColorsAsWritten(values, cmap)
      case Err(e) => Err(e)
      case Ok(colors) => Ok(Elements(Call(sh), colors, fmt))
  }

  /**
   * The pipeline as written agrees with the guarded one on every sample that
   * is not constant, and stops in `get_color` on every constant one.
   */
  lemma RenderGaussianAsWrittenAgrees(sh: Shape, draw: nat -> real, gp: seq<Point> -> seq<real>, cmap: Colormap, fmt: Format)
    requires Valid(sh)
    requires |gp(SamplePoints(sh))| == |Call(sh)|
    ensures !Constant(gp(SamplePoints(sh))) ==>
      RenderGaussianAsWritten(sh, gp, cmap, fmt) == Render(sh, GaussianProcess, draw, gp, cmap, fmt)
    ensures Constant(gp(SamplePoints(sh))) ==> RenderGaussianAsWritten(sh, gp, cmap, fmt) == Err(ColorOutOfRange)
  {
    CallNonEmpty(sh);
    var sample := gp(SamplePoints(sh));
    assert sample != [];
    if Constant(sample) {
      RescaleAsWrittenConstant(sample);
      var fs := RescaleAsWritten(sample).value;
      assert fs[0] in fs;
    } else {
      var values := Rescale(sample).value;
      RescaleAsWrittenAgrees(sample);
      assert RescaleAsWritten(sample).value == seq(|values|, i requires 0 <= i < |values| => Num(values[i]));
      ColorsAgree(values, cmap);
      assert Pattern(GaussianProcess, SamplePoints(sh), draw, gp) == Ok(values);
    }
  }

  /**
   * A hexagon canvas narrower than one tile step and lower than sqrt3 / 2
   * tile steps: 4 height^2 < 3 units^2.
   */
  predicate SmallCanvas(sh: Shape)
  {
    Valid(sh) && sh.kind == Hexagon && sh.outWidth as real < Units(sh)
    && 4.0 * (sh.outHeight * sh.outHeight) as real < 3.0 * Units(sh) * Units(sh)
  }

  /** A canvas lower than sqrt3 / 2 tile steps has a height ratio q sqrt3 below 1. */
  lemma SmallHeight(q: real, u: real, height: int)
    requires u > 0.0 && 3.0 * q * u == 2.0 * height as real
    requires 4.0 * (height * height) as real < 3.0 * u * u
    ensures 3.0 * q * q < 1.0
  {
    var h := height as real;
    assert (height * height) as real == h * h;
    assert (3.0 * q * q - 1.0) * (3.0 * u * u) == (3.0 * q * u) * (3.0 * q * u) - 3.0 * u * u;
    PositiveFactor(3.0 * q * q - 1.0, 3.0 * u * u);
  }

  /** A canvas narrower than one tile step has a width ratio below 1. */
  lemma SmallWidth(w: real, u: real, width: int)
    requires u > 0.0 && w * u == width as real && (width as real) < u
    ensures w < 1.0
  {
    assert (w - 1.0) * u == width as real - u;
    PositiveFactor(w - 1.0, u);
  }

  /** The loop bounds on a small canvas: one column, s = 0, of one row, t = 0. */
  lemma SmallCanvasBounds(sh: Shape)
    requires SmallCanvas(sh)
    ensures HexagonXStart(sh) == 0 && HexagonXEnd(sh) == 1 && HexagonYEnd(sh) == 1
  {
    var q, u := HeightRatio(sh), Units(sh);
    SmallHeight(q, u, sh.outHeight);
    RootsBelow(TruncRoot3(q), 1, 3.0 * q * q);
    SmallWidth(WidthRatio(sh), u, sh.outWidth);
  }

  /**
   * With one row of hexagons, t = 0, every drawn vertex lies within
   * scale / sqrt3 of the top edge: its y = ys sqrt3 has |ys| <= scale / 3.
   */
  lemma OneRowHeight(sh: Shape, k: int, i: int)
    requires Valid(sh) && sh.kind == Hexagon && HexagonYEnd(sh) == 1
    requires 0 <= k < |Call(sh)| && 0 <= i < |Call(sh)[k]|
    ensures -sh.scale / 3.0 <= Call(sh)[k][i].ys <= sh.scale / 3.0
  {
    var units := GenerateUnits(sh);
    assert units == Hexagons(sh.paddingFactor, HexagonCells(sh));
    OneRowScaled(units, sh.paddingFactor, sh.scale, HexagonXStart(sh), HexagonXEnd(sh), HexagonYEnd(sh), k, i);
  }

  /** The scaled hexagons of a single row t = 0 of cells stay within c / sqrt3 of the axis. */
  lemma OneRowScaled(units: seq<Polygon>, pf: real, c: real, lo: int, hi: int, n: nat, k: int, i: int)
    requires units == Hexagons(pf, Grid(lo, hi, n))
    requires c > 0.0 && n == 1 && 0 <= k < |units| && 0 <= i < 6
    ensures |units[k]| == 6
    ensures -c / 3.0 <= Scaled(units, c)[k][i].ys <= c / 3.0
  {
    var s, t := lo + k, 0;
    OneRowCell(pf, lo, hi, n, k, t);
    FirstRowVertex(units[k], pf, s, t, i);
    ScaledAt(units, c, k, i);
    ScaledBelow(Scaled(units, c)[k][i], c, units[k][i]);
  }

  /** In a single row of cells, cell k is (lo + k, 0). */
  lemma OneRowCell(pf: real, lo: int, hi: int, n: nat, k: int, t: int)
    requires n == 1 && t == 0 && 0 <= k < |Grid(lo, hi, n)|
    ensures Hexagons(pf, Grid(lo, hi, n))[k] == HexagonUnit(pf, lo + k, t)
  {
    GridIndex(lo, hi, n, k);
    DivOne(k, n);
  }

  /** Dividing by a single row leaves the index and no remainder. */
  lemma DivOne(k: int, n: int)
    requires n == 1
    ensures k / n == k && k % n == 0
  {
  }

  /** Vertex i of polygon k of a scaled list is that vertex scaled. */
  lemma ScaledAt(polys: seq<Polygon>, c: real, k: int, i: int)
    requires 0 <= k < |polys| && 0 <= i < |polys[k]|
    ensures Scaled(polys, c)[k][i] == Mul(c, polys[k][i])
  {
  }

  /** A vertex of a hexagon of row t = 0 lies within 1/sqrt3 of the row's axis: |ys| <= 1/3. */
  lemma FirstRowVertex(h: Polygon, pf: real, s: int, t: int, i: int)
    requires t == 0 && h == HexagonUnit(pf, s, t) && 0 <= i < 6
    ensures -1.0 / 3.0 <= h[i].ys <= 1.0 / 3.0
  {
    var b, w := HexagonBase(pf, s, t), MatrixPower(Sixty, i, UnitOffset);
    PowerHeight(i, UnitOffset);
    RowZeroBase(pf, s, t);
  }

  /** Every turn of a point at distance 1/sqrt3 from the origin has |ys| <= 1/3. */
  lemma PowerHeight(i: nat, o: Point)
    requires Norm(o) == 1.0 / 3.0
    ensures -1.0 / 3.0 <= MatrixPower(Sixty, i, o).ys <= 1.0 / 3.0
  {
    MatrixPowerNorm(Sixty, i, o);
    NormBelow(MatrixPower(Sixty, i, o));
  }

  /** The centres of row t = 0 lie on the axis ys = 0. */
  lemma RowZeroBase(pf: real, s: int, t: int)
    requires t == 0
    ensures HexagonBase(pf, s, t).ys == 0.0
  {
    var ps, pt := PlacementS(pf), HexagonPlacementT(pf);
    assert ps.ys == 0.0;
    assert Mul(t as real, pt).ys == 0.0;
  }

  /** A point at distance 1/sqrt3 from the origin has |ys| <= 1/3. */
  lemma NormBelow(d: Point)
    requires Norm(d) == 1.0 / 3.0
    ensures -1.0 / 3.0 <= d.ys <= 1.0 / 3.0
  {
    var y := d.ys;
    assert d.x * d.x >= 0.0;
    assert 9.0 * y * y <= 1.0;
    assert (1.0 - 3.0 * y) * (1.0 + 3.0 * y) == 1.0 - 9.0 * y * y;
    if y > 1.0 / 3.0 {
      PositiveFactor(1.0 + 3.0 * y, 3.0 * y - 1.0);
    } else if y < -1.0 / 3.0 {
      PositiveFactor(1.0 - 3.0 * y, -1.0 - 3.0 * y);
    }
  }

  /** Scaling by c > 0 keeps |ys| <= 1/3 as |ys| <= c / 3. */
  lemma ScaledBelow(p: Point, c: real, v: Point)
    requires c > 0.0 && p == Mul(c, v) && -1.0 / 3.0 <= v.ys <= 1.0 / 3.0
    ensures -c / 3.0 <= p.ys <= c / 3.0
  {
    assert c / 3.0 - p.ys == c * (1.0 / 3.0 - v.ys);
    assert p.ys + c / 3.0 == c * (v.ys + 1.0 / 3.0);
  }

  /** A vertex with |ys| <= c / 3 stays above a canvas edge h with c^2 < 3 h^2: 3 ys^2 < h^2. */
  lemma AboveEdge(y: real, c: real, h: int)
    requires -c / 3.0 <= y <= c / 3.0 && c * c < 3.0 * (h * h) as real
    ensures 3.0 * y * y < (h * h) as real
  {
    var b := c / 3.0;
    assert b * b - y * y == (b - y) * (b + y);
    assert 3.0 * b * b == c * c / 3.0;
  }

  /**
   * The tiles need not cover the canvas: when only row t = 0 is drawn and
   * the tile size is below sqrt3 times the canvas height, no vertex reaches
   * the bottom edge y = out_height, so a band along it stays black.
   */
  lemma OneRowUncovered(sh: Shape)
    requires Valid(sh) && sh.kind == Hexagon && HexagonYEnd(sh) == 1
    requires sh.scale * sh.scale < 3.0 * (sh.outHeight * sh.outHeight) as real
    ensures forall k, i :: 0 <= k < |Call(sh)| && 0 <= i < |Call(sh)[k]| ==>
      3.0 * Call(sh)[k][i].ys * Call(sh)[k][i].ys < (sh.outHeight * sh.outHeight) as real
  {
    forall k, i | 0 <= k < |Call(sh)| && 0 <= i < |Call(sh)[k]|
      ensures 3.0 * Call(sh)[k][i].ys * Call(sh)[k][i].ys < (sh.outHeight * sh.outHeight) as real
    {
      OneRowHeight(sh, k, i);
      AboveEdge(Call(sh)[k][i].ys, sh.scale, sh.outHeight);
    }
  }

  /**
   * A canvas where that happens: 100 x 8 pixels with tile size 10 and no
   * padding draws one row, and its vertices stay above y = 10 / sqrt3 < 8.
   */
  lemma CoverageFails(sh: Shape)
    requires sh == Shape(Hexagon, 10.0, 1.0, 100, 8)
    ensures Valid(sh) && sh.kind == Hexagon && HexagonYEnd(sh) == 1
    ensures sh.scale * sh.scale < 3.0 * (sh.outHeight * sh.outHeight) as real
  {
    var q, u := HeightRatio(sh), Units(sh);
    SmallHeight(q, u, sh.outHeight);
    RootsBelow(TruncRoot3(q), 1, 3.0 * q * q);
  }

  /** A small canvas holds exactly one hexagon, the one of cell (0, 0). */
  lemma SmallCanvasOneTile(sh: Shape)
    requires SmallCanvas(sh)
    ensures HexagonCells(sh) == [(0, 0)]
    ensures |Call(sh)| == 1
  {
    SmallCanvasBounds(sh);
    var a := HexagonXStart(sh);
    GridOne(a);
    assert HexagonCells(sh) == Grid(a, a + 1, 1);
    assert |Call(sh)| == |HexagonUnits(sh)| == |HexagonCells(sh)|;
  }

  /** A canvas of one pixel by one pixel with the default tile size and padding is small. */
  lemma OnePixelIsSmall()
    ensures SmallCanvas(Shape(Hexagon, DefaultScale, DefaultPaddingFactor, 1, 1))
  {
    assert Units(Shape(Hexagon, DefaultScale, DefaultPaddingFactor, 1, 1)) == 11.0;
  }

  /**
   * The single Gaussian-process sample of a one-tile canvas is constant: as
   * written the command stops in `get_color` with the out-of-range error,
   * while the guarded rescale reports the constant sample.
   */
  lemma OneTileGaussian(sh: Shape, gp: seq<Point> -> seq<real>, cmap: Colormap, fmt: Format, draw: nat -> real)
    requires SmallCanvas(sh) && |gp(SamplePoints(sh))| == 1
    ensures RenderGaussianAsWritten(sh, gp, cmap, fmt) == Err(ColorOutOfRange)
    ensures Render(sh, GaussianProcess, draw, gp, cmap, fmt) == Err(ConstantSample)
  {
    var sample := gp(SamplePoints(sh));
    assert Constant(sample);
    RescaleAsWrittenConstant(sample);
    assert RescaleAsWritten(sample).value[0] == NaN;
  }

  /**
   * The `main` command: the two names chosen, the shape built from the
   * numbers, and `_main` run on them.
   */
  function Command(shapeName: string, patternName: string, scale: real, paddingFactor: real, width: int, height: int,
                   draw: nat -> real, gp: seq<Point> -> seq<real>, cmap: Colormap, fmt: Format): (r: Result<seq<Element>>)
    requires scale > 0.0 && paddingFactor > 0.0 && width > 0 && height > 0
    ensures ChooseShape(shapeName).Err? ==> r == Err(UnknownShape)
    ensures ChooseShape(shapeName).Ok? && ChoosePattern(patternName).Err? ==> r == Err(UnknownPattern)
    ensures ChooseShape(shapeName).Ok? && ChoosePattern(patternName).Ok? ==>
      var sh := Shape(ChooseShape(shapeName).value, scale, paddingFactor, width, height);
      r == Render(sh, ChoosePattern(patternName).value, draw, gp, cmap, fmt)
  {
    match ChooseShape(shapeName)
    case Err(e) => Err(e)
    case Ok(kind) =>
      match ChoosePattern(patternName)
      case Err(e) => Err(e)
      case Ok(pattern) => Render(Shape(kind, scale, paddingFactor, width, height), pattern, draw, gp, cmap, fmt)
  }
}
