# LinkedIn cover image: tilings, patterns and the drawing pipeline

A Dafny model of the cover-image generator. The generator tiles a canvas with
hexagons or triangles, gives every tile a value in [0, 1] from a random or a
Gaussian-process pattern, and colours each tile from a colormap. It models two
versions of the program:

- **The package** (`src/cover_image/`):
  - the `Shape` / `Hexagon` / `Triangle` tilings;
  - the two pattern generators;
  - the `main` command, which picks a shape and a pattern by name, samples the pattern at the tile centres, colours the tiles and emits one SVG polygon per tile.
- **The first script** (`main.py` and `shape.py` at the top of the repository):
  - a fixed 57 x 11 grid of hexagons, built vertex by vertex by turning an offset;
  - the older tiling classes, whose hexagon columns start differently.

## Exact geometry

The program uses `rot_matrix(theta)` only for theta = pi/3 and 2 pi/3, and it
starts from offsets such as (0.5, 0.5/sqrt 3). So every point it computes has
a rational x and a y that is a rational multiple of sqrt 3. `Geometry.Point(x, ys)`
stands for the point (x, ys * sqrt 3), which makes all the trigonometry exact.

Python's `int()` on the height ratio `out_height / units * 2 / sqrt(3)` is
`Numbers.TruncRoot3`, which is characterised without sqrt 3 by
n^2 <= 3 q^2 < (n + 1)^2. `int()` on a plain ratio is `Numbers.Trunc`, which
truncates toward zero.

## Modules

| file | module | what it models |
|---|---|---|
| numbers.dfy | `Numbers` | Python's `int()` on the ratios |
| geometry.dfy | `Geometry` | points, `rot_matrix`, `matrix_power`, vertex means |
| lattice.dfy | `Lattice` | the index pairs two nested `for` loops visit |
| shapes.dfy | `Shapes` | `src/cover_image/shape.py`; loops are methods proved against spec functions |
| legacy_shapes.dfy | `LegacyShapes` | `shape.py`, compared with the current tilings |
| outcomes.dfy | `Outcomes` | the error kinds and a result type |
| patterns.dfy | `Patterns` | `src/cover_image/pattern_generators.py` |
| text.dfy | `Text` | the `points` attribute of a polygon, and reading it back |
| cover.dfy | `CoverImage` | `src/cover_image/main.py` |
| legacy_main.dfy | `LegacyMain` | `main.py`: `get_hexagon` and the grid loop |

## Notes on the code

The model follows the code in these points:

- **Hexagon loop bounds.** They are `1 + int(...)`, truncations of the canvas ratios, and they are modelled as truncations.
- **Triangle stagger.** The half-step shift `s - 0.5` applies to rows with even `t` (`t % 2 == 0`), although the comment beside it says odd rows. See `Shapes.TriangleBaseClosed`.

Two things a reader might expect are not true of the code:

- **Argument checks.** The code checks none of `scale`, `padding_factor`, width or height. The model requires positive values; see `Shapes.Valid` under Left out for what that excludes.
- **Coverage.** The tiles do not always cover the canvas; see `Shapes.HexagonBounds` under Left out.

Apart from those preconditions, it departs from the code in one place, the constant Gaussian-process sample:

- The code divides 0 by 0 there and passes the resulting NaNs on to `get_color`.
- `Patterns.GaussianProcessPattern`, `CoverImage.Pattern`, `CoverImage.Render`, `CoverImage.RenderGaussian` and `CoverImage.Command` report `ConstantSample` instead (see Findings).
- The code as written is modelled beside them, by `Patterns.RescaleAsWritten` and `CoverImage.RenderGaussianAsWritten`.

## Model

| member | source | states |
|---|---|---|
| Numbers.Trunc | src/cover_image/shape.py:50-52 | `int()` truncates toward zero: below the value by less than 1 for non-negative values, above it by less than 1 for negative ones |
| Numbers.TruncRoot3 | src/cover_image/shape.py:50 | `int(q * sqrt 3)` for q >= 0 is the n with n^2 <= 3q^2 < (n+1)^2 |
| Numbers.TruncRoot3Half | shape.py:45-51 | truncating Y/2 gives the truncation of Y divided by 2, for Y = q sqrt 3 |
| Geometry.RotMatrix | src/cover_image/shape.py:13-14 | `rot_matrix` at pi/3 and 2 pi/3, exactly; its meaning is stated by `Geometry.RotMatrixNorm` and `Geometry.OneTwentyTwice` |
| Geometry.MatrixPower | src/cover_image/shape.py:57 | `matrix_power(R, n) @ p` as n turns of p; stated by `Geometry.MatrixPowerAdd`, `Geometry.MatrixPowerNorm` and `Geometry.SixtySixTimes` |
| Geometry.Mean | src/cover_image/main.py:61 | `np.mean(s, axis=0)`, the vertex mean; stated by `Geometry.MeanMul`, `Shapes.HexagonCentroid` and `Shapes.TriangleCentroid` |
| Geometry.RotMatrixNorm | src/cover_image/shape.py:13-14 | both rotation matrices keep the distance from the origin |
| Geometry.MatrixPowerNorm | src/cover_image/shape.py:57 | every `matrix_power` of a rotation keeps the distance from the origin |
| Geometry.OneTwentyTwice | src/cover_image/shape.py:63-64 | `rot120` is `rot60` applied twice |
| Geometry.SixtyThreeTimes | src/cover_image/shape.py:57 | three 60-degree turns map p to -p |
| Geometry.SixtySixTimes | src/cover_image/shape.py:57 | six 60-degree turns are the identity, so the hexagon's vertex walk closes |
| Geometry.MatrixPowerAdd | src/cover_image/shape.py:57 | powers of one rotation compose by adding exponents |
| Geometry.OneTwentyPower | src/cover_image/shape.py:76 | `matrix_power(rot120, n)` equals `matrix_power(rot60, 2n)` |
| Geometry.MatrixPowerMul | main.py:41-45 | a power of a rotation commutes with a scalar factor |
| Geometry.MeanMul | src/cover_image/main.py:61 | scaling a polygon scales its vertex mean by the same factor |
| Lattice.Grid | src/cover_image/shape.py:53-54 | the pairs two nested `for` loops visit, in order; stated by `Lattice.GridSize`, `Lattice.GridAt` and `Lattice.GridIndex` |
| Lattice.Row | src/cover_image/shape.py:54 | the inner loop visits (a, 0) .. (a, n-1), in order |
| Lattice.GridSize | src/cover_image/shape.py:53-54 | nested loops over [lo, hi) and [0, n) visit (hi - lo) * n pairs, or none when hi <= lo |
| Lattice.GridAt | src/cover_image/shape.py:53-54 | each pair (a, b) of the ranges is visited at position (a - lo) * n + b |
| Lattice.GridIndex | src/cover_image/shape.py:53-54 | position k holds the pair (lo + k div n, k mod n) |
| Lattice.GridSplit | shape.py:51 | splitting the outer range splits the visiting order into two consecutive parts |
| Shapes.Units | src/cover_image/shape.py:48 | `units = scale * padding_factor` is positive |
| Shapes.WidthRatio | src/cover_image/shape.py:52 | `out_width / units` is positive, and times `units` gives the width |
| Shapes.HeightRatio | src/cover_image/shape.py:50 | `out_height / units * 2 / sqrt 3` is q sqrt 3 with 3 q units = 2 out_height |
| Shapes.HexagonYEnd | src/cover_image/shape.py:50 | `y_end` is at least 1; its exact value is stated by `Shapes.HexagonBounds` |
| Shapes.HexagonXStart | src/cover_image/shape.py:51 | `x_start = int(-y_end / 2)`; stated by `Shapes.HexagonBounds` as -(y_end div 2) |
| Shapes.HexagonXEnd | src/cover_image/shape.py:52 | `x_end = 1 + int(W)`; stated by `Shapes.HexagonBounds` |
| Shapes.PlacementS | src/cover_image/shape.py:46 | `placement_wrt_s = pf (1, 0)`; its length is stated by `Shapes.HexagonSpacing` |
| Shapes.HexagonPlacementT | src/cover_image/shape.py:47 | `placement_wrt_t = rot60 @ placement_wrt_s`; stated by `Shapes.HexagonBaseClosed` and `Shapes.HexagonSpacing` |
| Shapes.HexagonBounds | src/cover_image/shape.py:48-52 | `y_end - 1 <= Y < y_end`; `x_start = -(y_end div 2) <= 0`, Python's `int(-y_end / 2)`; `x_end - 1 <= W < x_end` |
| Shapes.UnitOffset | src/cover_image/shape.py:56 | `offset = (0.5, 0.5 / sqrt3)`, written as (1/2, sqrt3/6); every turn of it lies 1/sqrt3 from the centre (`Shapes.HexagonVertexDistance`, `Shapes.TriangleVertexDistance`) |
| Shapes.HexagonBase | src/cover_image/shape.py:55 | `base_p = placement_wrt_s * s + placement_wrt_t * t`; its closed form is `Shapes.HexagonBaseClosed` |
| Shapes.HexagonBaseClosed | src/cover_image/shape.py:45-55 | `base_p` of (s, t) is s pf (1, 0) + t pf (1/2, sqrt3/2) |
| Shapes.HexagonSpacing | src/cover_image/shape.py:45-47 | neighbouring centres differ by `placement_wrt_s` and by `placement_wrt_t`, both of length pf |
| Shapes.HexagonUnit | src/cover_image/shape.py:56-57 | every hexagon has six vertices |
| Shapes.HexagonVertexDistance | src/cover_image/shape.py:56-57 | every vertex lies 1/sqrt3 from `base_p`, so the hexagon is regular with unit width |
| Shapes.HexagonCentroid | src/cover_image/shape.py:55-57 | the vertex mean of each hexagon is its `base_p` |
| Shapes.HexagonNeighbours | src/cover_image/shape.py:45-57 | with padding 1, hexagon (s, t) shares an edge with (s+1, t) and with (s, t+1) |
| Shapes.Hexagons | src/cover_image/shape.py:53-57 | one hexagon per cell, in the order of the cells |
| Shapes.HexagonUnits | src/cover_image/shape.py:43-57 | what `Hexagon.generate_units` yields; stated by `Shapes.HexagonCount`, `Shapes.HexagonIndex` and `Shapes.HexagonPosition`, and computed by `Shapes.HexagonLoop` |
| Shapes.HexagonCells | src/cover_image/shape.py:53-54 | the cells the two loops visit, s outer over [x_start, x_end) and t inner over [0, y_end); stated by `Shapes.HexagonIndex`, `Shapes.HexagonPosition` and `Shapes.CallHexagonCentres` |
| Shapes.HexagonCount | src/cover_image/shape.py:48-54 | `generate_units` yields (x_end - x_start) * y_end hexagons |
| Shapes.HexagonIndex | src/cover_image/shape.py:53-57 | hexagon k is that of cell (x_start + k div y_end, k mod y_end), so s is the outer loop |
| Shapes.HexagonPosition | src/cover_image/shape.py:53-57 | every cell of the ranges is drawn, at position (s - x_start) * y_end + t |
| Shapes.HexagonLoop | src/cover_image/shape.py:53-57 | the nested loops yield exactly the hexagons of the lattice cells, in visiting order |
| Shapes.TriangleRows | src/cover_image/shape.py:69-70 | the outer range `2 + int(y_end)` has at least two rows |
| Shapes.TriangleColumns | src/cover_image/shape.py:68-71 | the inner range `2 + int(x_end)` has at least two columns |
| Shapes.TriangleBounds | src/cover_image/shape.py:67-71 | the two ranges end one to two steps beyond the canvas ratios |
| Shapes.TrianglePlacementT | src/cover_image/shape.py:66 | `placement_wrt_t = pf (0, sqrt3 / 2)`; stated by `Shapes.TriangleBaseClosed` |
| Shapes.RowShift | src/cover_image/shape.py:72 | `s if t % 2 else s - 0.5`; stated by `Shapes.TriangleBaseClosed` |
| Shapes.TriangleBase | src/cover_image/shape.py:74 | `base_p` of cell (t, s); its closed form, even rows shifted, is `Shapes.TriangleBaseClosed` |
| Shapes.TriangleBaseClosed | src/cover_image/shape.py:72-74 | `base_p` is pf (s - 1/2, t sqrt3/2) on even rows and pf (s, t sqrt3/2) on odd rows |
| Shapes.TriangleVertices | src/cover_image/shape.py:76 | every triangle has three vertices |
| Shapes.UpTriangle | src/cover_image/shape.py:75-76 | the first triangle of a cell; stated by `Shapes.TriangleCentroid`, `Shapes.TriangleVertexDistance` and `Shapes.TrianglesShareEdge` |
| Shapes.DownTriangle | src/cover_image/shape.py:78-80 | the second triangle of a cell, from the moved base and the turned offset; stated by `Shapes.DownOppositeUp` and `Shapes.TriangleCellStep` |
| Shapes.Triangles | src/cover_image/shape.py:70-80 | each cell contributes exactly two triangles |
| Shapes.TrianglesAt | src/cover_image/shape.py:70-80 | positions 2k and 2k+1 hold the up and the down triangle of cell k |
| Shapes.TrianglesCount | src/cover_image/shape.py:70-71 | a rows x columns lattice yields 2 rows columns triangles |
| Shapes.TriangleCells | src/cover_image/shape.py:70-71 | the cells the two loops visit, t outer over [0, rows) and s inner over [0, columns); stated by `Shapes.TriangleIndex` |
| Shapes.TriangleUnits | src/cover_image/shape.py:61-80 | what `Triangle.generate_units` yields; stated by `Shapes.TriangleCount` and `Shapes.TriangleIndex`, and computed by `Shapes.TriangleLoop` |
| Shapes.TriangleCount | src/cover_image/shape.py:67-80 | `generate_units` yields 2 rows columns triangles |
| Shapes.TriangleIndex | src/cover_image/shape.py:70-80 | triangles 2k and 2k+1 belong to cell (k div columns, k mod columns), so t is the outer loop |
| Shapes.TriangleVertexDistance | src/cover_image/shape.py:75-76 | for any offset of norm 1/3, every vertex lies 1/sqrt3 from the base point; `Shapes.DrawnTrianglesEquilateral` applies it to the two offsets drawn |
| Shapes.DrawnTrianglesEquilateral | src/cover_image/shape.py:75-80 | the two offsets the loop turns, `offset` and `rot60 @ offset`, have norm 1/3, so every vertex of the up and the down triangle of a cell lies 1/sqrt3 from its base point: both drawn triangles are equilateral with side 1 |
| Shapes.TriangleCentroid | src/cover_image/shape.py:74-76 | the vertex mean of each triangle is its base point |
| Shapes.DownOppositeUp | src/cover_image/shape.py:78-80 | the down triangle is the up triangle turned half way round: each vertex is opposite a vertex of the up triangle |
| Shapes.TrianglesShareEdge | src/cover_image/shape.py:74-80 | with padding 1, the up and down triangles of a cell share an edge |
| Shapes.DownShift | src/cover_image/shape.py:78 | the in-place step `base_p += pf (0.5, 1/sqrt3 - sqrt3/2)`, written as (1/2, (1/3 - 1/2) sqrt3); stated by `Shapes.TriangleCellStep` |
| Shapes.TriangleCellStep | src/cover_image/shape.py:74-80 | moving `base_p` in place and turning `offset` produces the down triangle of the cell |
| Shapes.TriangleLoop | src/cover_image/shape.py:70-80 | the nested loops, with their in-place updates, yield the up and down triangles of every cell in visiting order |
| Shapes.GenerateUnits | src/cover_image/shape.py:36-80 | `generate_units` of the shape's kind; computed by `Shapes.GenerateUnitsLoop`, vertex counts in `Shapes.VertexCounts` |
| Shapes.GenerateUnitsLoop | src/cover_image/shape.py:43-80 | `generate_units` of either kind yields the polygons of its lattice |
| Shapes.VertexCounts | src/cover_image/shape.py:57-80 | every hexagon has six vertices and every triangle three |
| Shapes.Scaled | src/cover_image/shape.py:30-34 | `__call__` keeps the number and order of polygons and the vertex count of each |
| Shapes.Call | src/cover_image/shape.py:30-34 | `__call__`: the unit polygons scaled by `scale`; stated by `Shapes.Scaled`, `Shapes.CallHexagonCentres` and `CoverImage.CallPolygons` |
| Shapes.ScaledTwice | src/cover_image/shape.py:30-34 | for a fixed list of polygons, scaling by k and then by j is scaling by j k. The list itself depends on `scale` through the loop bounds, so the drawing as a whole is not linear in `scale` |
| Shapes.ScaledInverse | src/cover_image/shape.py:30-34 | scaling by k and then by 1/k gives back the unit polygons |
| Shapes.ScaledCentroid | src/cover_image/shape.py:30-34 | the centre of a drawn polygon is `scale` times the centre of its unit polygon |
| Shapes.CallHexagonCentres | src/cover_image/shape.py:30-57 | one drawn hexagon per cell, hexagon k centred at `scale` times its cell's `base_p` |
| LegacyShapes.LegacyHexagonXStart | shape.py:45-51 | the older first column `-int(Y / 2)`; stated by `LegacyShapes.LegacyStartBounds` |
| LegacyShapes.LegacyHexagonYEnd | shape.py:52 | the end of the older row range, `1 + int(Y)`; equal to the current one (`LegacyShapes.LegacyHexagonSuffix`) |
| LegacyShapes.LegacyHexagonXEnd | shape.py:51 | the end of the older column range, `1 + int(W)`; equal to the current one (`LegacyShapes.LegacyHexagonSuffix`) |
| LegacyShapes.LegacyGenerateUnits | shape.py:39-77 | what the older `generate_units` yields; stated by `LegacyShapes.LegacyIsSuffix` |
| LegacyShapes.LegacyCall | shape.py:28-32 | the older `__call__`; stated by `LegacyShapes.LegacyCallIsSuffix` |
| LegacyShapes.LegacyGenerateUnitsLoop | shape.py:39-77 | the older loops yield the polygons of the older lattice |
| LegacyShapes.LegacyHexagonUnits | shape.py:41-55 | what the older `Hexagon.generate_units` yields; stated by `LegacyShapes.LegacyHexagonCount` and `LegacyShapes.LegacyHexagonSuffix` |
| LegacyShapes.LegacyHexagonCount | shape.py:43-52 | the older hexagon count is (1 + int(W) + int(Y/2)) (1 + int(Y)) |
| LegacyShapes.LegacyStartBounds | shape.py:46-51 | the older first column `-int(Y/2)` is the current one or the next |
| LegacyShapes.LaterStart | shape.py:51 | starting the columns later drops a prefix of whole columns |
| LegacyShapes.LegacyHexagonSuffix | shape.py:51-52 | the older hexagons are the current ones with the first (older start - current start) columns dropped |
| LegacyShapes.LegacyIsSuffix | shape.py:39-77 | the older `generate_units` yields a suffix of the current one; the two `Triangle`s agree |
| LegacyShapes.LegacyCallIsSuffix | shape.py:28-32 | the older `__call__` draws a suffix of what the current one draws |
| Patterns.RandomPattern | src/cover_image/pattern_generators.py:6-7 | one value per sample point |
| Patterns.RandomPatternRange | src/cover_image/pattern_generators.py:6-7 | draws in [0, 1) give values that are all valid colour values |
| Patterns.SeqMin | src/cover_image/pattern_generators.py:16 | `samples.min()` is a sample and lies below every sample |
| Patterns.SeqMax | src/cover_image/pattern_generators.py:16 | `samples.max()` is a sample and lies above every sample |
| Patterns.Normalize | src/cover_image/pattern_generators.py:17 | r (max - min) = x - min |
| Patterns.NormalizeRange | src/cover_image/pattern_generators.py:17 | values between min and max land in [0, 1], min on 0 and max on 1 |
| Patterns.NormalizeMonotone | src/cover_image/pattern_generators.py:17 | the rescale keeps order, in both directions |
| Patterns.Rescale | src/cover_image/pattern_generators.py:16-17 | the rescale fails exactly for an empty or constant sample, with that error, and otherwise keeps the length |
| Patterns.RescaleAt | src/cover_image/pattern_generators.py:17 | entry i is (x[i] - min) / (max - min), with min < max |
| Patterns.RescaleRange | src/cover_image/pattern_generators.py:16-17 | every rescaled value lies in [0, 1] |
| Patterns.RescaleEndpoints | src/cover_image/pattern_generators.py:16-17 | entries equal to the minimum become 0 and those equal to the maximum become 1, and both occur |
| Patterns.RescaleMonotone | src/cover_image/pattern_generators.py:17 | x[i] <= x[j] exactly when scaled[i] <= scaled[j] |
| Patterns.RescaleIdempotent | src/cover_image/pattern_generators.py:16-17 | rescaling a rescaled pattern changes nothing |
| Patterns.GaussianProcessPattern | src/cover_image/pattern_generators.py:10-18 | the corrected pattern: an empty sample fails as in `min`, and a constant sample is reported as an error where the code yields NaN; otherwise one value in [0, 1] per sample, the code's own values (`Patterns.RescaleAsWrittenAgrees`) |
| Patterns.RescaleAsWritten | src/cover_image/pattern_generators.py:16-17 | the unguarded rescale fails only on an empty sample (in `min`) and keeps the length |
| Patterns.RescaleAsWrittenAgrees | src/cover_image/pattern_generators.py:16-17 | where the guarded rescale succeeds, the unguarded one computes the same numbers |
| Patterns.RescaleAsWrittenConstant | src/cover_image/pattern_generators.py:17 | a constant sample, including a single one, rescales to nothing but NaN |
| Text.PairText | src/cover_image/main.py:69 | `f"{x},{y}"` for one vertex; read back into its two numbers by `Text.PointsTextReadBack` |
| Text.PointsText | src/cover_image/main.py:69 | `" ".join(f"{x},{y}" ...)`; read back vertex by vertex by `Text.PointsTextReadBack` |
| Text.Join | src/cover_image/main.py:69 | joining no parts gives the empty text, and one part gives that part |
| Text.SplitPiece | src/cover_image/main.py:69 | a piece without separators splits to itself |
| Text.SplitFirst | src/cover_image/main.py:69 | splitting a piece, a separator and a rest takes the piece off first |
| Text.SplitJoin | src/cover_image/main.py:69 | splitting undoes `" ".join` when no part holds the separator |
| Text.PointsTextReadBack | src/cover_image/main.py:69 | the `points` text splits at spaces into one `x,y` piece per vertex, in vertex order, and each piece into its two numbers |
| CoverImage.ShapeName | src/cover_image/main.py:17 | the class name of each shape; the lookup over exactly these names is `CoverImage.ChooseShape` |
| CoverImage.PatternName | src/cover_image/main.py:18 | the option name of each pattern; the lookup over exactly these names is `CoverImage.ChoosePattern` |
| CoverImage.Fold | src/cover_image/main.py:38-39 | case folding changes exactly the upper-case ASCII letters |
| CoverImage.FoldIdempotent | src/cover_image/main.py:38-39 | folding twice is folding once |
| CoverImage.ChooseShape | src/cover_image/main.py:17-45 | a name selects exactly the shape whose class name it matches up to case; any other name is refused |
| CoverImage.ChoosePattern | src/cover_image/main.py:18-47 | a name selects exactly the pattern it matches up to case; any other name is refused |
| CoverImage.ChooseByName | src/cover_image/main.py:17-18 | every shape and every pattern can be chosen by its own name in any case |
| CoverImage.DefaultShapeValue | src/cover_image/main.py:38-43 | the default options make a valid shape |
| CoverImage.DefaultHexagons | src/cover_image/main.py:38-46 | the default command draws columns -10 to 102 of 21 rows: 2373 hexagons |
| CoverImage.GetColor | src/cover_image/main.py:30-34 | `get_color` succeeds exactly on [0, 1], endpoints included, with the colormap's colour; otherwise it gives the range error |
| CoverImage.Colors | src/cover_image/main.py:62 | colours succeed exactly when every value is in [0, 1]; then colour i is the colormap at value i |
| CoverImage.GetColorAsWritten | src/cover_image/main.py:30-34 | NaN fails the range test with the range error, like any value outside [0, 1]; a number in [0, 1] gets its colormap colour |
| CoverImage.ColorsAsWritten | src/cover_image/main.py:62 | colours of floats succeed exactly when none is NaN and all lie in [0, 1], colour i being the colormap at value i; otherwise the range error |
| CoverImage.ColorsAgree | src/cover_image/main.py:62 | on floats that are all numbers, the colours as written are exactly `Colors` of the values, failure included |
| CoverImage.Centroids | src/cover_image/main.py:61 | one sample point per polygon |
| CoverImage.Zip | src/cover_image/main.py:65 | `zip` pairs element i with element i, as many pairs as the shorter list |
| CoverImage.Elements | src/cover_image/main.py:65-70 | element i holds the points text of polygon i and colour i |
| CoverImage.CallPolygons | src/cover_image/main.py:60 | the list of shapes has six vertices per hexagon and three per triangle |
| CoverImage.CallNonEmpty | src/cover_image/main.py:60 | every valid shape draws at least one polygon |
| CoverImage.SamplePoints | src/cover_image/main.py:60-61 | one sample point per drawn polygon |
| CoverImage.SamplePointsAreCentres | src/cover_image/main.py:60-61 | sample point k is `scale` times the centre of tile k |
| CoverImage.Pattern | src/cover_image/main.py:62 | the random pattern gives one value per point; the Gaussian-process one is the corrected rescale of the sample |
| CoverImage.Render | src/cover_image/main.py:51-70 | on success, element k carries the points text of drawn polygon k |
| CoverImage.RenderRandom | src/cover_image/main.py:60-70 | with the random pattern every tile is drawn, tile k coloured from draw k |
| CoverImage.RenderGaussian | src/cover_image/main.py:60-70 | with the corrected Gaussian-process pattern the run fails exactly on a constant sample, reporting it; otherwise tile k is coloured from rescaled value k |
| CoverImage.RenderGaussianAsWritten | src/cover_image/main.py:60-70 | the pipeline with the unguarded rescale draws at most one element per polygon; its meaning is `CoverImage.RenderGaussianAsWrittenAgrees` |
| CoverImage.RenderGaussianAsWrittenAgrees | src/cover_image/main.py:60-70 | with one sample value per tile, the code as written draws exactly what the guarded pipeline draws on every sample that is not constant, and stops with the `get_color` range error on every constant one |
| CoverImage.SmallHeight | src/cover_image/shape.py:50 | a canvas lower than sqrt3/2 tile steps has a height ratio q sqrt3 below 1 |
| CoverImage.SmallWidth | src/cover_image/shape.py:52 | a canvas narrower than one tile step has a width ratio below 1 |
| CoverImage.SmallCanvasBounds | src/cover_image/shape.py:48-52 | a canvas narrower than one tile step and lower than sqrt3/2 steps has loop bounds s in [0, 1), t in [0, 1) |
| CoverImage.OneRowHeight | src/cover_image/shape.py:50-57 | when `y_end` is 1, only row t = 0 is drawn and every drawn vertex has |y| <= scale / sqrt3 |
| CoverImage.OneRowScaled | src/cover_image/shape.py:53-57 | the scaled hexagons of a single row of cells keep |y| <= scale / sqrt3 |
| CoverImage.OneRowUncovered | src/cover_image/shape.py:50-57 | with one row and scale^2 < 3 out_height^2, no vertex reaches the bottom edge y = out_height, so the tiles do not cover the canvas |
| CoverImage.CoverageFails | src/cover_image/shape.py:50-54 | the 100 x 8 canvas with scale 10 and padding 1 is such a canvas: it draws one row |
| CoverImage.SmallCanvasOneTile | src/cover_image/shape.py:53-57 | such a canvas is drawn as the single hexagon of cell (0, 0) |
| CoverImage.OnePixelIsSmall | src/cover_image/main.py:40-43 | a 1 x 1 canvas with the default tile size and padding is such a canvas |
| CoverImage.OneTileGaussian | src/cover_image/pattern_generators.py:16-17 | on a one-tile canvas the code as written stops in `get_color`; the guarded pipeline reports a constant sample |
| CoverImage.Command | src/cover_image/main.py:44-48 | `main` refuses an unknown shape name or an unknown pattern name, and otherwise runs `_main` (with the guarded rescale) on the chosen shape and pattern. When both names are unknown the model reports the shape; see Left out |
| LegacyMain.BasePoint | main.py:36-39 | `base_point` of (s, t); stated by `LegacyMain.BasePointScaled` |
| LegacyMain.HexagonVertices | main.py:41-45 | `get_hexagon` has six vertices |
| LegacyMain.GetHexagon | main.py:32-47 | turning the offset 60 degrees per step gives vertex i = `base_point` + R60^i (scale, scale/sqrt3), written as the points text |
| LegacyMain.PlacementWrtS | main.py:36 | `placement_wrt_s = (2 scale padding_factor, 0)`; stated by `LegacyMain.FirstOffsetScaled` |
| LegacyMain.FirstOffset | main.py:41 | `offset = (scale, scale / sqrt3)`, written as (scale, scale/3 sqrt3); stated by `LegacyMain.FirstOffsetScaled` |
| LegacyMain.FirstOffsetScaled | main.py:36-41 | the script's offset and row step are 2 scale times the tiling's |
| LegacyMain.BasePointScaled | main.py:36-39 | `base_point` of (s, t) is 2 scale times the tiling's `base_p` of (s, t) |
| LegacyMain.HexagonVerticesScaled | main.py:32-45 | `get_hexagon(s, t)` is the tiling's unit hexagon (s, t) scaled by 2 scale, vertex for vertex |
| LegacyMain.GetHexagonInShape | main.py:32-45 | inside a `Hexagon` shape with tile size 2 scale, `get_hexagon(s, t)` is the drawn polygon of cell (s, t) |
| LegacyMain.CellElement | main.py:75-82 | the polygon element of cell (s, t): `get_hexagon(s, t)` as its points and the colour of its draw as its fill; stated by `LegacyMain.CellElementsSnoc` and `LegacyMain.MainGrid` |
| LegacyMain.CellElements | main.py:73-82 | one element per visited cell |
| LegacyMain.GridElements | main.py:73-82 | the grid succeeds exactly when every draw used is in [0, 1]; otherwise it gives the range error of `get_color` (main.py:25-29) |
| LegacyMain.CellElementsSnoc | main.py:73-82 | one more cell adds its element, coloured from the next draw, at the end |
| LegacyMain.GridFails | main.py:80 | one draw outside [0, 1] makes the whole grid fail |
| LegacyMain.GridLoop | main.py:73-82 | the nested loops build the elements of every cell in visiting order, or stop with the error at the first bad draw |
| LegacyMain.MainCells | main.py:73-74 | the cells of `range(-5, 52)` x `range(11)`, s outer; stated by `LegacyMain.MainGrid` |
| LegacyMain.DrawGrid | main.py:73-82 | `main`'s loops over s in [-5, 52) and t in [0, 11) |
| LegacyMain.MainGrid | main.py:73-82 | with draws in [0, 1) the script draws 627 hexagons, the k-th being (-5 + k div 11, k mod 11) coloured from draw k |

## Left out

- Writing the files: building the SVG tree, writing it and rasterising it with `svg2png` are I/O. The pipeline ends at the list of polygon elements.
- Option parsing: `click` is modelled only by the name lookups and the defaults. Case folding covers ASCII letters, not full Unicode `casefold`.
- The colormap: `viridis` and the `rgb(...)` fill text are a parameter (`CoverImage.Colormap`) returning an `Rgb` value.
- Randomness: the Gaussian-process regressor with its Matern kernel, `sample_y` and `np.random` are foreign numerics. The sample is a parameter `gp` and the draws a parameter `draw`.
- Number formatting: how a float is written as digits in the `points` text is a parameter (`Text.Format`). Only the `x,y` and space structure is modelled.
- Floating point: coordinates are exact (x, ys sqrt 3) numbers, so IEEE rounding in the trigonometry and the divisions is not modelled. Rounding can also move a truncated loop bound. For example, scale 0.1, padding 3 and width 3 give units 0.30000000000000004 in IEEE doubles, so the width ratio is 9.999999999999998 and the program's `x_end` is 10 where the model's is 11. So `Shapes.HexagonCount`, `Shapes.TriangleCount` and `CoverImage.DefaultHexagons` are counts in exact arithmetic.
- Geometry.RotMatrix: modelled only at pi/3 and 2 pi/3, the two angles the program uses.
- Generators: `generate_units` and `__call__` are generators; they are modelled as the sequences they yield.
- LegacyMain.GridLoop: it is modelled over any bounds lo, hi, n. `LegacyMain.DrawGrid` runs it at -5, 52 and 11.
- Colouring: the per-element loop that appends `SubElement`s in `_main` is modelled as the value `CoverImage.Elements`, since adding to the SVG tree is I/O.
- Command: when both names are unknown it reports the shape name. Which of the two the program reports is decided by `click`'s option parsing, which is not modelled.
- CoverImage.Centroids: it requires non-empty polygons. `np.mean` of an empty polygon is never reached, because every drawn polygon has six or three vertices (`CoverImage.CallPolygons`).
- Numbers.TruncRoot3: it is defined only for non-negative ratios, the only ones the tilings truncate.
- Shapes.HexagonBounds: the bounds are stated exactly, but the tiles do not always cover the canvas, so no coverage property is claimed. There are two reasons.
  - A canvas lower than sqrt3/2 tile steps gets only row t = 0, whose vertices stay within scale / sqrt3 of the top edge. `CoverImage.OneRowUncovered` proves that no vertex reaches the bottom edge when scale^2 < 3 out_height^2. `CoverImage.CoverageFails` shows that the 100 x 8 canvas with scale 10 and padding 1 is such a canvas.
  - A padding factor above 1, the default 1.1 included, leaves gaps between neighbouring tiles by construction. For example, the pixel (5.5, 2) of the default hexagon tiling is in no tile. This case is not proved in the model.
- Shapes.Valid: the model requires a positive `scale`, `padding_factor`, width and height, which the code never checks. It excludes inputs the code accepts:
  - width or height 0, for which the program still draws a non-empty tiling. At width 0 the hexagon columns run from `int(-y_end / 2)` to 0 (11 columns of 21 rows at height 191) and the triangles get two columns. At height 0 there is one hexagon row and two triangle rows;
  - scale 0, for which the program raises ZeroDivisionError at `src/cover_image/shape.py:50`;
  - a negative width, which can leave the lattice empty, so that `np.vstack([])` at `src/cover_image/main.py:61` raises.
- Other files: the root `pattern_generators.py` (unfinished, does not parse) and `cm_from_img.py` (image I/O, unfinished) are not part of this model.

## Findings

| source | as written | input that shows it | evidently intended | confidence | as-written member | corrected member |
|---|---|---|---|---|---|---|
| src/cover_image/pattern_generators.py:16-17 | `(samples - min) / (max - min)` has no guard. A constant sample makes every entry 0 / 0 = NaN. `get_color` then rejects NaN because `0 <= NaN <= 1` is false, and the run stops with "can only convert values in [0, 1] to colors". | `--shape Hexagon --width 1 --height 1` with the default scale 10 and padding 1.1: the canvas holds one hexagon, so the sample has one entry and is constant | report the degenerate sample as such, so that NaN never reaches `get_color` and every rescaled value lies in [0, 1] | not executed | Patterns.RescaleAsWritten, CoverImage.RenderGaussianAsWritten, CoverImage.OneTileGaussian | Patterns.Rescale, Patterns.GaussianProcessPattern, CoverImage.Pattern, CoverImage.Render, CoverImage.RenderGaussian, CoverImage.Command |

Details of the row above:

- **As-written half.** `Patterns.RescaleAsWrittenConstant` shows that the unguarded rescale of a constant sample is all NaN. `CoverImage.OneTileGaussian` shows that on such a canvas `CoverImage.RenderGaussianAsWritten` stops with the colour-range error. `CoverImage.OnePixelIsSmall` shows that the 1 x 1 canvas is one. `CoverImage.RenderGaussianAsWrittenAgrees` shows the same failure on every constant sample of any canvas, and agreement with the corrected pipeline everywhere else.
- **Corrected half.** `Patterns.Rescale` reports `ConstantSample`. `Patterns.RescaleRange` proves every value it returns lies in [0, 1]. `Patterns.GaussianProcessPattern`, `CoverImage.Pattern`, `CoverImage.Render` and `CoverImage.Command` use it. `CoverImage.RenderGaussian` states what the pipeline built on it draws.
