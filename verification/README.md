# draw.c of gfx-engine-05-3d, modelled in Dafny

The repository is a small C graphics engine. It keeps geometry in an "edge
matrix": four rows (x, y, z, w) of columns, `cols` allocated and the first
`lastcol` populated. Shape builders append to this matrix. `draw_lines`
rasterizes it, two columns at a time, with an integer midpoint (Bresenham)
line algorithm. This project models the core of `draw.c` and proves what it
computes.

- `arith.dfy` (module `Arith`): integer facts the other modules need. These
  cover absolute value, Euclidean division pinned down by an interval, and
  row-major index arithmetic.
- `point_buffer.dfy` (module `PointBuffer`): the matrix as an immutable record
  `Matrix(m, cols, lastcol)`, with `add_point`, `add_edge` and the growth rule.
  It also covers what any run of `add_point` calls does to contents and
  capacity.
- `shapes.dfy` (module `Shapes`): `add_box`, and the sphere and torus
  builders.
  - The sampled surface coordinates come from trigonometry. They are
    abstracted as a function `sample(i, k)` of the two loop counters.
  - The loops are proved to add exactly the points of a reference `Grid`, in
    row-major order.
  - `add_sphere` and `add_torus` are proved to turn each sample `p` into the
    dot edge `p -> p + (1, 1, 1)`.
- `raster.dfy` (module `Raster`): `draw_line`. Each of the four octant loops
  returns the pixels it would plot. Each loop is proved equal to `NearestRun`:
  - the driving coordinate takes every value from the left endpoint to the
    right one;
  - the other coordinate is the integer nearest the exact line, with ties
    rounded back toward the start.

  Pixel count, endpoints, unit stepping, the bounding box and the behaviour
  under swapped endpoints follow from that closed form.
- `lines.dfy` (module `Lines`): `draw_lines`. It is the concatenation of
  `draw_line` over the column pairs (0, 1), (2, 3), …, using only the x and y
  rows, truncated to `int` as a C call with `int` parameters does.

Behaviour of the code worth spelling out:

- With `step <= 0` the outer loops at draw.c:93 and draw.c:158 run zero
  times. The division by `step` inside them is never reached, and nothing is
  sampled or appended. `Shapes.AddSphere` and `Shapes.AddTorus` state this
  case.
- In octant 8 (draw.c:325-339) y steps down when `d < 0`, and the decision
  variable is then updated with `d -= B`.
- The twelfth `add_box` call (draw.c:42) is commented "right top" but draws
  the right bottom edge. `Shapes.BoxEdgeLabel` names it by what it draws.

## Model

| member | source | states |
|---|---|---|
| PointBuffer.AddPoint | draw.c:228-238 | A full matrix (lastcol == cols) grows to exactly lastcol + 100 columns; otherwise capacity is unchanged. (x, y, z, 1) is written at the old lastcol, lastcol grows by one, and every earlier column is unchanged. The populated columns are the old ones followed by the new point. |
| PointBuffer.AddEdge | draw.c:247-252 | The start point and then the end point become two consecutive new columns. lastcol grows by exactly 2 and earlier columns are unchanged. |
| PointBuffer.AppendAllPoints | draw.c:228-238 | Any run of add_point calls keeps the earlier points in place. It appends the new points, as homogeneous columns, in call order. |
| PointBuffer.AppendAllConcat | draw.c:228-238 | Adding one list of points and then another equals adding their concatenation. The whole matrix agrees, capacity included. |
| PointBuffer.AppendAllCapacity | draw.c:230-231 | After n insertions the capacity is unchanged if the points fit. Otherwise it grows by the fewest whole steps of 100 columns that make room. |
| PointBuffer.HundredAndOnePoints | draw.c:230-237 | Starting from new_matrix(4, 4), 101 add_point calls grow the matrix once, to 104 columns, and keep all 101 points in order. |
| Shapes.AddBox | draw.c:25-43 | Exactly 24 points (12 edges) are appended for any dimensions, and existing points are kept. Edge k's start and end are the prism edge BoxEdgeLabel(k). |
| Shapes.BoxEdges | draw.c:29-42 | add_box makes twelve add_edge calls. The argument list of call k is the prism edge BoxEdgeLabel(k), running from the upper-left-front side. |
| Shapes.BoxEdgeLabelsBijective | draw.c:29-42 | The twelve add_edge calls and the twelve prism edges correspond one-to-one. No edge is drawn twice and none is missing. |
| Shapes.FourEdgesPerAxis | draw.c:29-42 | Calls 0, 3, 4, 7 draw edges along x; calls 1, 2, 5, 6 along y; calls 8-11 along z. |
| Shapes.BoxEdgesAxisAligned | draw.c:29-42 | Both endpoints of every edge lie in {x, x+width} × {y, y−height} × {z, z−depth}. The end is the start moved by +width, −height or −depth along one axis only. |
| Shapes.AddRow | draw.c:98-104 | The inner sampling loop equals add_point of samples (i, 0) … (i, width − 1), in order. |
| Shapes.GenerateSphere | draw.c:87-108 | The result equals add_point, from new_matrix(4, 4), of step meridians of step + 1 samples each (k = 0 … step). Its populated columns are exactly those samples in loop order. |
| Shapes.GenerateTorus | draw.c:152-173 | The result equals add_point, from new_matrix(4, 4), of step circles of step samples each. Its populated columns are exactly those samples in loop order. |
| Shapes.GridSize | draw.c:93-98 | The nested loops sample rows × width points, and none when either bound is not positive. |
| Shapes.GridCell | draw.c:93-103 | Sample (i, k) is added as point number i · width + k (row-major order). |
| Shapes.AddDots | draw.c:67-70 | Each populated column p of the point matrix becomes two new columns, p and p + (1, 1, 1), in column order. lastcol grows by twice the point count, earlier columns are unchanged, and with no points nothing changes. |
| Shapes.AddSphere | draw.c:61-73 | Exactly 2 · step · (step + 1) columns are appended, none when step <= 0. They form one dot edge (p, p + (1, 1, 1)) per sphere sample, in sampling order, and existing edges are kept. |
| Shapes.AddTorus | draw.c:125-137 | Exactly 2 · step² columns are appended, none when step <= 0. They form one dot edge per torus sample, in sampling order, and existing edges are kept. |
| Lines.DrawLines | draw.c:262-276 | It reports the diagnostic exactly when lastcol < 2, and then plots nothing. Otherwise it plots draw_line of columns (0, 1), (2, 3), … in order, using only their truncated x and y. |
| Lines.PairedPixelsAppend | draw.c:270-275 | Segments are drawn independently: the pixels of an even-length prefix followed by a rest are the prefix's pixels followed by the rest's. |
| Lines.OddColumnIgnored | draw.c:270 | A trailing unpaired column contributes no pixels. |
| Lines.LastSegmentLast | draw.c:270-275 | The final pair of columns is drawn after all the others. |
| Lines.OnlyXYDrawn | draw.c:271-274 | Matrices that agree on the x and y rows plot the same pixels, whatever their z and w rows. |
| Lines.TruncToInt | draw.c:271-274 | Passing a double coordinate to draw_line's int parameters truncates toward zero: the result is never further from zero than the value and less than one unit from it. |
| Raster.CHalf | draw.c:311 | C's `/` in the halvings `B/2` and `A/2` that start the decision variable in all four octants truncates toward zero: the remainder n − 2h is 0 or 1 for n ≥ 0 and 0 or −1 for n < 0. |
| Raster.DecisionChoosesOffset | draw.c:314-319 | The sign test on the decision quantity moves the minor coordinate exactly when the nearest pixel of the next step is one further. |
| Raster.MinorOffsetStep | draw.c:314-318 | Per major step the nearest-pixel offset grows by 0 or 1, never backwards. |
| Raster.ShallowRising | draw.c:309-322 | The octant 1 loop, including its final forced plot, plots exactly NearestRun: x steps every iteration and y steps when d > 0. |
| Raster.ShallowFalling | draw.c:325-339 | The octant 8 loop, level lines included, plots exactly NearestRun: x steps every iteration and y steps down when d < 0. |
| Raster.SteepRising | draw.c:346-359 | The octant 2 loop plots exactly NearestRun: y steps every iteration and x steps when d < 0. |
| Raster.SteepFalling | draw.c:362-375 | The octant 7 loop plots exactly NearestRun: y steps down every iteration and x steps when d > 0. |
| Raster.DrawLine | draw.c:286-377 | It plots NearestLine of the endpoints: exactly max(abs(x1−x0), abs(y1−y0)) + 1 pixels. The first is the left-hand endpoint after the swap and the last is the right-hand one, so both endpoints are plotted. |
| Raster.NearestRunEnds | draw.c:306-377 | The walk has max(dx, abs(dy)) + 1 pixels and begins and ends exactly on the two endpoints. |
| Raster.NearestRunSteps | draw.c:312-372 | Every step advances the driving axis by exactly one (x + 1 when shallow, y ± 1 toward the end when steep). It moves the other axis by 0 or 1 toward the end, so the driving coordinate takes each value once. No pixel leaves the endpoints' bounding box. |
| Raster.SwapEndpoints | draw.c:291-298 | Swapping the endpoints gives the same pixels when x0 ≠ x1. A vertical line (octant 2 one way, octant 7 the other) gives the same column in reverse order. In every case the pixel set is the same. |
| Raster.Diagonal | draw.c:309-322 | (0, 0)–(5, 5) plots exactly the six diagonal pixels. |
| Raster.Horizontal | draw.c:325-339 | (0, 0)–(5, 0) plots exactly the six pixels of the row. |
| Raster.Vertical | draw.c:346-359 | (0, 0)–(0, 5) plots exactly the six pixels of the column. |

## Left out

- The trigonometric sample formulas (draw.c:99-101, 164-166) and the `float`
  x, y, z locals are abstracted. A sample is an arbitrary function of the
  loop counters (i, k).
- The C `double` coordinates are modelled as exact `real` numbers. This
  affects `x + width` and the other sums in add_box (draw.c:29-42), the
  `+ 1` of the dot edges (draw.c:69, 133), and the sums of the samplers.
  The model does no rounding and has no NaN or infinity. For example, in C
  1e16 + 1.0 == 1e16, so the box edges and dot edges there collapse to zero
  length. The model gives them their exact length.
- The `float` loop counters of the generators are modelled as exact integers.
  A `float` counts exactly only up to 2^24, so steps beyond that are not
  modelled.
- `new_matrix` and `grow_matrix`: matrix.c is not part of this model. They
  are modelled by their contracts: the capacity requested, existing columns
  kept, and new columns zero-filled. Allocation failure is not modelled.
- `plot`, `screen` and `color` (display code) are left out. The rasterizer
  returns the plotted pixels in order instead.
- The `printf` diagnostic of `draw_lines` (draw.c:265) is reduced to the
  `diagnosed` result.
- `add_circle` and `add_curve` are empty stubs with no behaviour.
- The temporary point matrices of `add_sphere` and `add_torus` are never
  freed. Memory management is not modelled.
- Lines.TruncToInt: doubles outside the range of `int` are not modelled. In
  C their conversion is undefined.
- Raster.DrawLine: uses unbounded integers. C `int` overflow in
  `2 * (y1 - y0)`, `-2 * (x1 - x0)` and the decision variable is not
  modelled.
