/**
 The shape builders of draw.c: the box, whose twelve edges are appended
 directly, and the sphere and torus, whose surface samples are each appended
 as a one-unit "dot" edge.  The trigonometric sample coordinates are not
 modelled: a sampler is a function from the loop indices (i, k) to a point.
 */
module Shapes {

  import opened PointBuffer
  import opened Arith

  // ---------------------------------------------------------------------
  // Box

  /** A rectangular prism by its upper-left-front corner and its dimensions. */
  datatype Box = Box(x: real, y: real, z: real, width: real, height: real, depth: real)

  datatype Axis = AlongX | AlongY | AlongZ

  /** A corner of the prism: `right` selects x + width, `low` y - height, `back` z - depth. */
  function Corner(b: Box, right: bool, low: bool, back: bool): Point3
  {
    Point3(if right then b.x + b.width else b.x,
           if low then b.y - b.height else b.y,
           if back then b.z - b.depth else b.z)
  }

  /**
   The prism edge parallel to axis `a` whose position on the other two axes,
   taken in x, y, z order, is selected by `p` and `q`; it runs from the
   upper-left-front side to the opposite one.
   */
  function PrismEdge(b: Box, a: Axis, p: bool, q: bool): (Point3, Point3)
  {
    match a
    case AlongX => (Corner(b, false, p, q), Corner(b, true, p, q))
    case AlongY => (Corner(b, p, false, q), Corner(b, p, true, q))
    case AlongZ => (Corner(b, p, q, false), Corner(b, p, q, true))
  }

  /** Which prism edge the k-th add_edge call of add_box draws. */
  function BoxEdgeLabel(k: int): (Axis, bool, bool)
  {
    if k == 0 then (AlongX, false, false)       // front top
    else if k == 1 then (AlongY, false, false)  // front left
    else if k == 2 then (AlongY, true, false)   // front right
    else if k == 3 then (AlongX, true, false)   // front bottom
    else if k == 4 then (AlongX, false, true)   // back top
    else if k == 5 then (AlongY, false, true)   // back left
    else if k == 6 then (AlongY, true, true)    // back right
    else if k == 7 then (AlongX, true, true)    // back bottom
    else if k == 8 then (AlongZ, false, false)  // left top
    else if k == 9 then (AlongZ, false, true)   // left bottom
    else if k == 10 then (AlongZ, true, false)  // right top
    else (AlongZ, true, true)                   // right bottom
  }

  /** The columns add_edge appends for a list of edges: start, then end, edge after edge. */
  function EdgeEnds(edges: seq<(Point3, Point3)>): (cs: seq<Column>)
    ensures |cs| == 2 * |edges|
    ensures forall k :: 0 <= k < |edges| ==> cs[2 * k] == Homogeneous(edges[k].0) && cs[2 * k + 1] == Homogeneous(edges[k].1)
    decreases |edges|
  {
    if edges == [] then []
    else
      var rest := EdgeEnds(edges[1..]);
      var cs := [Homogeneous(edges[0].0), Homogeneous(edges[0].1)] + rest;
      assert forall k :: 0 <= k < |edges| ==> cs[2 * k] == Homogeneous(edges[k].0) && cs[2 * k + 1] == Homogeneous(edges[k].1) by {
        forall k | 1 <= k < |edges|
          ensures cs[2 * k] == Homogeneous(edges[k].0) && cs[2 * k + 1] == Homogeneous(edges[k].1)
        {
          var k' := k - 1;
          assert edges[1..][k'] == edges[k];
          assert cs[2 * k] == rest[2 * k'] && cs[2 * k + 1] == rest[2 * k' + 1];
        }
      }
      cs
  }

  /** add_edge for each pair in turn. */
  function AddEdges(m: Matrix, edges: seq<(Point3, Point3)>): (r: Matrix)
    requires Valid(m)
    ensures Valid(r)
    ensures Points(r) == Points(m) + EdgeEnds(edges)
    decreases |edges|
  {
    if edges == [] then m
    else
      var m1 := AddEdge(m, edges[0].0, edges[0].1);
      var r := AddEdges(m1, edges[1..]);
      assert EdgeEnds(edges) == [Homogeneous(edges[0].0), Homogeneous(edges[0].1)] + EdgeEnds(edges[1..]);
      r
  }

  /**
   The twelve (start, end) pairs add_box passes to add_edge, in its order and
   with its arithmetic.  Each is the prism edge its comment names, running
   from the upper-left-front side; the twelfth is the right bottom edge.
   */
  function BoxEdges(b: Box): (es: seq<(Point3, Point3)>)
    ensures |es| == 12
    ensures forall k :: 0 <= k < 12 ==> es[k] == PrismEdge(b, BoxEdgeLabel(k).0, BoxEdgeLabel(k).1, BoxEdgeLabel(k).2)
  {
    var x, y, z := b.x, b.y, b.z;
    var width, height, depth := b.width, b.height, b.depth;
    [ (Point3(x, y, z), Point3(x + width, y, z)),                                     // front top
      (Point3(x, y, z), Point3(x, y - height, z)),                                    // front left
      (Point3(x + width, y, z), Point3(x + width, y - height, z)),                    // front right
      (Point3(x, y - height, z), Point3(x + width, y - height, z)),                   // front bottom
      (Point3(x, y, z - depth), Point3(x + width, y, z - depth)),                     // back top
      (Point3(x, y, z - depth), Point3(x, y - height, z - depth)),                    // back left
      (Point3(x + width, y, z - depth), Point3(x + width, y - height, z - depth)),    // back right
      (Point3(x, y - height, z - depth), Point3(x + width, y - height, z - depth)),   // back bottom
      (Point3(x, y, z), Point3(x, y, z - depth)),                                     // left top
      (Point3(x, y - height, z), Point3(x, y - height, z - depth)),                   // left bottom
      (Point3(x + width, y, z), Point3(x + width, y, z - depth)),                     // right top
      (Point3(x + width, y - height, z), Point3(x + width, y - height, z - depth)) ]  // right bottom
  }

  /**
   add_box: 24 points, 12 edges, whatever the dimensions; edge k is the
   prism edge BoxEdgeLabel(k), and the points already present are kept.
   */
  function AddBox(m: Matrix, b: Box): (r: Matrix)
    requires Valid(m)
    ensures Valid(r)
    ensures r.lastcol == m.lastcol + 24
    ensures Points(r)[..m.lastcol] == Points(m)
    ensures forall k :: 0 <= k < 12 ==>
      && Points(r)[m.lastcol + 2 * k] == Homogeneous(PrismEdge(b, BoxEdgeLabel(k).0, BoxEdgeLabel(k).1, BoxEdgeLabel(k).2).0)
      && Points(r)[m.lastcol + 2 * k + 1] == Homogeneous(PrismEdge(b, BoxEdgeLabel(k).0, BoxEdgeLabel(k).1, BoxEdgeLabel(k).2).1)
  {
    var r := AddEdges(m, BoxEdges(b));
    assert Points(r)[..m.lastcol] == Points(m);
    r
  }

  /** Where add_box puts the prism edge (a, p, q) in its sequence of twelve add_edge calls. */
  function LabelIndex(a: Axis, p: bool, q: bool): int
  {
    match a
    case AlongX => if !p && !q then 0 else if p && !q then 3 else if !p && q then 4 else 7
    case AlongY => if !p && !q then 1 else if p && !q then 2 else if !p && q then 5 else 6
    case AlongZ => if !p && !q then 8 else if !p && q then 9 else if p && !q then 10 else 11
  }

  /**
   The twelve add_edge calls draw the twelve prism edges, each exactly once:
   the call order and the edges are in one-to-one correspondence.
   */
  lemma BoxEdgeLabelsBijective()
    ensures forall k :: 0 <= k < 12 ==>
      LabelIndex(BoxEdgeLabel(k).0, BoxEdgeLabel(k).1, BoxEdgeLabel(k).2) == k
    ensures forall a, p, q :: 0 <= LabelIndex(a, p, q) < 12 && BoxEdgeLabel(LabelIndex(a, p, q)) == (a, p, q)
  {
  }

  /** Four edges run along each axis: calls 0, 3, 4, 7 along x, 1, 2, 5, 6 along y, 8 to 11 along z. */
  lemma FourEdgesPerAxis()
    ensures forall k :: 0 <= k < 12 ==>
      && (BoxEdgeLabel(k).0 == AlongX <==> k in {0, 3, 4, 7})
      && (BoxEdgeLabel(k).0 == AlongY <==> k in {1, 2, 5, 6})
      && (BoxEdgeLabel(k).0 == AlongZ <==> 8 <= k)
  {
  }

  /** The displacement along a prism edge parallel to `a`, from its start to its end. */
  function Extent(b: Box, a: Axis): Point3
  {
    match a
    case AlongX => Point3(b.width, 0.0, 0.0)
    case AlongY => Point3(0.0, -b.height, 0.0)
    case AlongZ => Point3(0.0, 0.0, -b.depth)
  }

  function Offset(p: Point3, d: Point3): Point3
  {
    Point3(p.x + d.x, p.y + d.y, p.z + d.z)
  }

  /** A point of {x, x + width} x {y, y - height} x {z, z - depth}. */
  predicate IsCorner(b: Box, p: Point3)
  {
    && (p.x == b.x || p.x == b.x + b.width)
    && (p.y == b.y || p.y == b.y - b.height)
    && (p.z == b.z || p.z == b.z - b.depth)
  }

  /**
   Every box edge joins two corners of the prism and is axis-aligned: its end
   is its start moved by the width, height or depth along the edge's axis and
   not at all along the other two.
   */
  lemma BoxEdgesAxisAligned(b: Box)
    ensures |BoxEdges(b)| == 12
    ensures forall k :: 0 <= k < 12 ==>
      && IsCorner(b, BoxEdges(b)[k].0) && IsCorner(b, BoxEdges(b)[k].1)
      && BoxEdges(b)[k].1 == Offset(BoxEdges(b)[k].0, Extent(b, BoxEdgeLabel(k).0))
  {
  }

  // ---------------------------------------------------------------------
  // Sphere and torus

  /** The end of a "dot" edge: the sample moved one unit along each axis. */
  function Nudge(p: Point3): Point3
  {
    Point3(p.x + 1.0, p.y + 1.0, p.z + 1.0)
  }

  /** Samples (i, 0) .. (i, width - 1): one pass of the inner loop of the generators. */
  function SampleRow(i: int, width: int, sample: (int, int) -> Point3): (ps: seq<Point3>)
    ensures |ps| == (if width > 0 then width else 0)
  {
    if width <= 0 then [] else seq(width, k => sample(i, k))
  }

  /**
   The points of the generators' nested loops, in the order they are added:
   row i = 0 .. rows - 1, and within it k = 0 .. width - 1.  With no rows
   (rows <= 0) nothing is sampled.
   */
  function Grid(rows: int, width: int, sample: (int, int) -> Point3): seq<Point3>
    decreases if rows > 0 then rows else 0
  {
    if rows <= 0 then [] else Grid(rows - 1, width, sample) + SampleRow(rows - 1, width, sample)
  }

  /** The grid holds rows * width points. */
  lemma {:induction false} GridSize(rows: int, width: int, sample: (int, int) -> Point3)
    ensures |Grid(rows, width, sample)| == (if rows > 0 && width > 0 then rows * width else 0)
    decreases if rows > 0 then rows else 0
  {
    if rows > 0 {
      GridSize(rows - 1, width, sample);
      if width > 0 {
        assert (rows - 1) * width + width == rows * width;
      }
    }
  }

  /** Sample (i, k) is point i * width + k of the grid: row-major order. */
  lemma {:induction false} GridCell(rows: int, width: int, sample: (int, int) -> Point3, i: int, k: int)
    requires 0 <= i < rows && 0 <= k < width
    ensures i * width + k < |Grid(rows, width, sample)|
    ensures Grid(rows, width, sample)[i * width + k] == sample(i, k)
    decreases rows
  {
    GridSize(rows - 1, width, sample);
    GridSize(rows, width, sample);
    RowBound(i, k, rows, width);
    if i < rows - 1 {
      GridCell(rows - 1, width, sample, i, k);
    } else {
      assert (rows - 1) * width + k == i * width + k;
    }
  }

  /** The inner loop of the generators: add_point of samples (i, 0) .. (i, width - 1), in order. */
  method AddRow(r0: Matrix, i: int, width: int, sample: (int, int) -> Point3) returns (r: Matrix)
    requires Valid(r0)
    ensures Valid(r)
    ensures r == AppendAll(r0, SampleRow(i, width, sample))
  {
    ghost var row := SampleRow(i, width, sample);
    r := r0;
    var k := 0;
    assert row[..k] == [];
    while k < width
      invariant 0 <= k && (width > 0 ==> k <= width) && (width <= 0 ==> k == 0)
      invariant Valid(r)
      invariant r == AppendAll(r0, row[..k])
    {
      AppendAllConcat(r0, row[..k], [sample(i, k)]);
      assert row[..k] + [sample(i, k)] == row[..k + 1];
      r := AddPoint(r, sample(i, k));
      k := k + 1;
    }
    assert row[..k] == row;
  }

  /**
   generate_sphere: starting from new_matrix(4, 4), add_point of sample (i, k)
   for each of `step` meridians i = 0 .. step - 1 and, on each, the step + 1
   samples k = 0 .. step.
   */
  method GenerateSphere(step: int, sample: (int, int) -> Point3) returns (r: Matrix)
    ensures Valid(r)
    ensures r == AppendAll(NewMatrix(InitialCols), Grid(step, step + 1, sample))
    ensures Points(r) == Lift(Grid(step, step + 1, sample))
  {
    var start := NewMatrix(InitialCols);
    r := start;
    var i := 0;
    while i < step
      invariant 0 <= i && (step > 0 ==> i <= step) && (step <= 0 ==> i == 0)
      invariant Valid(r)
      invariant r == AppendAll(start, Grid(i, step + 1, sample))
    {
      r := AddRow(r, i, step + 1, sample);
      AppendAllConcat(start, Grid(i, step + 1, sample), SampleRow(i, step + 1, sample));
      i := i + 1;
    }
    assert Grid(i, step + 1, sample) == Grid(step, step + 1, sample);
    AppendAllPoints(start, Grid(step, step + 1, sample));
  }

  /**
   generate_torus: starting from new_matrix(4, 4), add_point of sample (i, k)
   for each of `step` circles i = 0 .. step - 1 and, on each, the `step`
   samples k = 0 .. step - 1.
   */
  method GenerateTorus(step: int, sample: (int, int) -> Point3) returns (r: Matrix)
    ensures Valid(r)
    ensures r == AppendAll(NewMatrix(InitialCols), Grid(step, step, sample))
    ensures Points(r) == Lift(Grid(step, step, sample))
  {
    var start := NewMatrix(InitialCols);
    r := start;
    var i := 0;
    while i < step
      invariant 0 <= i && (step > 0 ==> i <= step) && (step <= 0 ==> i == 0)
      invariant Valid(r)
      invariant r == AppendAll(start, Grid(i, step, sample))
    {
      r := AddRow(r, i, step, sample);
      AppendAllConcat(start, Grid(i, step, sample), SampleRow(i, step, sample));
      i := i + 1;
    }
    assert Grid(i, step, sample) == Grid(step, step, sample);
    AppendAllPoints(start, Grid(step, step, sample));
  }

  /**
   The loop shared by add_sphere and add_torus: every populated column p of
   `points` becomes the edge p -> p + (1, 1, 1), in column order.
   */
  method AddDots(edges: Matrix, points: Matrix) returns (r: Matrix)
    requires Valid(edges) && Valid(points)
    ensures Valid(r)
    ensures r.lastcol == edges.lastcol + 2 * points.lastcol
    ensures points.lastcol == 0 ==> r == edges
    ensures forall c :: 0 <= c < edges.lastcol ==> r.m[c] == edges.m[c]
    ensures forall j :: 0 <= j < points.lastcol ==>
      && r.m[edges.lastcol + 2 * j] == points.m[j]
      && r.m[edges.lastcol + 2 * j + 1] == Homogeneous(Nudge(Point3(points.m[j].x, points.m[j].y, points.m[j].z)))
  {
    r := edges;
    var i := 0;
    while i < points.lastcol
      invariant 0 <= i <= points.lastcol
      invariant Valid(r)
      invariant r.lastcol == edges.lastcol + 2 * i
      invariant i == 0 ==> r == edges
      invariant forall c :: 0 <= c < edges.lastcol ==> r.m[c] == edges.m[c]
      invariant forall j :: 0 <= j < i ==>
        && r.m[edges.lastcol + 2 * j] == points.m[j]
        && r.m[edges.lastcol + 2 * j + 1] == Homogeneous(Nudge(Point3(points.m[j].x, points.m[j].y, points.m[j].z)))
    {
      var p := Point3(points.m[i].x, points.m[i].y, points.m[i].z);
      r := AddEdge(r, p, Nudge(p));
      i := i + 1;
    }
  }

  /**
   add_sphere: one dot edge per sphere sample, in generation order (none
   when step <= 0); by GridCell, sample (i, k) is dot i * (step + 1) + k.
   */
  method AddSphere(edges: Matrix, step: int, sample: (int, int) -> Point3) returns (r: Matrix)
    requires Valid(edges)
    ensures Valid(r)
    ensures r.lastcol == edges.lastcol + 2 * |Grid(step, step + 1, sample)|
    ensures r.lastcol == edges.lastcol + 2 * (if step >= 1 then step * (step + 1) else 0)
    ensures step <= 0 ==> r == edges
    ensures forall c :: 0 <= c < edges.lastcol ==> r.m[c] == edges.m[c]
    ensures forall j :: 0 <= j < |Grid(step, step + 1, sample)| ==>
      && r.m[edges.lastcol + 2 * j] == Homogeneous(Grid(step, step + 1, sample)[j])
      && r.m[edges.lastcol + 2 * j + 1] == Homogeneous(Nudge(Grid(step, step + 1, sample)[j]))
  {
    var points := GenerateSphere(step, sample);
    r := AddDots(edges, points);
    ghost var g := Grid(step, step + 1, sample);
    GridSize(step, step + 1, sample);
    forall j | 0 <= j < |g|
      ensures r.m[edges.lastcol + 2 * j] == Homogeneous(g[j])
      ensures r.m[edges.lastcol + 2 * j + 1] == Homogeneous(Nudge(g[j]))
    {
      assert points.m[j] == Points(points)[j];
    }
  }

  /**
   add_torus: one dot edge per torus sample, in generation order (none
   when step <= 0); by GridCell, sample (i, k) is dot i * step + k.
   */
  method AddTorus(edges: Matrix, step: int, sample: (int, int) -> Point3) returns (r: Matrix)
    requires Valid(edges)
    ensures Valid(r)
    ensures r.lastcol == edges.lastcol + 2 * |Grid(step, step, sample)|
    ensures r.lastcol == edges.lastcol + 2 * (if step >= 1 then step * step else 0)
    ensures step <= 0 ==> r == edges
    ensures forall c :: 0 <= c < edges.lastcol ==> r.m[c] == edges.m[c]
    ensures forall j :: 0 <= j < |Grid(step, step, sample)| ==>
      && r.m[edges.lastcol + 2 * j] == Homogeneous(Grid(step, step, sample)[j])
      && r.m[edges.lastcol + 2 * j + 1] == Homogeneous(Nudge(Grid(step, step, sample)[j]))
  {
    var points := GenerateTorus(step, sample);
    r := AddDots(edges, points);
    ghost var g := Grid(step, step, sample);
    GridSize(step, step, sample);
    forall j | 0 <= j < |g|
      ensures r.m[edges.lastcol + 2 * j] == Homogeneous(g[j])
      ensures r.m[edges.lastcol + 2 * j + 1] == Homogeneous(Nudge(g[j]))
    {
      assert points.m[j] == Points(points)[j];
    }
  }
}
