/**
 The growable edge/point matrix of draw.c: four rows (x, y, z, w) of `cols`
 columns, of which the first `lastcol` are populated with homogeneous points.
 Columns are stored as one record each; `m` always holds exactly `cols`
 columns, the unused tail included.
 */
module PointBuffer {

  import Arith

  /** One column of the matrix: a homogeneous point when w == 1. */
  datatype Column = Column(x: real, y: real, z: real, w: real)

  /** A 3D point before it is stored. */
  datatype Point3 = Point3(x: real, y: real, z: real)

  datatype Matrix = Matrix(m: seq<Column>, cols: nat, lastcol: nat)

  /** Columns added by one growth of a full matrix. */
  const GrowthStep: nat := 100

  /** Capacity of the matrices the shape generators start from (new_matrix(4, 4)). */
  const InitialCols: nat := 4

  predicate Valid(b: Matrix)
  {
    && |b.m| == b.cols
    && b.lastcol <= b.cols
    && forall c :: 0 <= c < b.lastcol ==> b.m[c].w == 1.0
  }

  /** The populated columns, in insertion order. */
  function Points(b: Matrix): seq<Column>
    requires Valid(b)
  {
    b.m[..b.lastcol]
  }

  function Homogeneous(p: Point3): Column
  {
    Column(p.x, p.y, p.z, 1.0)
  }

  /** The homogeneous columns of a list of points, in the same order. */
  function Lift(ps: seq<Point3>): seq<Column>
  {
    seq(|ps|, j requires 0 <= j < |ps| => Homogeneous(ps[j]))
  }

  function Zeros(n: nat): (zs: seq<Column>)
    ensures |zs| == n
    ensures forall j :: 0 <= j < n ==> zs[j] == Column(0.0, 0.0, 0.0, 0.0)
  {
    seq(n, _ => Column(0.0, 0.0, 0.0, 0.0))
  }

  /** new_matrix: an empty matrix with room for `cols` columns. */
  function NewMatrix(cols: nat): (r: Matrix)
    ensures Valid(r)
    ensures r.cols == cols && Points(r) == []
  {
    Matrix(Zeros(cols), cols, 0)
  }

  /** grow_matrix: enlarge to `newCols` columns, keeping every existing column. */
  function GrowMatrix(b: Matrix, newCols: nat): (r: Matrix)
    requires Valid(b) && newCols >= b.cols
    ensures Valid(r)
    ensures r.cols == newCols && r.lastcol == b.lastcol
    ensures r.m[..b.cols] == b.m
    ensures Points(r) == Points(b)
  {
    var r := Matrix(b.m + Zeros(newCols - b.cols), newCols, b.lastcol);
    assert r.m[..b.cols] == b.m;
    r
  }

  /** add_point: store (x, y, z, 1) in the next column, growing a full matrix by 100 first. */
  function AddPoint(b: Matrix, p: Point3): (r: Matrix)
    requires Valid(b)
    ensures Valid(r)
    ensures r.cols == (if b.lastcol == b.cols then b.lastcol + GrowthStep else b.cols)
    ensures r.lastcol == b.lastcol + 1
    ensures r.m[b.lastcol] == Homogeneous(p)
    ensures forall c :: 0 <= c < b.lastcol ==> r.m[c] == b.m[c]
    ensures Points(r) == Points(b) + [Homogeneous(p)]
  {
    var g := if b.lastcol == b.cols then GrowMatrix(b, b.lastcol + GrowthStep) else b;
    var r := g.(m := g.m[g.lastcol := Homogeneous(p)], lastcol := g.lastcol + 1);
    assert Points(r) == Points(b) + [Homogeneous(p)] by {
      assert forall c :: 0 <= c < b.lastcol ==> g.m[c] == b.m[c];
    }
    r
  }

  /** add_edge: the start point, then the end point, as two consecutive columns. */
  function AddEdge(b: Matrix, p0: Point3, p1: Point3): (r: Matrix)
    requires Valid(b)
    ensures Valid(r)
    ensures r.lastcol == b.lastcol + 2
    ensures r.m[b.lastcol] == Homogeneous(p0) && r.m[b.lastcol + 1] == Homogeneous(p1)
    ensures forall c :: 0 <= c < b.lastcol ==> r.m[c] == b.m[c]
    ensures Points(r) == Points(b) + [Homogeneous(p0), Homogeneous(p1)]
  {
    AddPoint(AddPoint(b, p0), p1)
  }

  /** Successive add_point calls, one per point, in order. */
  function AppendAll(b: Matrix, ps: seq<Point3>): (r: Matrix)
    requires Valid(b)
    ensures Valid(r)
    decreases |ps|
  {
    if ps == [] then b else AppendAll(AddPoint(b, ps[0]), ps[1..])
  }

  /**
   The capacity after `n` further insertions into a matrix with `cols`
   columns of which `used` are populated: unchanged while the points fit,
   otherwise enlarged by the fewest whole growth steps that make room.
   */
  function CapacityAfter(cols: nat, used: nat, n: nat): nat
  {
    if used + n <= cols then cols
    else cols + GrowthStep * ((used + n - cols + GrowthStep - 1) / GrowthStep)
  }

  /** Appending is transparent: earlier points keep their values and order, and the new ones follow. */
  lemma {:induction false} AppendAllPoints(b: Matrix, ps: seq<Point3>)
    requires Valid(b)
    ensures Points(AppendAll(b, ps)) == Points(b) + Lift(ps)
    ensures AppendAll(b, ps).lastcol == b.lastcol + |ps|
    decreases |ps|
  {
    if ps != [] {
      var b1 := AddPoint(b, ps[0]);
      AppendAllPoints(b1, ps[1..]);
      assert Lift(ps) == [Homogeneous(ps[0])] + Lift(ps[1..]);
    }
  }

  /** Inserting one list and then another is inserting their concatenation. */
  lemma {:induction false} AppendAllConcat(b: Matrix, xs: seq<Point3>, ys: seq<Point3>)
    requires Valid(b)
    ensures AppendAll(AppendAll(b, xs), ys) == AppendAll(b, xs + ys)
    decreases |xs|
  {
    if xs == [] {
      assert xs + ys == ys;
    } else {
      assert (xs + ys)[0] == xs[0];
      assert (xs + ys)[1..] == xs[1..] + ys;
      AppendAllConcat(AddPoint(b, xs[0]), xs[1..], ys);
    }
  }

  /** Growth policy over many insertions: capacity grows only in steps of 100 and only when full. */
  lemma {:induction false} AppendAllCapacity(b: Matrix, ps: seq<Point3>)
    requires Valid(b)
    ensures AppendAll(b, ps).cols == CapacityAfter(b.cols, b.lastcol, |ps|)
    decreases |ps|
  {
    if ps != [] {
      var b1 := AddPoint(b, ps[0]);
      AppendAllCapacity(b1, ps[1..]);
      if b.lastcol == b.cols {
        // one growth now, and the rest of the steps for the remaining n - 1 points
        var n := |ps|;
        var q := (n - 1) / GrowthStep;
        Arith.DivUnique(n + GrowthStep - 1, GrowthStep, q + 1);
      }
    }
  }

  /** Starting from new_matrix(4, 4), 101 insertions grow the matrix once, to 104 columns, and keep all 101 points in order. */
  lemma HundredAndOnePoints(ps: seq<Point3>)
    requires |ps| == 101
    ensures AppendAll(NewMatrix(InitialCols), ps).cols == 104
    ensures Points(AppendAll(NewMatrix(InitialCols), ps)) == Lift(ps)
  {
    AppendAllCapacity(NewMatrix(InitialCols), ps);
    AppendAllPoints(NewMatrix(InitialCols), ps);
  }
}
