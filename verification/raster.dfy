/**
 The integer line rasterizer `draw_line` of draw.c.  Instead of calling the
 pixel sink, every octant loop returns the pixels it would plot, in plotting
 order.  Each loop is proved to produce exactly `NearestLine`, a closed-form
 description of the line: the driving coordinate takes every value from the
 left endpoint to the right one, and the other coordinate is the integer
 nearest to the exact line, halves rounded back toward the start.
 */
module Raster {

  import opened Arith

  datatype Pixel = Pixel(x: int, y: int)

  /** C's `/` rounds toward zero; on the even values A and B it halves exactly. */
  function CHalf(n: int): (h: int)
    ensures n >= 0 ==> 0 <= n - 2 * h <= 1
    ensures n < 0 ==> -1 <= n - 2 * h <= 0
  {
    if n >= 0 then n / 2 else -((-n) / 2)
  }

  lemma CHalfEven(k: int)
    ensures CHalf(2 * k) == k
  {
  }

  /**
   The offset along the minor axis after `i` steps along the major axis, for
   a run of `major` steps that moves `minor` units along the minor axis: the
   integer nearest to minor * i / major, a tie going to the smaller one.
   */
  function MinorOffset(i: int, major: nat, minor: nat): int
  {
    if major == 0 then 0 else (2 * minor * i + major - 1) / (2 * major)
  }

  /** `base` moved `k` units in the direction of `delta`; not moved when delta is 0. */
  function Toward(base: int, delta: int, k: int): int
  {
    if delta < 0 then base - k else if delta > 0 then base + k else base
  }

  /** The pixel after `t` steps along x of a shallow line of extents dx, dy. */
  function ShallowPixel(x0: int, y0: int, dx: nat, dy: int, t: int): Pixel
  {
    Pixel(x0 + t, Toward(y0, dy, MinorOffset(t, dx, Abs(dy))))
  }

  /** The pixel after `t` steps along y of a steep line of extents dx, dy. */
  function SteepPixel(x0: int, y0: int, dx: nat, dy: int, t: int): Pixel
  {
    Pixel(x0 + MinorOffset(t, Abs(dy), dx), Toward(y0, dy, t))
  }

  /**
   The pixels of a left-to-right line: one per column when the line is
   shallow (|dy| <= dx), one per row otherwise.
   */
  function NearestRun(x0: int, y0: int, x1: int, y1: int): seq<Pixel>
    requires x0 <= x1
  {
    var dx := x1 - x0;
    var dy := y1 - y0;
    if dx >= Abs(dy) then seq(dx + 1, t => ShallowPixel(x0, y0, dx, dy, t))
    else seq(Abs(dy) + 1, t => SteepPixel(x0, y0, dx, dy, t))
  }

  lemma ShallowRunIs(x0: int, y0: int, x1: int, y1: int, p: seq<Pixel>)
    requires x0 <= x1 && x1 - x0 >= Abs(y1 - y0)
    requires |p| == x1 - x0 + 1
    requires forall t :: 0 <= t < |p| ==> p[t] == ShallowPixel(x0, y0, x1 - x0, y1 - y0, t)
    ensures p == NearestRun(x0, y0, x1, y1)
  {
  }

  /** A shallow falling walk measured downward from y0 is the nearest-pixel run; a level one stays on row y0. */
  lemma FallingRunIs(x0: int, y0: int, x1: int, y1: int, p: seq<Pixel>)
    requires x0 <= x1 && 0 <= y0 - y1 <= x1 - x0
    requires |p| == x1 - x0 + 1
    requires forall t :: 0 <= t < |p| ==> p[t] == Pixel(x0 + t, y0 - MinorOffset(t, x1 - x0, y0 - y1))
    ensures p == NearestRun(x0, y0, x1, y1)
  {
  }

  lemma SteepRunIs(x0: int, y0: int, x1: int, y1: int, p: seq<Pixel>)
    requires x0 <= x1 && x1 - x0 < Abs(y1 - y0)
    requires |p| == Abs(y1 - y0) + 1
    requires forall t :: 0 <= t < |p| ==> p[t] == SteepPixel(x0, y0, x1 - x0, y1 - y0, t)
    ensures p == NearestRun(x0, y0, x1, y1)
  {
  }

  /** The pixels of the line between two endpoints given in either order, walked left to right. */
  function NearestLine(x0: int, y0: int, x1: int, y1: int): seq<Pixel>
  {
    if x0 > x1 then NearestRun(x1, y1, x0, y0) else NearestRun(x0, y0, x1, y1)
  }

  function Reverse<T>(s: seq<T>): (r: seq<T>)
    ensures |r| == |s|
    ensures forall i :: 0 <= i < |s| ==> r[i] == s[|s| - 1 - i]
  {
    if s == [] then [] else Reverse(s[1..]) + [s[0]]
  }

  // ---------------------------------------------------------------------
  // The rounding rule

  /** The offset lies within half a unit of the exact value minor * i / major, a tie going back toward the start. */
  lemma MinorOffsetBounds(i: int, major: nat, minor: nat)
    requires major > 0
    ensures 2 * minor * i - major <= 2 * major * MinorOffset(i, major, minor) < 2 * minor * i + major
  {
  }

  /** Conversely, any integer within those bounds is the offset. */
  lemma MinorOffsetIs(i: int, major: nat, minor: nat, j: int)
    requires major > 0
    requires 2 * minor * i - major <= 2 * major * j < 2 * minor * i + major
    ensures MinorOffset(i, major, minor) == j
  {
    assert j * (2 * major) == 2 * major * j;
    DivUnique(2 * minor * i + major - 1, 2 * major, j);
  }

  /** The offset starts at 0 and ends at the full minor extent. */
  lemma MinorOffsetEnds(major: nat, minor: nat)
    requires major > 0
    ensures MinorOffset(0, major, minor) == 0
    ensures MinorOffset(major, major, minor) == minor
  {
    MinorOffsetIs(0, major, minor, 0);
    assert 2 * minor * major == 2 * major * minor;
    MinorOffsetIs(major, major, minor, minor);
  }

  /** A run with no minor extent stays on its starting row or column. */
  lemma MinorOffsetFlat(i: int, major: nat)
    requires major > 0
    ensures MinorOffset(i, major, 0) == 0
  {
  }

  /** Within a run the offset never leaves [0, minor]. */
  lemma MinorOffsetRange(i: int, major: nat, minor: nat)
    requires major > 0 && minor <= major && 0 <= i <= major
    ensures 0 <= MinorOffset(i, major, minor) <= minor
  {
    var j := MinorOffset(i, major, minor);
    MinorOffsetBounds(i, major, minor);
    MulLeft(0, i, minor);
    MulLeft(i, major, minor);
    assert minor * major == major * minor;
    assert (j - minor) * (2 * major) == 2 * major * j - 2 * major * minor;
    MulPos(j, 2 * major);
    MulPos(j - minor, 2 * major);
  }

  /** Each major step moves the offset by 0 or 1, never back. */
  lemma MinorOffsetStep(i: int, major: nat, minor: nat)
    requires major > 0 && minor <= major
    ensures MinorOffset(i, major, minor) <= MinorOffset(i + 1, major, minor) <= MinorOffset(i, major, minor) + 1
  {
    var j := MinorOffset(i, major, minor);
    var j' := MinorOffset(i + 1, major, minor);
    MinorOffsetBounds(i, major, minor);
    MinorOffsetBounds(i + 1, major, minor);
    assert 2 * minor * (i + 1) == 2 * minor * i + 2 * minor;
    assert (j' - j) * (2 * major) == 2 * major * j' - 2 * major * j;
    assert (j' - j - 1) * (2 * major) == 2 * major * j' - 2 * major * j - 2 * major;
    MulPos(j' - j, 2 * major);
    MulPos(j' - j - 1, 2 * major);
  }

  /**
   Twice the signed distance, scaled by the major extent, from the exact line
   to the midpoint between the two candidate pixels of the next major step.
   Every octant's `d` is this quantity or its negation.
   */
  function Decision(i: int, j: int, major: int, minor: int): int
  {
    2 * minor * (i + 1) - major * (2 * j + 1)
  }

  lemma DecisionStep(i: int, j: int, major: int, minor: int)
    ensures Decision(i + 1, j, major, minor) == Decision(i, j, major, minor) + 2 * minor
    ensures Decision(i + 1, j + 1, major, minor) == Decision(i, j, major, minor) + 2 * minor - 2 * major
  {
  }

  /** The next offset is one further exactly when the decision quantity is positive. */
  lemma DecisionChoosesOffset(i: int, j: int, major: nat, minor: nat)
    requires major > 0 && minor <= major
    requires j == MinorOffset(i, major, minor)
    ensures MinorOffset(i + 1, major, minor) == if Decision(i, j, major, minor) > 0 then j + 1 else j
  {
    MinorOffsetBounds(i, major, minor);
    assert 2 * minor * (i + 1) == 2 * minor * i + 2 * minor;
    if Decision(i, j, major, minor) > 0 {
      assert 2 * major * (j + 1) == 2 * major * j + 2 * major;
      MinorOffsetIs(i + 1, major, minor, j + 1);
    } else {
      MinorOffsetIs(i + 1, major, minor, j);
    }
  }

  // ---------------------------------------------------------------------
  // The four octant loops of draw_line, on endpoints already ordered left to right

  /** Octant 1: shallow and rising; x steps every iteration, y when d > 0. */
  method ShallowRising(x0: int, y0: int, x1: int, y1: int, A: int, B: int) returns (pixels: seq<Pixel>)
    requires 0 < y1 - y0 <= x1 - x0
    requires A == 2 * (y1 - y0) && B == -2 * (x1 - x0)
    ensures pixels == NearestRun(x0, y0, x1, y1)
  {
    ghost var dx, dy := x1 - x0, y1 - y0;
    var x, y := x0, y0;
    var d := A + CHalf(B);
    CHalfEven(-(x1 - x0));
    MinorOffsetEnds(dx, dy);
    pixels := [];
    while x < x1
      invariant x0 <= x <= x1
      invariant |pixels| == x - x0
      invariant forall t :: 0 <= t < |pixels| ==> pixels[t] == ShallowPixel(x0, y0, dx, dy, t)
      invariant y - y0 == MinorOffset(x - x0, dx, dy)
      invariant d == Decision(x - x0, y - y0, dx, dy)
    {
      DecisionStep(x - x0, y - y0, dx, dy);
      DecisionChoosesOffset(x - x0, y - y0, dx, dy);
      pixels := pixels + [Pixel(x, y)];
      if d > 0 {
        y := y + 1;
        d := d + B;
      }
      x := x + 1;
      d := d + A;
    }
    pixels := pixels + [Pixel(x1, y1)];
    ShallowRunIs(x0, y0, x1, y1, pixels);
  }

  /** Octant 8: shallow and level or falling; x steps every iteration, y down when d < 0. */
  method ShallowFalling(x0: int, y0: int, x1: int, y1: int, A: int, B: int) returns (pixels: seq<Pixel>)
    requires x0 <= x1 && 0 <= y0 - y1 <= x1 - x0
    requires A == 2 * (y1 - y0) && B == -2 * (x1 - x0)
    ensures pixels == NearestRun(x0, y0, x1, y1)
  {
    ghost var dx, e := x1 - x0, y0 - y1;
    var x, y := x0, y0;
    var d := A - CHalf(B);
    CHalfEven(-(x1 - x0));
    if dx > 0 {
      MinorOffsetEnds(dx, e);
    }
    pixels := [];
    while x < x1
      invariant x0 <= x <= x1
      invariant |pixels| == x - x0
      invariant forall t :: 0 <= t < |pixels| ==> pixels[t] == Pixel(x0 + t, y0 - MinorOffset(t, dx, e))
      invariant y0 - y == MinorOffset(x - x0, dx, e)
      invariant d == -Decision(x - x0, y0 - y, dx, e)
    {
      DecisionStep(x - x0, y0 - y, dx, e);
      DecisionChoosesOffset(x - x0, y0 - y, dx, e);
      pixels := pixels + [Pixel(x, y)];
      if d < 0 {
        y := y - 1;
        d := d - B;
      }
      x := x + 1;
      d := d + A;
    }
    pixels := pixels + [Pixel(x1, y1)];
    FallingRunIs(x0, y0, x1, y1, pixels);
  }

  /** Octant 2: steep and rising; y steps every iteration, x when d < 0. */
  method SteepRising(x0: int, y0: int, x1: int, y1: int, A: int, B: int) returns (pixels: seq<Pixel>)
    requires 0 <= x1 - x0 < y1 - y0
    requires A == 2 * (y1 - y0) && B == -2 * (x1 - x0)
    ensures pixels == NearestRun(x0, y0, x1, y1)
  {
    ghost var dx, dy := x1 - x0, y1 - y0;
    var x, y := x0, y0;
    var d := CHalf(A) + B;
    CHalfEven(y1 - y0);
    MinorOffsetEnds(dy, dx);
    pixels := [];
    while y < y1
      invariant y0 <= y <= y1
      invariant |pixels| == y - y0
      invariant forall t :: 0 <= t < |pixels| ==> pixels[t] == SteepPixel(x0, y0, dx, dy, t)
      invariant x - x0 == MinorOffset(y - y0, dy, dx)
      invariant d == -Decision(y - y0, x - x0, dy, dx)
    {
      DecisionStep(y - y0, x - x0, dy, dx);
      DecisionChoosesOffset(y - y0, x - x0, dy, dx);
      pixels := pixels + [Pixel(x, y)];
      if d < 0 {
        x := x + 1;
        d := d + A;
      }
      y := y + 1;
      d := d + B;
    }
    pixels := pixels + [Pixel(x1, y1)];
    SteepRunIs(x0, y0, x1, y1, pixels);
  }

  /** Octant 7: steep and falling; y steps down every iteration, x when d > 0. */
  method SteepFalling(x0: int, y0: int, x1: int, y1: int, A: int, B: int) returns (pixels: seq<Pixel>)
    requires 0 <= x1 - x0 < y0 - y1
    requires A == 2 * (y1 - y0) && B == -2 * (x1 - x0)
    ensures pixels == NearestRun(x0, y0, x1, y1)
  {
    ghost var dx, e := x1 - x0, y0 - y1;
    var x, y := x0, y0;
    var d := CHalf(A) - B;
    CHalfEven(y1 - y0);
    MinorOffsetEnds(e, dx);
    pixels := [];
    while y > y1
      invariant y1 <= y <= y0
      invariant |pixels| == y0 - y
      invariant forall t :: 0 <= t < |pixels| ==> pixels[t] == SteepPixel(x0, y0, dx, y1 - y0, t)
      invariant x - x0 == MinorOffset(y0 - y, e, dx)
      invariant d == Decision(y0 - y, x - x0, e, dx)
    {
      DecisionStep(y0 - y, x - x0, e, dx);
      DecisionChoosesOffset(y0 - y, x - x0, e, dx);
      pixels := pixels + [Pixel(x, y)];
      if d > 0 {
        x := x + 1;
        d := d + A;
      }
      y := y - 1;
      d := d - B;
    }
    pixels := pixels + [Pixel(x1, y1)];
    SteepRunIs(x0, y0, x1, y1, pixels);
  }

  // ---------------------------------------------------------------------
  // draw_line

  /**
   draw_line: order the endpoints left to right, pick the octant from the
   slope, and walk it.  Returns the plotted pixels in plotting order.
   */
  method DrawLine(x0: int, y0: int, x1: int, y1: int) returns (pixels: seq<Pixel>)
    ensures pixels == NearestLine(x0, y0, x1, y1)
    ensures |pixels| == Max(Abs(x1 - x0), Abs(y1 - y0)) + 1
    ensures pixels[0] == (if x0 > x1 then Pixel(x1, y1) else Pixel(x0, y0))
    ensures pixels[|pixels| - 1] == (if x0 > x1 then Pixel(x0, y0) else Pixel(x1, y1))
    ensures Pixel(x0, y0) in pixels && Pixel(x1, y1) in pixels
  {
    var lx, ly, rx, ry := x0, y0, x1, y1;
    if lx > rx {
      lx, ly, rx, ry := x1, y1, x0, y0;
    }
    var A := 2 * (ry - ly);
    var B := -2 * (rx - lx);
    if Abs(rx - lx) >= Abs(ry - ly) {
      if A > 0 {
        pixels := ShallowRising(lx, ly, rx, ry, A, B);
      } else {
        pixels := ShallowFalling(lx, ly, rx, ry, A, B);
      }
    } else {
      if A > 0 {
        pixels := SteepRising(lx, ly, rx, ry, A, B);
      } else {
        pixels := SteepFalling(lx, ly, rx, ry, A, B);
      }
    }
    NearestRunEnds(lx, ly, rx, ry);
  }

  // ---------------------------------------------------------------------
  // Properties of the plotted line

  /** A walk along x: x advances by one per pixel, y stays or moves one unit toward the end. */
  predicate StepsAlongX(p: seq<Pixel>, dy: int)
  {
    forall t :: 0 <= t < |p| - 1 ==>
      p[t + 1].x == p[t].x + 1 && (p[t + 1].y == p[t].y || p[t + 1].y == Toward(p[t].y, dy, 1))
  }

  /** A walk along y: y advances one unit toward the end per pixel, x stays or moves one to the right. */
  predicate StepsAlongY(p: seq<Pixel>, dy: int)
  {
    forall t :: 0 <= t < |p| - 1 ==>
      p[t + 1].y == Toward(p[t].y, dy, 1) && (p[t + 1].x == p[t].x || p[t + 1].x == p[t].x + 1)
  }

  /** The walk has one pixel per unit of the longer extent plus one, and starts and ends on the endpoints. */
  lemma NearestRunEnds(x0: int, y0: int, x1: int, y1: int)
    requires x0 <= x1
    ensures |NearestRun(x0, y0, x1, y1)| == Max(x1 - x0, Abs(y1 - y0)) + 1
    ensures NearestRun(x0, y0, x1, y1)[0] == Pixel(x0, y0)
    ensures NearestRun(x0, y0, x1, y1)[|NearestRun(x0, y0, x1, y1)| - 1] == Pixel(x1, y1)
  {
    var dx, dy := x1 - x0, y1 - y0;
    if dx >= Abs(dy) {
      if dx > 0 {
        MinorOffsetEnds(dx, Abs(dy));
      }
    } else {
      MinorOffsetEnds(Abs(dy), dx);
    }
  }

  /**
   Every step advances the driving axis by exactly one and moves the other
   axis by 0 or 1 toward the end point, and no pixel leaves the bounding box
   of the two endpoints.
   */
  lemma NearestRunSteps(x0: int, y0: int, x1: int, y1: int)
    requires x0 <= x1
    ensures x1 - x0 >= Abs(y1 - y0) ==>
      && StepsAlongX(NearestRun(x0, y0, x1, y1), y1 - y0)
      && forall t :: 0 <= t < |NearestRun(x0, y0, x1, y1)| ==> NearestRun(x0, y0, x1, y1)[t].x == x0 + t
    ensures x1 - x0 < Abs(y1 - y0) ==>
      && StepsAlongY(NearestRun(x0, y0, x1, y1), y1 - y0)
      && forall t :: 0 <= t < |NearestRun(x0, y0, x1, y1)| ==> NearestRun(x0, y0, x1, y1)[t].y == Toward(y0, y1 - y0, t)
    ensures forall t :: 0 <= t < |NearestRun(x0, y0, x1, y1)| ==>
      && x0 <= NearestRun(x0, y0, x1, y1)[t].x <= x1
      && Min(y0, y1) <= NearestRun(x0, y0, x1, y1)[t].y <= Max(y0, y1)
  {
    if x1 - x0 >= Abs(y1 - y0) {
      ShallowSteps(x0, y0, x1, y1);
    } else {
      SteepSteps(x0, y0, x1, y1);
    }
  }

  lemma ShallowSteps(x0: int, y0: int, x1: int, y1: int)
    requires x0 <= x1 && x1 - x0 >= Abs(y1 - y0)
    ensures StepsAlongX(NearestRun(x0, y0, x1, y1), y1 - y0)
    ensures forall t :: 0 <= t < |NearestRun(x0, y0, x1, y1)| ==>
      && NearestRun(x0, y0, x1, y1)[t].x == x0 + t
      && Min(y0, y1) <= NearestRun(x0, y0, x1, y1)[t].y <= Max(y0, y1)
  {
    if x0 < x1 {
      ShallowStepping(x0, y0, x1, y1);
      ShallowWithinRows(x0, y0, x1, y1);
    }
  }

  lemma ShallowStepping(x0: int, y0: int, x1: int, y1: int)
    requires x0 < x1 && x1 - x0 >= Abs(y1 - y0)
    ensures StepsAlongX(NearestRun(x0, y0, x1, y1), y1 - y0)
  {
    var p := NearestRun(x0, y0, x1, y1);
    var dx, dy := x1 - x0, y1 - y0;
    forall t | 0 <= t < |p| - 1
      ensures p[t + 1].x == p[t].x + 1 && (p[t + 1].y == p[t].y || p[t + 1].y == Toward(p[t].y, dy, 1))
    {
      MinorOffsetStep(t, dx, Abs(dy));
    }
  }

  lemma ShallowWithinRows(x0: int, y0: int, x1: int, y1: int)
    requires x0 < x1 && x1 - x0 >= Abs(y1 - y0)
    ensures forall t :: 0 <= t < |NearestRun(x0, y0, x1, y1)| ==>
      Min(y0, y1) <= NearestRun(x0, y0, x1, y1)[t].y <= Max(y0, y1)
  {
    var p := NearestRun(x0, y0, x1, y1);
    forall t | 0 <= t < |p|
      ensures Min(y0, y1) <= p[t].y <= Max(y0, y1)
    {
      MinorOffsetRange(t, x1 - x0, Abs(y1 - y0));
    }
  }

  lemma SteepSteps(x0: int, y0: int, x1: int, y1: int)
    requires x0 <= x1 && x1 - x0 < Abs(y1 - y0)
    ensures StepsAlongY(NearestRun(x0, y0, x1, y1), y1 - y0)
    ensures forall t :: 0 <= t < |NearestRun(x0, y0, x1, y1)| ==>
      && NearestRun(x0, y0, x1, y1)[t].y == Toward(y0, y1 - y0, t)
      && x0 <= NearestRun(x0, y0, x1, y1)[t].x <= x1
      && Min(y0, y1) <= NearestRun(x0, y0, x1, y1)[t].y <= Max(y0, y1)
  {
    var p := NearestRun(x0, y0, x1, y1);
    var dx, dy := x1 - x0, y1 - y0;
    var e := Abs(dy);
    forall t | 0 <= t < |p| - 1
      ensures p[t + 1].y == Toward(p[t].y, dy, 1) && (p[t + 1].x == p[t].x || p[t + 1].x == p[t].x + 1)
    {
      MinorOffsetStep(t, e, dx);
    }
    forall t | 0 <= t < |p|
      ensures x0 <= p[t].x <= x1
    {
      MinorOffsetRange(t, e, dx);
    }
  }

  /**
   Giving the endpoints in the other order plots the same pixels: the same
   walk when x0 != x1, and the same column walked the other way when the
   line is vertical.
   */
  lemma {:induction false} SwapEndpoints(x0: int, y0: int, x1: int, y1: int)
    ensures x0 != x1 ==> NearestLine(x1, y1, x0, y0) == NearestLine(x0, y0, x1, y1)
    ensures x0 == x1 ==> NearestLine(x1, y1, x0, y0) == Reverse(NearestLine(x0, y0, x1, y1))
    ensures forall p :: p in NearestLine(x1, y1, x0, y0) <==> p in NearestLine(x0, y0, x1, y1)
  {
    if x0 == x1 {
      var up := NearestRun(x0, y0, x1, y1);
      var down := NearestRun(x1, y1, x0, y0);
      var n := Abs(y1 - y0);
      if n > 0 {
        assert |up| == |down| == n + 1;
        forall t | 0 <= t <= n
          ensures up[t] == Pixel(x0, Toward(y0, y1 - y0, t))
          ensures down[t] == Pixel(x0, Toward(y1, y0 - y1, t))
        {
          MinorOffsetFlat(t, n);
        }
        forall t | 0 <= t <= n
          ensures down[t] == up[n - t]
        {
        }
        assert down == Reverse(up);
      }
      forall p
        ensures p in down <==> p in up
      {
        if p in up {
          var t :| 0 <= t < |up| && up[t] == p;
          assert down[|up| - 1 - t] == p;
        }
        if p in down {
          var t :| 0 <= t < |down| && down[t] == p;
          assert Reverse(up)[t] == p;
        }
      }
    }
  }

  /** The diagonal (0,0)-(5,5) plots exactly the six pixels on it. */
  lemma Diagonal()
    ensures NearestLine(0, 0, 5, 5) == [Pixel(0, 0), Pixel(1, 1), Pixel(2, 2), Pixel(3, 3), Pixel(4, 4), Pixel(5, 5)]
  {
  }

  /** A horizontal run along the x axis plots each of its six pixels. */
  lemma Horizontal()
    ensures NearestLine(0, 0, 5, 0) == [Pixel(0, 0), Pixel(1, 0), Pixel(2, 0), Pixel(3, 0), Pixel(4, 0), Pixel(5, 0)]
  {
  }

  /** A vertical run, drawn by the steep rising octant, plots each of its six pixels. */
  lemma Vertical()
    ensures NearestLine(0, 0, 0, 5) == [Pixel(0, 0), Pixel(0, 1), Pixel(0, 2), Pixel(0, 3), Pixel(0, 4), Pixel(0, 5)]
  {
  }
}
