/**
 draw_lines of draw.c: the populated columns of a matrix are read two at a
 time as segment endpoints, and each pair is rasterized by draw_line using
 only its x and y rows.
 */
module Lines {

  import opened PointBuffer
  import opened Raster

  /**
   C's implicit conversion of a double argument to an `int` parameter:
   truncation toward zero.  Values outside the range of `int` are not modelled.
   */
  function TruncToInt(r: real): (n: int)
    ensures r >= 0.0 ==> 0.0 <= n as real <= r < n as real + 1.0
    ensures r < 0.0 ==> n as real - 1.0 < r <= n as real <= 0.0
  {
    if r >= 0.0 then r.Floor else -((-r).Floor)
  }

  /** The pixels draw_line plots for the segment between two columns. */
  function SegmentPixels(a: Column, b: Column): seq<Pixel>
  {
    NearestLine(TruncToInt(a.x), TruncToInt(a.y), TruncToInt(b.x), TruncToInt(b.y))
  }

  /** Columns 0-1, 2-3, ... taken as segments, in order; a trailing odd column is no segment. */
  function PairedPixels(cs: seq<Column>): seq<Pixel>
    decreases |cs|
  {
    if |cs| < 2 then [] else SegmentPixels(cs[0], cs[1]) + PairedPixels(cs[2..])
  }

  /**
   draw_lines: with fewer than two points it only prints a diagnostic
   (`diagnosed`) and plots nothing; otherwise it plots every segment.
   */
  method DrawLines(b: Matrix) returns (pixels: seq<Pixel>, diagnosed: bool)
    requires Valid(b)
    ensures diagnosed <==> b.lastcol < 2
    ensures diagnosed ==> pixels == []
    ensures pixels == PairedPixels(Points(b))
  {
    if b.lastcol < 2 {
      return [], true;
    }
    diagnosed := false;
    pixels := [];
    ghost var cs := Points(b);
    var point := 0;
    while point < b.lastcol - 1
      invariant 0 <= point <= b.lastcol
      invariant pixels + PairedPixels(cs[point..]) == PairedPixels(cs)
    {
      var seg := DrawLine(TruncToInt(b.m[point].x), TruncToInt(b.m[point].y),
                          TruncToInt(b.m[point + 1].x), TruncToInt(b.m[point + 1].y));
      assert cs[point..][2..] == cs[point + 2..];
      pixels := pixels + seg;
      point := point + 2;
    }
  }

  /** Segments are drawn independently: the pixels of a split list are the pixels of its halves, in order. */
  lemma {:induction false} PairedPixelsAppend(cs: seq<Column>, ds: seq<Column>)
    requires |cs| % 2 == 0
    ensures PairedPixels(cs + ds) == PairedPixels(cs) + PairedPixels(ds)
    decreases |cs|
  {
    if cs != [] {
      assert (cs + ds)[0] == cs[0] && (cs + ds)[1] == cs[1];
      assert (cs + ds)[2..] == cs[2..] + ds;
      PairedPixelsAppend(cs[2..], ds);
    } else {
      assert cs + ds == ds;
    }
  }

  /** A trailing odd column is ignored. */
  lemma OddColumnIgnored(cs: seq<Column>, c: Column)
    requires |cs| % 2 == 0
    ensures PairedPixels(cs + [c]) == PairedPixels(cs)
  {
    PairedPixelsAppend(cs, [c]);
  }

  /** The last of an even number of columns closes the final segment, drawn after all the others. */
  lemma LastSegmentLast(cs: seq<Column>)
    requires |cs| % 2 == 0 && |cs| >= 2
    ensures PairedPixels(cs) == PairedPixels(cs[..|cs| - 2]) + SegmentPixels(cs[|cs| - 2], cs[|cs| - 1])
  {
    assert cs == cs[..|cs| - 2] + [cs[|cs| - 2], cs[|cs| - 1]];
    PairedPixelsAppend(cs[..|cs| - 2], [cs[|cs| - 2], cs[|cs| - 1]]);
  }

  /** Two column lists that agree on x and y, whatever their z and w rows. */
  predicate SameXY(cs: seq<Column>, ds: seq<Column>)
  {
    |cs| == |ds| && forall i :: 0 <= i < |cs| ==> cs[i].x == ds[i].x && cs[i].y == ds[i].y
  }

  /** Only the x and y rows are drawn: z and w never change the plotted pixels. */
  lemma {:induction false} OnlyXYDrawn(cs: seq<Column>, ds: seq<Column>)
    requires SameXY(cs, ds)
    ensures PairedPixels(cs) == PairedPixels(ds)
    decreases |cs|
  {
    if |cs| >= 2 {
      assert SameXY(cs[2..], ds[2..]);
      OnlyXYDrawn(cs[2..], ds[2..]);
    }
  }
}
