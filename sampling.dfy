/**
 * What the three sampling loops of geowarp.js share: where an output pixel
 * lies in the output system, how a point of the input system is measured in
 * input pixels, and the `process` step every pixel goes through before it is
 * inserted (lines 175, 327, 407 and 510).
 */
module Sampling {
  import opened Values
  import opened Reducers
  import opened Setup

  /**
   * Input pixel sizes that can be divided by. With a size of 0 JavaScript
   * divides into Infinity or NaN, which is not part of this model.
   */
  predicate Divisible(p: Plan)
  {
    p.inPixelHeight != 0.0 && p.inPixelWidth != 0.0
  }

  /**
   * Lines 299, 304 (and 336, 341): the point nearest and bilinear sample for
   * output pixel (r, c), the pixel's upper-left corner in the output system.
   */
  function Corner(p: Plan, r: int, c: int): (q: Point)
    ensures q.x - p.outBBox.xmin == p.outPixelWidth * c as real
    ensures p.outBBox.ymax - q.y == p.outPixelHeight * r as real
  {
    Point(p.outBBox.xmin + p.outPixelWidth * c as real, p.outBBox.ymax - p.outPixelHeight * r as real)
  }

  /**
   * Lines 345-346 (and 307-308 before flooring): a point of the input system
   * as a fractional (column, row) position in input pixels, counted from the
   * input box's upper-left corner.
   */
  function InPixels(p: Plan, q: Point): (xy: (real, real))
    requires Divisible(p)
    ensures xy.0 * p.inPixelWidth == q.x - p.inBBox.xmin
    ensures xy.1 * p.inPixelHeight == p.inBBox.ymax - q.y
  {
    ((q.x - p.inBBox.xmin) / p.inPixelWidth, (p.inBBox.ymax - q.y) / p.inPixelHeight)
  }

  /** `pixel[i]`: undefined outside the array. */
  function Get(pixel: seq<Val>, i: int): (v: Val)
    ensures 0 <= i < |pixel| ==> v == pixel[i]
    ensures !(0 <= i < |pixel|) ==> v == Undef
  {
    if 0 <= i < |pixel| then pixel[i] else Undef
  }

  /**
   * The `process` step: the pixel unchanged, the user's expression, or line
   * 175's reordering `out_bands.map(iband => pixel[read_bands.indexOf(iband)])`.
   */
  function ApplyProcess(pr: Process, pixel: seq<Val>): seq<Val>
  {
    match pr
    case Keep => pixel
    case Expr(f) => f(pixel)
    case Reorder(outBands, readBands) =>
      seq(|outBands|, j requires 0 <= j < |outBands| => Get(pixel, IndexOf(readBands, outBands[j])))
  }

  /**
   * The reordered pixel has one value per entry of `out_bands`: the value read
   * for that band when it was read, and undefined when it was not.
   */
  lemma ReorderPicksBands(outBands: seq<int>, readBands: seq<int>, pixel: seq<Val>)
    requires |pixel| == |readBands|
    ensures var q := ApplyProcess(Reorder(outBands, readBands), pixel);
      |q| == |outBands| &&
      forall j :: 0 <= j < |outBands| ==>
        (outBands[j] !in readBands ==> q[j] == Undef) &&
        (outBands[j] in readBands ==>
          exists i :: 0 <= i < |readBands| && readBands[i] == outBands[j] && q[j] == pixel[i])
  {
    var q := ApplyProcess(Reorder(outBands, readBands), pixel);
    forall j | 0 <= j < |outBands|
      ensures outBands[j] in readBands ==>
        exists i :: 0 <= i < |readBands| && readBands[i] == outBands[j] && q[j] == pixel[i]
    {
      var i := IndexOf(readBands, outBands[j]);
      if outBands[j] in readBands {
        assert readBands[i] == outBands[j] && q[j] == pixel[i];
      }
    }
  }
}
