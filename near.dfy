/**
 * Nearest-neighbour sampling (geowarp.js lines 295-331): the input pixel
 * under the corner of the output pixel, one value per band read, with
 * off-raster and no-data values replaced by out_no_data.
 */
module Near {
  import opened Values
  import opened Reducers
  import opened Grid
  import opened Setup
  import opened Sampling

  /**
   * Lines 307-308: the input pixel (row, column) whose cell holds the sample
   * point of output pixel (r, c).
   */
  function NearIndex(p: Plan, r: int, c: int): (rc: (int, int))
    requires Divisible(p)
    ensures var xy := InPixels(p, p.toInput(Corner(p, r, c)));
      rc.0 as real <= xy.1 < rc.0 as real + 1.0 && rc.1 as real <= xy.0 < rc.1 as real + 1.0
  {
    var xy := InPixels(p, p.toInput(Corner(p, r, c)));
    (Floor(xy.1), Floor(xy.0))
  }

  /** Lines 312-324: the value of one band at input pixel (row, column). */
  function NearBand(p: Plan, band: int, row: int, column: int): Val
  {
    match Select(p.raster, band, row, column)
    case None => p.outNoData
    case Some(x) =>
      if StrictEq(Num(x), p.inNoData) then p.outNoData
      else if p.round then Round(Num(x))
      else Num(x)
  }

  /** Lines 309-326: the bands of `read_bands`, in order, read at one input pixel. */
  function NearRead(p: Plan, row: int, column: int): (pixel: seq<Val>)
    ensures |pixel| == |p.readBands|
    ensures forall i :: 0 <= i < |pixel| ==> pixel[i] == NearBand(p, p.readBands[i], row, column)
  {
    seq(|p.readBands|, i requires 0 <= i < |p.readBands| => NearBand(p, p.readBands[i], row, column))
  }

  /** Lines 307-327: the pixel that nearest sampling inserts at output pixel (r, c). */
  function NearPixel(p: Plan, r: int, c: int): seq<Val>
    requires Divisible(p)
  {
    var (row, column) := NearIndex(p, r, c);
    ApplyProcess(p.process, NearRead(p, row, column))
  }

  /** The band loop of lines 309-326. */
  method ReadNear(p: Plan, row: int, column: int) returns (pixel: seq<Val>)
    ensures pixel == NearRead(p, row, column)
  {
    pixel := [];
    for i := 0 to |p.readBands|
      invariant |pixel| == i
      invariant forall j :: 0 <= j < i ==> pixel[j] == NearBand(p, p.readBands[j], row, column)
    {
      var readBand := p.readBands[i];
      var value: Val;
      var selected := Select(p.raster, readBand, row, column);
      if selected.None? || StrictEq(Num(selected.value), p.inNoData) {
        value := p.outNoData;
      } else if p.round {
        value := Round(Num(selected.value));
      } else {
        value := Num(selected.value);
      }
      pixel := pixel + [value];
    }
  }

  /** Lines 304-327 for one output pixel. */
  method SampleNear(p: Plan, r: int, c: int) returns (pixel: seq<Val>)
    requires Divisible(p)
    ensures pixel == NearPixel(p, r, c)
  {
    var pt := Corner(p, r, c);
    var q := p.toInput(pt);
    var xIn := Floor((q.x - p.inBBox.xmin) / p.inPixelWidth);
    var yIn := Floor((p.inBBox.ymax - q.y) / p.inPixelHeight);
    pixel := ReadNear(p, yIn, xIn);
    pixel := ApplyProcess(p.process, pixel);
  }

  /**
   * Every band value is out_no_data, or the value of an input cell that is not
   * `in_no_data`, copied or (with `round`) rounded; off-raster and no-data
   * cells give out_no_data.
   */
  lemma NearBandOrigin(p: Plan, band: int, row: int, column: int)
    ensures var v := NearBand(p, band, row, column);
      v == p.outNoData ||
      (InRaster(p.raster, band, row, column) &&
       !StrictEq(Num(p.raster.cell(band, row, column)), p.inNoData) &&
       v == (if p.round then Round(Num(p.raster.cell(band, row, column)))
             else Num(p.raster.cell(band, row, column))))
    ensures !InRaster(p.raster, band, row, column) ==> NearBand(p, band, row, column) == p.outNoData
    ensures (InRaster(p.raster, band, row, column) &&
      StrictEq(Num(p.raster.cell(band, row, column)), p.inNoData)) ==>
      NearBand(p, band, row, column) == p.outNoData
  {
  }

  /**
   * With positive input pixel sizes the sample point lies inside the chosen
   * input cell: between its left edge and the next column's, and between its
   * top edge and the next row's.
   */
  lemma NearCellContainsPoint(p: Plan, r: int, c: int)
    requires p.inPixelHeight > 0.0 && p.inPixelWidth > 0.0
    ensures var (row, column) := NearIndex(p, r, c);
      var q := p.toInput(Corner(p, r, c));
      p.inBBox.xmin + column as real * p.inPixelWidth <= q.x < p.inBBox.xmin + (column + 1) as real * p.inPixelWidth &&
      p.inBBox.ymax - (row + 1) as real * p.inPixelHeight < q.y <= p.inBBox.ymax - row as real * p.inPixelHeight
  {
    var (row, column) := NearIndex(p, r, c);
    var q := p.toInput(Corner(p, r, c));
    var xy := InPixels(p, q);
    CellWithin(column, xy.0, p.inPixelWidth, q.x - p.inBBox.xmin);
    CellWithin(row, xy.1, p.inPixelHeight, p.inBBox.ymax - q.y);
  }

  /** A fractional position `t` in cell `k`, scaled by a positive size `size` to the offset `d`. */
  lemma CellWithin(k: int, t: real, size: real, d: real)
    requires size > 0.0 && k as real <= t < (k + 1) as real && t * size == d
    ensures k as real * size <= d < (k + 1) as real * size
  {
    MulLe(k as real, t, size);
    MulLt(t, (k + 1) as real, size);
  }

  lemma MulLe(x: real, y: real, s: real)
    requires x <= y && s > 0.0
    ensures x * s <= y * s
  {
  }

  lemma MulLt(x: real, y: real, s: real)
    requires x < y && s > 0.0
    ensures x * s < y * s
  {
  }

  /**
   * With band selection by `out_bands`, output band j of a nearest pixel is
   * the band `out_bands[j]` read at the chosen input pixel.
   */
  lemma NearOutBands(p: Plan, r: int, c: int)
    requires Divisible(p) && p.process.Reorder? && p.process.readBands == p.readBands
    requires forall b :: b in p.process.outBands ==> b in p.readBands
    ensures var (row, column) := NearIndex(p, r, c);
      var px := NearPixel(p, r, c);
      |px| == |p.process.outBands| &&
      forall j :: 0 <= j < |px| ==> px[j] == NearBand(p, p.process.outBands[j], row, column)
  {
    var (row, column) := NearIndex(p, r, c);
    var read := NearRead(p, row, column);
    ReorderPicksBands(p.process.outBands, p.readBands, read);
  }

  /**
   * The resize shortcut makes both pixel sizes 1 on pixel boxes, so nearest
   * sampling does not scale: output pixel (r, c) reads input pixel
   * (r + in_height - out_height, c), a crop or pad anchored at the bottom-left.
   */
  lemma NearResizeShifts(p: Plan, r: int, c: int)
    requires forall q :: p.toInput(q) == q
    requires p.inBBox == BBox(0.0, 0.0, p.inWidth as real, p.inHeight as real)
    requires p.outBBox == BBox(0.0, 0.0, p.outWidth as real, p.outHeight as real)
    requires p.inPixelHeight == 1.0 && p.inPixelWidth == 1.0
    requires p.outPixelHeight == 1.0 && p.outPixelWidth == 1.0
    ensures NearIndex(p, r, c) == (r + p.inHeight - p.outHeight, c)
  {
    var q := Corner(p, r, c);
    assert q == Point(c as real, p.outHeight as real - r as real);
    assert p.toInput(q) == q;
    var xy := InPixels(p, q);
    assert xy.0 == c as real;
    assert xy.1 == (r + p.inHeight - p.outHeight) as real;
  }
}
