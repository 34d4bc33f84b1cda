/**
 * The input raster as geowarp reads it through xdim's `select` and `clip`
 * accessors: a grid of numbers indexed by (band, row, column), whose extent is
 * the `in_sizes` of geowarp.js lines 262-266. How the numbers are nested in
 * JavaScript arrays (the layout string) is not part of this model.
 */
module Grid {
  import opened Values

  /** Sizes along the three axes and the value stored at each (band, row, column). */
  datatype Raster = Raster(depth: nat, height: nat, width: nat, cell: (int, int, int) -> real)

  predicate InRaster(r: Raster, band: int, row: int, column: int)
  {
    0 <= band < r.depth && 0 <= row < r.height && 0 <= column < r.width
  }

  /** `select({ point })`: the stored value, or undefined (None) for a point off the raster on any axis. */
  function Select(r: Raster, band: int, row: int, column: int): (v: Option<real>)
    ensures v.Some? <==> InRaster(r, band, row, column)
    ensures v.Some? ==> v.value == r.cell(band, row, column)
  {
    if InRaster(r, band, row, column) then Some(r.cell(band, row, column)) else None
  }

  /** One row of a clip: the values of `row` from column `left` to column `right`. */
  function ClipRow(r: Raster, band: int, row: int, left: int, right: int): (vs: seq<real>)
    requires left <= right
    ensures |vs| == right - left + 1
    ensures forall j :: 0 <= j < |vs| ==> vs[j] == r.cell(band, row, left + j)
  {
    seq(right - left + 1, j => r.cell(band, row, left + j))
  }

  /**
   * `clip({ flat: true, rect })` over one band and the inclusive row range
   * [top, bottom] and column range [left, right]: the values row by row, each
   * row from left to right.
   */
  function Clip(r: Raster, band: int, top: int, bottom: int, left: int, right: int): (vs: seq<real>)
    requires left <= right
    ensures top <= bottom ==> |vs| > 0
    decreases bottom + 1 - top
  {
    if top > bottom then []
    else ClipRow(r, band, top, left, right) + Clip(r, band, top + 1, bottom, left, right)
  }

  /** Every clipped value is the value of a cell inside the rectangle, and every such cell is clipped. */
  lemma {:induction false} ClipCells(r: Raster, band: int, top: int, bottom: int, left: int, right: int)
    requires left <= right
    ensures var vs := Clip(r, band, top, bottom, left, right);
      forall v :: v in vs ==>
        exists row, column :: (top <= row <= bottom && left <= column <= right &&
          v == r.cell(band, row, column))
    ensures var vs := Clip(r, band, top, bottom, left, right);
      forall row, column :: top <= row <= bottom && left <= column <= right ==>
        r.cell(band, row, column) in vs
    decreases bottom + 1 - top
  {
    if top <= bottom {
      ClipCells(r, band, top + 1, bottom, left, right);
      var first := ClipRow(r, band, top, left, right);
      var rest := Clip(r, band, top + 1, bottom, left, right);
      forall v | v in first
        ensures exists row, column :: (top <= row <= bottom && left <= column <= right &&
          v == r.cell(band, row, column))
      {
        var j :| 0 <= j < |first| && first[j] == v;
        assert v == r.cell(band, top, left + j);
      }
      forall v | v in rest
        ensures exists row, column :: (top <= row <= bottom && left <= column <= right &&
          v == r.cell(band, row, column))
      {
        var row, column :| top + 1 <= row <= bottom && left <= column <= right &&
          v == r.cell(band, row, column);
        assert top <= row;
      }
      forall column | left <= column <= right
        ensures r.cell(band, top, column) in first
      {
        assert first[column - left] == r.cell(band, top, column);
      }
    }
  }
}
