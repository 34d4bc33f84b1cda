/**
 * The row-segment mask of geowarp.js (lines 233-260): for every output row,
 * the half-open column ranges `[cstart, cend)` the sampling loops visit.
 * Without a cutline every row gets the one range `[0, out_width)`; with a
 * cutline an external intersector reports the ranges row by row.
 */
module Segments {
  import opened Values
  import opened Setup

  /** One call of the intersector's `per_row_segment`: a row and its columns `[cstart, cend)`. */
  datatype RowSegment = RowSegment(row: int, columns: (int, int))

  /**
   * The external polygon-raster intersector (lines 244-254), given the cutline,
   * the output box, the output height and width and the output pixel height
   * and width; it yields its `per_row_segment` calls in order.
   */
  type Intersector = (Geometry, BBox, nat, nat, real, real) -> seq<RowSegment>

  /** Line 233: one empty list per output row. */
  function NoSegments(height: nat): (rows: seq<seq<(int, int)>>)
    ensures |rows| == height && forall i :: 0 <= i < height ==> rows[i] == []
  {
    seq(height, _ => [])
  }

  /** Lines 256-259: the full-width segment pushed onto every row. */
  function FullWidth(height: nat, width: nat): (rows: seq<seq<(int, int)>>)
    ensures |rows| == height
  {
    seq(height, _ => [(0, width as int)])
  }

  /**
   * Lines 251-253: each reported segment pushed onto its row, in the order
   * reported. A row outside `[0, out_height)` has no list to push onto, so the
   * push throws; the first such row is the error.
   */
  function Distribute(events: seq<RowSegment>, height: nat): (r: Result<seq<seq<(int, int)>>, int>)
    ensures r.Success? ==> |r.value| == height
  {
    if |events| == 0 then Success(NoSegments(height))
    else
      match Distribute(events[..|events| - 1], height)
      case Failure(row) => Failure(row)
      case Success(rows) =>
        var e := events[|events| - 1];
        if 0 <= e.row < |rows| then Success(rows[e.row := rows[e.row] + [e.columns]])
        else Failure(e.row)
  }

  /** A reference reading of the pushes: the columns reported for one row, in order. */
  function ColumnsOf(events: seq<RowSegment>, row: int): seq<(int, int)>
  {
    if |events| == 0 then []
    else
      var e := events[|events| - 1];
      ColumnsOf(events[..|events| - 1], row) + (if e.row == row then [e.columns] else [])
  }

  /** All reported rows lie in `[0, height)`. */
  predicate RowsInRange(events: seq<RowSegment>, height: nat)
  {
    forall i :: 0 <= i < |events| ==> 0 <= events[i].row < height
  }

  /**
   * Distributing succeeds exactly when every reported row is an output row;
   * then row i holds the columns reported for i, in order. Otherwise the error
   * is the first reported row outside the output.
   */
  lemma {:induction false} DistributeMeaning(events: seq<RowSegment>, height: nat)
    ensures Distribute(events, height).Success? <==> RowsInRange(events, height)
    ensures var r := Distribute(events, height);
      r.Success? ==> forall row :: 0 <= row < height ==> r.value[row] == ColumnsOf(events, row)
    ensures var r := Distribute(events, height);
      r.Failure? ==> exists i :: (0 <= i < |events| && events[i].row == r.error &&
        !(0 <= r.error < height) && RowsInRange(events[..i], height))
  {
    if |events| > 0 {
      var init := events[..|events| - 1];
      var e := events[|events| - 1];
      DistributeMeaning(init, height);
      assert forall i :: 0 <= i < |init| ==> init[i] == events[i];
      var r := Distribute(events, height);
      if Distribute(init, height).Failure? {
        var i :| 0 <= i < |init| && init[i].row == r.error &&
          !(0 <= r.error < height) && RowsInRange(init[..i], height);
        assert init[..i] == events[..i];
      } else if !(0 <= e.row < height) {
        assert init == events[..|events| - 1];
      }
    }
  }

  /** Lines 233-260: the segments of every output row, or the row a push failed on. */
  function RowSegments(p: Plan, intersect: Intersector): Result<seq<seq<(int, int)>>, int>
  {
    match p.cutline
    case None => Success(FullWidth(p.outHeight, p.outWidth))
    case Some(g) =>
      Distribute(intersect(g, p.outBBox, p.outHeight, p.outWidth, p.outPixelHeight, p.outPixelWidth), p.outHeight)
  }

  /** Without a cutline every row has exactly the one segment `[0, out_width)`. */
  lemma NoCutlineFullWidth(p: Plan, intersect: Intersector)
    requires p.cutline.None?
    ensures var r := RowSegments(p, intersect);
      r.Success? && |r.value| == p.outHeight &&
      forall row :: 0 <= row < p.outHeight ==> r.value[row] == [(0, p.outWidth as int)]
  {
  }

  /** Lines 233-260, pushing onto each row's list in the source's loops. */
  method BuildSegments(p: Plan, intersect: Intersector) returns (r: Result<seq<seq<(int, int)>>, int>)
    ensures r == RowSegments(p, intersect)
  {
    var segmentsByRow := NoSegments(p.outHeight);
    if p.cutline.Some? {
      var events := intersect(p.cutline.value, p.outBBox, p.outHeight, p.outWidth,
                              p.outPixelHeight, p.outPixelWidth);
      for i := 0 to |events|
        invariant Distribute(events[..i], p.outHeight) == Success(segmentsByRow)
      {
        assert events[..i + 1][..i] == events[..i];
        var e := events[i];
        if !(0 <= e.row < |segmentsByRow|) {
          assert events[..i + 1][i] == e;
          FailureStays(events, p.outHeight, i + 1);
          return Failure(e.row);
        }
        segmentsByRow := segmentsByRow[e.row := segmentsByRow[e.row] + [e.columns]];
      }
      assert events[..|events|] == events;
    } else {
      for row := 0 to p.outHeight
        invariant |segmentsByRow| == p.outHeight
        invariant forall i :: 0 <= i < row ==> segmentsByRow[i] == [(0, p.outWidth as int)]
        invariant forall i :: row <= i < p.outHeight ==> segmentsByRow[i] == []
      {
        segmentsByRow := segmentsByRow[row := segmentsByRow[row] + [(0, p.outWidth as int)]];
      }
      assert segmentsByRow == FullWidth(p.outHeight, p.outWidth);
    }
    r := Success(segmentsByRow);
  }

  /** Once a prefix of the reports fails, every longer run fails with the same row. */
  lemma {:induction false} FailureStays(events: seq<RowSegment>, height: nat, n: int)
    requires 0 < n <= |events| && Distribute(events[..n], height).Failure?
    ensures Distribute(events, height) == Distribute(events[..n], height)
    decreases |events|
  {
    if n < |events| {
      assert events[..|events| - 1][..n] == events[..n];
      FailureStays(events[..|events| - 1], height, n);
    } else {
      assert events[..n] == events;
    }
  }
}
