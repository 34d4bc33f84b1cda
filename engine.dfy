/**
 * The body of `geowarp` after setup (geowarp.js lines 233-525): the output
 * array pre-filled with out_no_data, the walk over rows
 * `[row_start, min(row_end, out_height))`, their segments and the columns
 * of each segment, sampling every visited output pixel by the configured
 * method and inserting it band by band.
 */
module Engine {
  import opened Values
  import opened Setup
  import opened Sampling
  import opened Near
  import opened Bilinear
  import opened Area
  import opened Segments

  /** Why `geowarp` throws. */
  datatype WarpError =
    | SetupFailed(setup: SetupError)
    | RowOutOfRange(row: int)
    | ReduceFailed(reduce: ReduceError)

  /** Lines 295, 332 and 412: the pixel the configured method inserts at output pixel (r, c). */
  function Sample(p: Plan, r: int, c: int): Result<seq<Val>, ReduceError>
    requires Divisible(p)
  {
    if p.sampling == Named("near") then Success(NearPixel(p, r, c))
    else if p.sampling == Named("bilinear") then Success(BilinearPixel(p, r, c))
    else AreaPixel(p, r, c)
  }

  /** Lines 297, 334 and 415: `Math.min(row_end, out_height)`. */
  function RowLimit(p: Plan): (n: int)
    ensures n <= p.outHeight && n <= p.rowEnd && (n == p.outHeight || n == p.rowEnd)
  {
    if p.rowEnd < p.outHeight then p.rowEnd else p.outHeight
  }

  /** Some segment `[cstart, cend)` of the list holds column c. */
  predicate Covers(segments: seq<(int, int)>, c: int)
  {
    exists k :: 0 <= k < |segments| && segments[k].0 <= c < segments[k].1
  }

  /** Output pixel (r, c) is visited: its row is walked and one of its segments holds c. */
  predicate Visited(p: Plan, rows: seq<seq<(int, int)>>, r: int, c: int)
  {
    p.rowStart <= r < RowLimit(p) && r < |rows| && Covers(rows[r], c)
  }

  /**
   * Band `band` of a cell that held `before` once `insert` has written the
   * sampled pixel there: bands the pixel does not have keep their value.
   */
  function Inserted(px: Result<seq<Val>, ReduceError>, band: int, before: Val): Val
  {
    if px.Success? && 0 <= band < |px.value| then px.value[band] else before
  }

  /** Inserting the same pixel twice is inserting it once. */
  lemma InsertedTwice(px: Result<seq<Val>, ReduceError>, band: int, before: Val)
    ensures Inserted(px, band, Inserted(px, band, before)) == Inserted(px, band, before)
  {
  }

  /** `Sample` for one configuration, as a value the walk can pass around. */
  function SamplerOf(p: Plan): (f: (int, int) -> Result<seq<Val>, ReduceError>)
    requires Divisible(p)
    ensures forall r, c :: f(r, c) == Sample(p, r, c)
  {
    (r: int, c: int) => Sample(p, r, c)
  }

  /** The writable output grid and the configuration that fills it. */
  class Warper {
    const plan: Plan
    const sample: (int, int) -> Result<seq<Val>, ReduceError>
    const out: array3<Val>

    /** `sample` is the sampling of `plan`. */
    ghost predicate Valid()
    {
      Divisible(plan) && forall r, c {:trigger Sample(plan, r, c)} :: sample(r, c) == Sample(plan, r, c)
    }

    /** Lines 275-280: an out_pixel_depth × out_height × out_width grid filled with out_no_data. */
    constructor (p: Plan)
      requires Divisible(p)
      ensures plan == p && Valid() && fresh(out)
      ensures out.Length0 == p.outPixelDepth && out.Length1 == p.outHeight && out.Length2 == p.outWidth
      ensures forall b, i, j :: 0 <= b < out.Length0 && 0 <= i < out.Length1 && 0 <= j < out.Length2 ==>
        out[b, i, j] == p.outNoData
    {
      plan := p;
      sample := SamplerOf(p);
      out := new Val[p.outPixelDepth, p.outHeight, p.outWidth]((b, i, j) => p.outNoData);
    }

    /** Lines 284-291: writes band b of the pixel at (row, column), for each band of the pixel. */
    method Insert(row: int, column: int, pixel: seq<Val>)
      modifies out
      ensures forall b, i, j :: 0 <= b < out.Length0 && 0 <= i < out.Length1 && 0 <= j < out.Length2 ==>
        out[b, i, j] == if i == row && j == column then Inserted(Success(pixel), b, old(out[b, i, j]))
                        else old(out[b, i, j])
    {
      for band := 0 to |pixel|
        invariant forall b, i, j :: 0 <= b < out.Length0 && 0 <= i < out.Length1 && 0 <= j < out.Length2 ==>
          out[b, i, j] == if i == row && j == column && b < band then pixel[b] else old(out[b, i, j])
      {
        if band < out.Length0 && 0 <= row < out.Length1 && 0 <= column < out.Length2 {
          out[band, row, column] := pixel[band];
        }
      }
    }

    /** The sampling loop body for output pixel (r, c); `box` is the area loop's running box. */
    method SampleAt(r: int, c: int, box: BBox) returns (res: Result<seq<Val>, ReduceError>)
      requires Valid() && box == AreaBox(plan, r, c)
      ensures res == sample(r, c)
    {
      assert sample(r, c) == Sample(plan, r, c);
      if plan.sampling == Named("near") {
        var pixel := SampleNear(plan, r, c);
        res := Success(pixel);
      } else if plan.sampling == Named("bilinear") {
        var pixel := SampleBilinear(plan, r, c);
        res := Success(pixel);
      } else {
        res := SampleArea(plan, r, c, box);
      }
    }

    /** Lines 303-329 (and 340-410, 421-513) for output pixel (r, c): sample it and insert it. */
    method Visit(r: int, c: int, box: BBox) returns (res: Result<(), ReduceError>)
      requires Valid() && box == AreaBox(plan, r, c)
      modifies out
      ensures res.Success? <==> sample(r, c).Success?
      ensures res.Failure? ==> sample(r, c) == Failure(res.error)
      ensures res.Success? ==>
        forall b, i, j :: 0 <= b < out.Length0 && 0 <= i < out.Length1 && 0 <= j < out.Length2 ==>
          out[b, i, j] == if i == r && j == c then Inserted(sample(i, j), b, old(out[b, i, j]))
                          else old(out[b, i, j])
    {
      var pixel := SampleAt(r, c, box);
      if pixel.Failure? {
        return Failure(pixel.error);
      }
      Insert(r, c, pixel.value);
      res := Success(());
    }

    /**
     * Lines 302-329 (and 339-410, 420-513) for one segment `[cstart, cend)` of
     * row r, between the area loop's `top` and `bottom`; stops at the first
     * pixel that throws.
     */
    method WalkSegment(r: int, cstart: int, cend: int, top: real, bottom: real)
      returns (res: Result<(), ReduceError>)
      requires Valid()
      requires top == plan.outBBox.ymax - plan.outPixelHeight * (r - plan.rowStart) as real
      requires bottom == top - plan.outPixelHeight
      modifies out
      ensures res.Success? ==> forall c :: cstart <= c < cend ==> sample(r, c).Success?
      ensures res.Failure? ==>
        exists c :: cstart <= c < cend && sample(r, c) == Failure(res.error)
      ensures res.Success? ==>
        forall b, i, j :: 0 <= b < out.Length0 && 0 <= i < out.Length1 && 0 <= j < out.Length2 ==>
          out[b, i, j] == if i == r && cstart <= j < cend then Inserted(sample(i, j), b, old(out[b, i, j]))
                          else old(out[b, i, j])
    {
      var right := plan.outBBox.xmin + plan.outPixelWidth * cstart as real;
      var c := cstart;
      while c < cend
        invariant c == cstart || cstart < c <= cend
        invariant right == plan.outBBox.xmin + plan.outPixelWidth * c as real
        invariant forall k :: cstart <= k < c ==> sample(r, k).Success?
        invariant forall b, i, j :: 0 <= b < out.Length0 && 0 <= i < out.Length1 && 0 <= j < out.Length2 ==>
          out[b, i, j] == if i == r && cstart <= j < c then Inserted(sample(i, j), b, old(out[b, i, j]))
                          else old(out[b, i, j])
        decreases cend - c
      {
        var left := right;
        right := left + plan.outPixelWidth;
        RunningEdges(plan, r, c, top, left);
        res := Visit(r, c, BBox(left, bottom, right, top));
        if res.Failure? {
          return;
        }
        c := c + 1;
      }
      res := Success(());
    }
  
    /**
     * Lines 300-331 (and 337-410, 416-514) for row r and its segments, in
     * order; stops at the first pixel that throws.
     */
    method WalkRow(r: int, segments: seq<(int, int)>, top: real, bottom: real)
      returns (res: Result<(), ReduceError>)
      requires Valid()
      requires top == plan.outBBox.ymax - plan.outPixelHeight * (r - plan.rowStart) as real
      requires bottom == top - plan.outPixelHeight
      modifies out
      ensures res.Success? ==> forall c :: Covers(segments, c) ==> sample(r, c).Success?
      ensures res.Failure? ==>
        exists c :: Covers(segments, c) && sample(r, c) == Failure(res.error)
      ensures res.Success? ==>
        forall b, i, j :: 0 <= b < out.Length0 && 0 <= i < out.Length1 && 0 <= j < out.Length2 ==>
          out[b, i, j] == if i == r && Covers(segments, j) then Inserted(sample(i, j), b, old(out[b, i, j]))
                          else old(out[b, i, j])
    {
      for k := 0 to |segments|
        invariant forall c :: Covers(segments[..k], c) ==> sample(r, c).Success?
        invariant forall b, i, j :: 0 <= b < out.Length0 && 0 <= i < out.Length1 && 0 <= j < out.Length2 ==>
          out[b, i, j] == if i == r && Covers(segments[..k], j) then Inserted(sample(i, j), b, old(out[b, i, j]))
                          else old(out[b, i, j])
      {
        CoversSnoc(segments, k);
        var (cstart, cend) := segments[k];
        res := WalkSegment(r, cstart, cend, top, bottom);
        if res.Failure? {
          var c :| cstart <= c < cend && sample(r, c) == Failure(res.error);
          assert Covers(segments, c) by { assert segments[k].0 <= c < segments[k].1; }
          return;
        }
      }
      assert segments[..|segments|] == segments;
      res := Success(());
    }

    /**
     * Lines 297-331 (and 334-410, 413-514): rows `row_start` to
     * `min(row_end, out_height) - 1`, with the area loop's running `top` and
     * `bottom`; stops at the first pixel that throws.
     */
    method WalkRows(rows: seq<seq<(int, int)>>) returns (res: Result<(), ReduceError>)
      requires Valid() && |rows| == plan.outHeight
      modifies out
      ensures res.Success? ==> forall i, j :: Visited(plan, rows, i, j) ==> sample(i, j).Success?
      ensures res.Failure? ==>
        exists i, j :: Visited(plan, rows, i, j) && sample(i, j) == Failure(res.error)
      ensures res.Success? ==>
        forall b, i, j :: 0 <= b < out.Length0 && 0 <= i < out.Length1 && 0 <= j < out.Length2 ==>
          out[b, i, j] == if Visited(plan, rows, i, j) then Inserted(sample(i, j), b, old(out[b, i, j]))
                          else old(out[b, i, j])
    {
      var rmax := RowLimit(plan);
      var bottom := plan.outBBox.ymax;
      var r := plan.rowStart;
      while r < rmax
        invariant r == plan.rowStart || plan.rowStart < r <= rmax
        invariant bottom == plan.outBBox.ymax - plan.outPixelHeight * (r - plan.rowStart) as real
        invariant forall i, j :: VisitedBefore(plan, rows, r, i, j) ==> sample(i, j).Success?
        invariant forall b, i, j :: 0 <= b < out.Length0 && 0 <= i < out.Length1 && 0 <= j < out.Length2 ==>
          out[b, i, j] == if VisitedBefore(plan, rows, r, i, j) then Inserted(sample(i, j), b, old(out[b, i, j]))
                          else old(out[b, i, j])
        decreases rmax - r
      {
        var top := bottom;
        RunningRows(plan, r, top);
        bottom := top - plan.outPixelHeight;
        res := WalkRow(r, rows[r], top, bottom);
        if res.Failure? {
          var c :| Covers(rows[r], c) && sample(r, c) == Failure(res.error);
          assert Visited(plan, rows, r, c);
          return;
        }
        r := r + 1;
      }
      res := Success(());
    }
  }

  /** Rows `row_start` to r - 1 of the walk: output pixel (i, j) has been visited before row r. */
  predicate VisitedBefore(p: Plan, rows: seq<seq<(int, int)>>, r: int, i: int, j: int)
  {
    p.rowStart <= i < r && i < |rows| && Covers(rows[i], j)
  }

  /** One more segment covers what the shorter list covers, and its own columns. */
  lemma CoversSnoc(segments: seq<(int, int)>, k: int)
    requires 0 <= k < |segments|
    ensures forall c :: Covers(segments[..k + 1], c) <==>
      Covers(segments[..k], c) || segments[k].0 <= c < segments[k].1
  {
    forall c
      ensures Covers(segments[..k + 1], c) <==>
        Covers(segments[..k], c) || segments[k].0 <= c < segments[k].1
    {
      if Covers(segments[..k + 1], c) {
        var m :| 0 <= m < k + 1 && segments[..k + 1][m].0 <= c < segments[..k + 1][m].1;
        if m < k {
          assert segments[..k][m] == segments[m];
        }
      }
      if Covers(segments[..k], c) {
        var m :| 0 <= m < k && segments[..k][m].0 <= c < segments[..k][m].1;
        assert segments[..k + 1][m] == segments[m];
      }
      if segments[k].0 <= c < segments[k].1 {
        assert segments[..k + 1][k] == segments[k];
      }
    }
  }

  /** Lines 516-523: what `geowarp` returns. */
  datatype Warped = Warped(
    data: array3<Val>,
    outBands: Option<seq<int>>,
    outLayout: string,
    outPixelHeight: real,
    outPixelWidth: real,
    readBands: seq<int>)

  /**
   * Without a cutline the walk visits exactly the output pixels of rows
   * `[row_start, min(row_end, out_height))` and columns `[0, out_width)`.
   */
  lemma NoCutlineVisitsWholeRows(p: Plan, intersect: Intersector)
    requires p.cutline.None?
    ensures var rows := RowSegments(p, intersect);
      rows.Success? && forall i, j :: Visited(p, rows.value, i, j) <==>
        p.rowStart <= i < RowLimit(p) && 0 <= j < p.outWidth
  {
    NoCutlineFullWidth(p, intersect);
    var rows := RowSegments(p, intersect).value;
    forall i, j
      ensures Visited(p, rows, i, j) <==> p.rowStart <= i < RowLimit(p) && 0 <= j < p.outWidth
    {
      if p.rowStart <= i < RowLimit(p) && 0 <= j < p.outWidth {
        assert rows[i][0] == (0, p.outWidth as int);
      }
    }
  }

  /**
   * `geowarp` (lines 124-525): the setup, the row segments, a fresh output
   * grid filled with out_no_data, and the walk. On success every visited
   * pixel holds its sampled bands and every other cell keeps out_no_data.
   */
  method GeoWarp(cfg: Config, reprojectBBox: (BBox, Point -> Point) -> BBox, intersect: Intersector)
    returns (res: Result<Warped, WarpError>)
    requires Resolve(cfg, reprojectBBox).Success? ==> Divisible(Resolve(cfg, reprojectBBox).value)
    ensures Resolve(cfg, reprojectBBox).Failure? ==>
      res == Failure(SetupFailed(Resolve(cfg, reprojectBBox).error))
    ensures (Resolve(cfg, reprojectBBox).Success? &&
      RowSegments(Resolve(cfg, reprojectBBox).value, intersect).Failure?) ==>
      res == Failure(RowOutOfRange(RowSegments(Resolve(cfg, reprojectBBox).value, intersect).error))
    ensures res.Failure? && res.error.ReduceFailed? ==>
      var p := Resolve(cfg, reprojectBBox).value;
      var rows := RowSegments(p, intersect).value;
      exists i, j :: Visited(p, rows, i, j) && Sample(p, i, j) == Failure(res.error.reduce)
    ensures res.Success? ==>
      var p := Resolve(cfg, reprojectBBox).value;
      var rows := RowSegments(p, intersect).value;
      var data := res.value.data;
      fresh(data) &&
      (forall i, j :: Visited(p, rows, i, j) ==> Sample(p, i, j).Success?) &&
      data.Length0 == p.outPixelDepth && data.Length1 == p.outHeight && data.Length2 == p.outWidth &&
      forall b, i, j :: 0 <= b < data.Length0 && 0 <= i < data.Length1 && 0 <= j < data.Length2 ==>
        data[b, i, j] == if Visited(p, rows, i, j) then Inserted(Sample(p, i, j), b, p.outNoData)
                         else p.outNoData
    ensures res.Success? ==>
      var p := Resolve(cfg, reprojectBBox).value;
      res.value.outBands == cfg.outBands && res.value.outLayout == p.outLayout &&
      res.value.outPixelHeight == p.outPixelHeight && res.value.outPixelWidth == p.outPixelWidth &&
      res.value.readBands == p.readBands
  {
    var setup := Resolve(cfg, reprojectBBox);
    if setup.Failure? {
      return Failure(SetupFailed(setup.error));
    }
    var p := setup.value;
    var rows := BuildSegments(p, intersect);
    if rows.Failure? {
      return Failure(RowOutOfRange(rows.error));
    }
    var w := new Warper(p);
    var walked := w.WalkRows(rows.value);
    if walked.Failure? {
      var i, j :| Visited(p, rows.value, i, j) && w.sample(i, j) == Failure(walked.error);
      assert w.sample(i, j) == Sample(p, i, j);
      return Failure(ReduceFailed(walked.error));
    }
    forall i, j | Visited(p, rows.value, i, j)
      ensures Sample(p, i, j).Success?
    {
      assert w.sample(i, j) == Sample(p, i, j);
    }
    res := Success(Warped(w.out, cfg.outBands, p.outLayout, p.outPixelHeight, p.outPixelWidth, p.readBands));
  }
}
