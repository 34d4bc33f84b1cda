/**
 * Bilinear sampling (geowarp.js lines 332-411): the four input pixels around
 * the sample point, combined along the top and bottom rows and then between
 * the rows, with corners that are off the raster or `in_no_data` left out.
 */
module Bilinear {
  import opened Values
  import opened Reducers
  import opened Grid
  import opened Setup
  import opened Sampling

  /** Lines 353-361: the four surrounding input pixels and the weights. */
  datatype Frame = Frame(left: int, right: int, bottom: int, top: int, lw: real, rw: real, bw: real, tw: real)

  /**
   * Lines 349-361 at the fractional input position `xy`: the corners bracket
   * the position shifted back by half a pixel, but the weights are `% 1` of the
   * unshifted position.
   */
  function FrameAt(xy: (real, real)): (f: Frame)
    ensures f.left as real <= xy.0 - 0.5 <= f.right as real && f.right <= f.left + 1 &&
      f.bottom as real <= xy.1 - 0.5 <= f.top as real && f.top <= f.bottom + 1
    ensures f.left == Floor(xy.0 - 0.5) && f.right == Ceil(xy.0 - 0.5) &&
      f.bottom == Floor(xy.1 - 0.5) && f.top == Ceil(xy.1 - 0.5)
    ensures f.lw == Rem1(xy.0) && f.bw == Rem1(xy.1) && f.lw + f.rw == 1.0 && f.bw + f.tw == 1.0
    ensures (0.0 <= xy.0 ==> 0.0 <= f.lw < 1.0) && (0.0 <= xy.1 ==> 0.0 <= f.bw < 1.0)
  {
    var lw := Rem1(xy.0);
    var bw := Rem1(xy.1);
    Frame(Floor(xy.0 - 0.5), Ceil(xy.0 - 0.5), Floor(xy.1 - 0.5), Ceil(xy.1 - 0.5), lw, 1.0 - lw, bw, 1.0 - bw)
  }

  /** Lines 345-361 for output pixel (r, c). */
  function BilinearFrame(p: Plan, r: int, c: int): Frame
    requires Divisible(p)
  {
    FrameAt(InPixels(p, p.toInput(Corner(p, r, c))))
  }

  /**
   * At a whole-pixel position k the corners are k - 1 and k, yet the weight of
   * the left corner is 0: the row value is the right corner's alone.
   */
  lemma FrameAtWholePixel(xy: (real, real), k: int)
    requires xy.0 == k as real
    ensures var f := FrameAt(xy);
      f.left == k - 1 && f.right == k && f.lw == 0.0 && f.rw == 1.0
  {
    var f := FrameAt(xy);
    assert f.left == k - 1;
    assert f.right == k;
    assert Trunc(xy.0) == k;
  }

  /**
   * At the half-pixel position k + 0.5 (k >= 0) both columns are k with equal
   * weights, while just below it the columns are k - 1 and k: the row value
   * jumps from a blend of two pixels to pixel k alone.
   */
  lemma FrameAtHalfPixel(xy: (real, real), k: nat)
    requires xy.0 == k as real + 0.5
    ensures var f := FrameAt(xy);
      f.left == k && f.right == k && f.lw == 0.5 && f.rw == 0.5
  {
    var f := FrameAt(xy);
    assert f.left == k;
    assert f.right == k;
    assert Trunc(xy.0) == k;
  }

  /** A corner takes part when it is on the raster and not `===` in_no_data. */
  predicate Usable(v: Option<real>, inNoData: Val)
  {
    v.Some? && !StrictEq(Num(v.value), inNoData)
  }

  /** A corner as JavaScript holds it: undefined off the raster. */
  function Raw(v: Option<real>): Val
  {
    if v.Some? then Num(v.value) else Undef
  }

  /** `w * a + v * b`. */
  function Weighted(w: real, a: real, v: real, b: real): real
  {
    w * a + v * b
  }

  /** Lines 371-380: the top row's value, undefined when neither corner takes part. */
  function TopRow(ul: Option<real>, ur: Option<real>, inNoData: Val, lw: real, rw: real): Val
  {
    if !Usable(ul, inNoData) && !Usable(ur, inNoData) then Undef
    else if !Usable(ul, inNoData) then Num(ur.value)
    else if !Usable(ur, inNoData) then Num(ul.value)
    else Num(Weighted(lw, ul.value, rw, ur.value))
  }

  /**
   * Lines 382-391 as written: the third test looks at the upper-right corner
   * (line 387), so the lower-right corner is blended in unchecked.
   */
  function BottomRow(ll: Option<real>, lr: Option<real>, ur: Option<real>, inNoData: Val, lw: real, rw: real): Val
  {
    if !Usable(ll, inNoData) && !Usable(lr, inNoData) then Undef
    else if !Usable(ll, inNoData) then Num(lr.value)
    else if !Usable(ur, inNoData) then Num(ll.value)
    else Add(Mul(lw, Num(ll.value)), Mul(rw, Raw(lr)))
  }

  /** Lines 393-402: between the rows, out_no_data when neither row has a value. */
  function Blend(top: Val, bottom: Val, tw: real, bw: real, outNoData: Val): Val
  {
    if top.Undef? && bottom.Undef? then outNoData
    else if top.Undef? then bottom
    else if bottom.Undef? then top
    else Add(Mul(bw, top), Mul(tw, bottom))
  }

  /** Lines 365-404: one band's value, rounded when `round` is set. */
  function BilinearBand(p: Plan, f: Frame, band: int): Val
  {
    var ul := Select(p.raster, band, f.top, f.left);
    var ur := Select(p.raster, band, f.top, f.right);
    var ll := Select(p.raster, band, f.bottom, f.left);
    var lr := Select(p.raster, band, f.bottom, f.right);
    var v := Blend(TopRow(ul, ur, p.inNoData, f.lw, f.rw),
                   BottomRow(ll, lr, ur, p.inNoData, f.lw, f.rw), f.tw, f.bw, p.outNoData);
    if p.round then Round(v) else v
  }

  /** Lines 363-406: the bands of `read_bands`, in order. */
  function BilinearRead(p: Plan, f: Frame): (pixel: seq<Val>)
    ensures |pixel| == |p.readBands|
    ensures forall i :: 0 <= i < |pixel| ==> pixel[i] == BilinearBand(p, f, p.readBands[i])
  {
    seq(|p.readBands|, i requires 0 <= i < |p.readBands| => BilinearBand(p, f, p.readBands[i]))
  }

  /** Lines 341-407: the pixel bilinear sampling inserts at output pixel (r, c). */
  function BilinearPixel(p: Plan, r: int, c: int): seq<Val>
    requires Divisible(p)
  {
    ApplyProcess(p.process, BilinearRead(p, BilinearFrame(p, r, c)))
  }

  /** The band loop of lines 364-406. */
  method ReadBilinear(p: Plan, f: Frame) returns (pixel: seq<Val>)
    ensures pixel == BilinearRead(p, f)
  {
    pixel := [];
    for i := 0 to |p.readBands|
      invariant |pixel| == i
      invariant forall j :: 0 <= j < i ==> pixel[j] == BilinearBand(p, f, p.readBands[j])
    {
      var readBand := p.readBands[i];
      var ul := Select(p.raster, readBand, f.top, f.left);
      var ur := Select(p.raster, readBand, f.top, f.right);
      var ll := Select(p.raster, readBand, f.bottom, f.left);
      var lr := Select(p.raster, readBand, f.bottom, f.right);
      var topValue := TopRow(ul, ur, p.inNoData, f.lw, f.rw);
      var bottomValue := BottomRow(ll, lr, ur, p.inNoData, f.lw, f.rw);
      var value := Blend(topValue, bottomValue, f.tw, f.bw, p.outNoData);
      if p.round {
        value := Round(value);
      }
      pixel := pixel + [value];
    }
  }

  /** Lines 341-407 for one output pixel. */
  method SampleBilinear(p: Plan, r: int, c: int) returns (pixel: seq<Val>)
    requires Divisible(p)
    ensures pixel == BilinearPixel(p, r, c)
  {
    var f := BilinearFrame(p, r, c);
    pixel := ReadBilinear(p, f);
    pixel := ApplyProcess(p.process, pixel);
  }

  /** Lines 394-401: no row value gives out_no_data, one row value is taken as it is. */
  lemma BlendFallbacks(top: Val, bottom: Val, tw: real, bw: real, outNoData: Val)
    ensures top.Undef? && bottom.Undef? ==> Blend(top, bottom, tw, bw, outNoData) == outNoData
    ensures top.Undef? && !bottom.Undef? ==> Blend(top, bottom, tw, bw, outNoData) == bottom
    ensures !top.Undef? && bottom.Undef? ==> Blend(top, bottom, tw, bw, outNoData) == top
  {
  }

  /** Within the top row a corner that does not take part leaves the other corner's value, unweighted. */
  lemma TopRowCopiesUsableCorner(ul: Option<real>, ur: Option<real>, inNoData: Val, lw: real, rw: real)
    ensures Usable(ul, inNoData) && !Usable(ur, inNoData) ==> TopRow(ul, ur, inNoData, lw, rw) == Num(ul.value)
    ensures !Usable(ul, inNoData) && Usable(ur, inNoData) ==> TopRow(ul, ur, inNoData, lw, rw) == Num(ur.value)
    ensures TopRow(ul, ur, inNoData, lw, rw).Undef? <==> !Usable(ul, inNoData) && !Usable(ur, inNoData)
  {
  }

  /**
   * Line 387 as written: with both lower corners usable, an unusable upper-right
   * corner makes the bottom row drop its lower-right value; and with the
   * upper-right corner usable, an unusable lower-right corner is blended in:
   * off the raster it turns the row into NaN, equal to a numeric `in_no_data`
   * it blends the no-data number itself.
   */
  lemma BottomRowChecksUpperRight(ll: real, lr: Option<real>, ur: Option<real>, inNoData: Val, lw: real, rw: real)
    requires Usable(Some(ll), inNoData)
    ensures Usable(lr, inNoData) && !Usable(ur, inNoData) ==>
      BottomRow(Some(ll), lr, ur, inNoData, lw, rw) == Num(ll)
    ensures lr.None? && Usable(ur, inNoData) ==> BottomRow(Some(ll), lr, ur, inNoData, lw, rw) == NaN
    ensures (inNoData.Num? && lr == Some(inNoData.n) && Usable(ur, inNoData)) ==>
      BottomRow(Some(ll), lr, ur, inNoData, lw, rw) == Num(lw * ll + rw * inNoData.n)
  {
  }

  /**
   * Lines 382-386: the bottom row is undefined exactly when neither lower
   * corner takes part, and a usable lower-right corner alone is copied
   * unweighted.
   */
  lemma BottomRowCopiesLowerRight(ll: Option<real>, lr: Option<real>, ur: Option<real>, inNoData: Val, lw: real, rw: real)
    ensures !Usable(ll, inNoData) && Usable(lr, inNoData) ==>
      BottomRow(ll, lr, ur, inNoData, lw, rw) == Num(lr.value)
    ensures BottomRow(ll, lr, ur, inNoData, lw, rw).Undef? <==> !Usable(ll, inNoData) && !Usable(lr, inNoData)
  {
  }

  /** `w * a + v * b` stays within bounds that hold `a` and `b`, for weights in [0, 1] that sum to 1. */
  lemma Convex(a: real, b: real, w: real, v: real, lo: real, hi: real)
    requires 0.0 <= w <= 1.0 && v == 1.0 - w && lo <= a <= hi && lo <= b <= hi
    ensures lo <= Weighted(w, a, v, b) <= hi
  {
    Nonneg(w, a - lo);
    Nonneg(v, b - lo);
    Nonneg(w, hi - a);
    Nonneg(v, hi - b);
  }

  lemma Nonneg(x: real, y: real)
    requires 0.0 <= x && 0.0 <= y
    ensures 0.0 <= x * y
  {
  }

  function Min4(a: real, b: real, c: real, d: real): real
  {
    var ab := if a < b then a else b;
    var cd := if c < d then c else d;
    if ab < cd then ab else cd
  }

  lemma Bounds4(a: real, b: real, c: real, d: real)
    ensures Min4(a, b, c, d) <= a <= Max4(a, b, c, d) && Min4(a, b, c, d) <= b <= Max4(a, b, c, d)
    ensures Min4(a, b, c, d) <= c <= Max4(a, b, c, d) && Min4(a, b, c, d) <= d <= Max4(a, b, c, d)
  {
  }

  function Max4(a: real, b: real, c: real, d: real): real
  {
    var ab := if a < b then b else a;
    var cd := if c < d then d else c;
    if ab < cd then cd else ab
  }

  /** With all four corners usable the two rows and the blend are plain weighted sums. */
  lemma BlendOfUsable(ul: real, ur: real, ll: real, lr: real, inNoData: Val, f: Frame, outNoData: Val)
    requires Usable(Some(ul), inNoData) && Usable(Some(ur), inNoData)
    requires Usable(Some(ll), inNoData) && Usable(Some(lr), inNoData)
    ensures Blend(TopRow(Some(ul), Some(ur), inNoData, f.lw, f.rw),
                  BottomRow(Some(ll), Some(lr), Some(ur), inNoData, f.lw, f.rw), f.tw, f.bw, outNoData) ==
      Num(Weighted(f.bw, Weighted(f.lw, ul, f.rw, ur), f.tw, Weighted(f.lw, ll, f.rw, lr)))
  {
    assert TopRow(Some(ul), Some(ur), inNoData, f.lw, f.rw) == Num(Weighted(f.lw, ul, f.rw, ur));
    assert BottomRow(Some(ll), Some(lr), Some(ur), inNoData, f.lw, f.rw) == Num(Weighted(f.lw, ll, f.rw, lr));
  }

  /**
   * With weights in [0, 1] the interpolated value of four corners lies between
   * the smallest and the largest of them.
   */
  lemma WeightedWithinCorners(ul: real, ur: real, ll: real, lr: real, f: Frame)
    requires 0.0 <= f.lw <= 1.0 && f.rw == 1.0 - f.lw && 0.0 <= f.bw <= 1.0 && f.tw == 1.0 - f.bw
    ensures Min4(ul, ur, ll, lr) <= Weighted(f.bw, Weighted(f.lw, ul, f.rw, ur), f.tw, Weighted(f.lw, ll, f.rw, lr))
      <= Max4(ul, ur, ll, lr)
  {
    var lo, hi := Min4(ul, ur, ll, lr), Max4(ul, ur, ll, lr);
    Bounds4(ul, ur, ll, lr);
    var top := Weighted(f.lw, ul, f.rw, ur);
    var bottom := Weighted(f.lw, ll, f.rw, lr);
    assert lo <= top <= hi by {
      Convex(ul, ur, f.lw, f.rw, lo, hi);
    }
    assert lo <= bottom <= hi by {
      Convex(ll, lr, f.lw, f.rw, lo, hi);
    }
    Convex(top, bottom, f.bw, f.tw, lo, hi);
  }

  /**
   * The same bound for a band of an output pixel whose four surrounding input
   * pixels are all on the raster and not `in_no_data`, without rounding.
   */
  lemma BilinearWithinCorners(p: Plan, r: int, c: int, band: int)
    requires Divisible(p) && !p.round
    requires var xy := InPixels(p, p.toInput(Corner(p, r, c))); 0.0 <= xy.0 && 0.0 <= xy.1
    requires var f := BilinearFrame(p, r, c);
      InRaster(p.raster, band, f.top, f.left) && InRaster(p.raster, band, f.top, f.right) &&
      InRaster(p.raster, band, f.bottom, f.left) && InRaster(p.raster, band, f.bottom, f.right)
    requires var f := BilinearFrame(p, r, c);
      !StrictEq(Num(p.raster.cell(band, f.top, f.left)), p.inNoData) &&
      !StrictEq(Num(p.raster.cell(band, f.top, f.right)), p.inNoData) &&
      !StrictEq(Num(p.raster.cell(band, f.bottom, f.left)), p.inNoData) &&
      !StrictEq(Num(p.raster.cell(band, f.bottom, f.right)), p.inNoData)
    ensures var f := BilinearFrame(p, r, c);
      var v := BilinearBand(p, f, band);
      v.Num? &&
      Min4(p.raster.cell(band, f.top, f.left), p.raster.cell(band, f.top, f.right),
           p.raster.cell(band, f.bottom, f.left), p.raster.cell(band, f.bottom, f.right)) <= v.n <=
      Max4(p.raster.cell(band, f.top, f.left), p.raster.cell(band, f.top, f.right),
           p.raster.cell(band, f.bottom, f.left), p.raster.cell(band, f.bottom, f.right))
  {
    var f := BilinearFrame(p, r, c);
    var ul, ur := p.raster.cell(band, f.top, f.left), p.raster.cell(band, f.top, f.right);
    var ll, lr := p.raster.cell(band, f.bottom, f.left), p.raster.cell(band, f.bottom, f.right);
    BlendOfUsable(ul, ur, ll, lr, p.inNoData, f, p.outNoData);
    WeightedWithinCorners(ul, ur, ll, lr, f);
  }

  /**
   * Line 404 rounds every value, out_no_data included: where no corner takes
   * part a rounded band holds Math.round(out_no_data), which is 0 for the
   * default null.
   */
  lemma BilinearRoundsNoData(p: Plan, f: Frame, band: int)
    requires p.round
    requires !Usable(Select(p.raster, band, f.top, f.left), p.inNoData)
    requires !Usable(Select(p.raster, band, f.top, f.right), p.inNoData)
    requires !Usable(Select(p.raster, band, f.bottom, f.left), p.inNoData)
    requires !Usable(Select(p.raster, band, f.bottom, f.right), p.inNoData)
    ensures BilinearBand(p, f, band) == Round(p.outNoData)
    ensures p.outNoData.Null? ==> BilinearBand(p, f, band) == Num(0.0)
  {
  }
}
