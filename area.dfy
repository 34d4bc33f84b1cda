/**
 * Area sampling (geowarp.js lines 412-515), used for every method other than
 * "near" and "bilinear": the output pixel's box is carried into the input
 * system, rounded to input pixels, clamped to the raster, and the input
 * values under it are reduced to one value per band by the chosen method.
 */
module Area {
  import opened Values
  import opened Reducers
  import opened Modes
  import opened Grid
  import opened Setup
  import opened Sampling

  /**
   * Lines 413-425 in closed form: the box of output pixel (r, c) in the output
   * system. The running `bottom` starts at out_ymax before the first row the
   * loop visits, so rows are counted from row_start.
   */
  function AreaBox(p: Plan, r: int, c: int): (b: BBox)
    ensures b.xmax - b.xmin == p.outPixelWidth && b.ymax - b.ymin == p.outPixelHeight
    ensures b.xmin - p.outBBox.xmin == p.outPixelWidth * c as real
    ensures p.outBBox.ymax - b.ymax == p.outPixelHeight * (r - p.rowStart) as real
  {
    var top := p.outBBox.ymax - p.outPixelHeight * (r - p.rowStart) as real;
    var left := p.outBBox.xmin + p.outPixelWidth * c as real;
    BBox(left, top - p.outPixelHeight, left + p.outPixelWidth, top)
  }

  /** Inclusive or half-open pixel bounds along rows (top, bottom) and columns (left, right). */
  datatype Rect = Rect(top: int, bottom: int, left: int, right: int)

  /**
   * Lines 429-447: the box's lower-left and upper-right corners carried into
   * the input system, measured in input pixels and rounded.
   */
  function Samples(p: Plan, b: BBox): (s: Rect)
    requires Divisible(p)
    ensures var lb := InPixels(p, p.toInput(Point(b.xmin, b.ymin)));
      var rt := InPixels(p, p.toInput(Point(b.xmax, b.ymax)));
      s.left as real - 0.5 <= lb.0 < s.left as real + 0.5 &&
      s.right as real - 0.5 <= rt.0 < s.right as real + 0.5 &&
      s.top as real - 0.5 <= rt.1 < s.top as real + 0.5 &&
      s.bottom as real - 0.5 <= lb.1 < s.bottom as real + 0.5
  {
    var lb := InPixels(p, p.toInput(Point(b.xmin, b.ymin)));
    var rt := InPixels(p, p.toInput(Point(b.xmax, b.ymax)));
    Rect(RoundHalfUp(rt.1), RoundHalfUp(lb.1), RoundHalfUp(lb.0), RoundHalfUp(rt.0))
  }

  /** Line 450: the rounded box misses the raster. */
  predicate OffRaster(p: Plan, s: Rect)
  {
    s.left >= p.inWidth || s.right < 0 || s.bottom < 0 || s.top >= p.inHeight
  }

  /** Lines 454-457: the rounded edges clamped to the raster. */
  function Clamp(p: Plan, s: Rect): (k: Rect)
    ensures 0 <= k.left && k.right <= p.inWidth && 0 <= k.top && k.bottom <= p.inHeight
    ensures !OffRaster(p, s) && p.inHeight > 0 && p.inWidth > 0 ==>
      k.left < p.inWidth && 0 <= k.right && k.top < p.inHeight && 0 <= k.bottom
    ensures k.left == MaxInt(0, s.left) && k.right == MinInt(s.right, p.inWidth)
    ensures k.top == MaxInt(0, s.top) && k.bottom == MinInt(s.bottom, p.inHeight)
  {
    Rect(MaxInt(0, s.top), MinInt(s.bottom, p.inHeight), MaxInt(0, s.left), MinInt(s.right, p.inWidth))
  }

  /**
   * Lines 468-469: the inclusive rectangle handed to clip. The upper bounds
   * never fall below the lower ones, so the rectangle is never empty.
   */
  function ClipRect(k: Rect): (q: Rect)
    ensures q.top == k.top && q.left == k.left && q.top <= q.bottom && q.left <= q.right
    ensures q.bottom == if k.top < k.bottom then k.bottom - 1 else k.top
    ensures q.right == if k.left < k.right then k.right - 1 else k.left
  {
    Rect(k.top, MaxInt(k.top, k.bottom - 1), k.left, MaxInt(k.left, k.right - 1))
  }

  /** Why a reducer throws: an unknown method name, or `mode` returning undefined for no values. */
  datatype ReduceError = UnknownMethod(name: string) | NoModes

  /** How the area branch reads a method name (lines 476-504). */
  datatype Kind =
    | MaxKind | MeanKind | MedianKind | MinKind
    | ModeKind | ModeMaxKind | ModeMeanKind | ModeMedianKind | ModeMinKind | OtherModeKind
    | UnknownKind

  predicate IsModeKind(k: Kind)
  {
    k.ModeKind? || k.ModeMaxKind? || k.ModeMeanKind? || k.ModeMedianKind? || k.ModeMinKind? || k.OtherModeKind?
  }

  /** The names the area branch recognises. */
  predicate KnownName(name: string)
  {
    name in {"max", "mean", "median", "min"} || StartsWith(name, "mode")
  }

  /** None of the four plain reducer names starts with "mode". */
  lemma PlainNamesAreNotModes()
    ensures !StartsWith("max", "mode") && !StartsWith("mean", "mode")
    ensures !StartsWith("median", "mode") && !StartsWith("min", "mode")
  {
    assert "mean"[..4] != "mode" by { assert "mean"[1] != "mode"[1]; }
    assert "median"[..4] != "mode" by { assert "median"[1] != "mode"[1]; }
  }

  /** The branch of lines 476-504 a method name selects, tested in the source's order. */
  function KindOf(name: string): (k: Kind)
    ensures k.UnknownKind? <==> !KnownName(name)
    ensures IsModeKind(k) <==> StartsWith(name, "mode")
    ensures k.ModeKind? <==> name == "mode"
    ensures k.OtherModeKind? <==>
      StartsWith(name, "mode") && name !in {"mode", "mode-max", "mode-mean", "mode-median", "mode-min"}
  {
    PlainNamesAreNotModes();
    if name == "max" then MaxKind
    else if name == "mean" then MeanKind
    else if name == "median" then MedianKind
    else if name == "min" then MinKind
    else if StartsWith(name, "mode") then
      if name == "mode" then ModeKind
      else if name == "mode-max" then ModeMaxKind
      else if name == "mode-mean" then ModeMeanKind
      else if name == "mode-median" then ModeMedianKind
      else if name == "mode-min" then ModeMinKind
      else OtherModeKind
    else UnknownKind
  }

  /**
   * Lines 485-501: a `mode…` method given what `mode(values)` returned (no
   * no-data value is passed, so every value is counted).
   */
  function ModeValue(k: Kind, modes: ModeResult, values: seq<real>): Result<Val, ReduceError>
  {
    match modes
    case Modes(ms) =>
      if |ms| == 1 then Success(Num(ms[0]))
      else
        (match k
         case ModeKind => Success(Get(NumSeq(ms), 0))
         case ModeMaxKind => Success(MaxValue(values, Undef, Undef))
         case ModeMeanKind => Success(MeanOf(values, Undef, Undef))
         case ModeMedianKind => Success(MedianValue(values, Undef, Undef))
         case ModeMinKind => Success(MinValue(values, Undef, Undef))
         case _ => Success(Null))
    case _ => Failure(NoModes)
  }

  /** The numbers of a list as values. */
  function NumSeq(s: seq<real>): (r: seq<Val>)
    ensures |r| == |s| && forall i :: 0 <= i < |s| ==> r[i] == Num(s[i])
  {
    seq(|s|, i requires 0 <= i < |s| => Num(s[i]))
  }

  /** Lines 474-504 for a method name. */
  function ReduceKind(k: Kind, name: string, values: seq<real>, inNoData: Val, outNoData: Val): Result<Val, ReduceError>
  {
    match k
    case MaxKind => Success(MaxValue(values, inNoData, outNoData))
    case MeanKind => Success(MeanOf(values, inNoData, outNoData))
    case MedianKind => Success(MedianValue(values, inNoData, outNoData))
    case MinKind => Success(MinValue(values, inNoData, outNoData))
    case UnknownKind => Failure(UnknownMethod(name))
    case _ => ModeValue(k, ModeSpec(values, Undef), values)
  }

  /** Lines 474-504: the value the method computes from the clipped values. */
  function Reduce(m: Method, values: seq<real>, inNoData: Val, outNoData: Val): Result<Val, ReduceError>
  {
    match m
    case Custom(f) => Success(f(values))
    case Named(name) => ReduceKind(KindOf(name), name, values, inNoData, outNoData)
  }

  /** Lines 461-506: one band of an area pixel over the clip rectangle `q`, rounded when `round` is set. */
  function AreaBand(p: Plan, q: Rect, band: int): Result<Val, ReduceError>
    requires q.left <= q.right
  {
    var values := Clip(p.raster, band, q.top, q.bottom, q.left, q.right);
    match Reduce(p.sampling, values, p.inNoData, p.outNoData)
    case Success(v) => Success(if p.round then Round(v) else v)
    case Failure(e) => Failure(e)
  }

  /** Lines 459-507: `f` of each band in order; the first band that throws ends the pixel. */
  function Collect(f: int --> Result<Val, ReduceError>, bands: seq<int>): (r: Result<seq<Val>, ReduceError>)
    requires forall b :: f.requires(b)
    ensures r.Success? ==> |r.value| == |bands|
  {
    if |bands| == 0 then Success([])
    else
      var init := Collect(f, bands[..|bands| - 1]);
      if init.Failure? then init
      else
        match f(bands[|bands| - 1])
        case Success(v) => Success(init.value + [v])
        case Failure(e) => Failure(e)
  }

  /** One band of the pixel whose clipped box is `q`. */
  function BandOf(p: Plan, q: Rect): (f: int --> Result<Val, ReduceError>)
    requires q.left <= q.right
    ensures forall b :: f.requires(b) && f(b) == AreaBand(p, q, b)
  {
    b requires q.left <= q.right => AreaBand(p, q, b)
  }

  /** Lines 459-507 for the clipped box `q`. */
  function AreaBands(p: Plan, q: Rect, bands: seq<int>): (r: Result<seq<Val>, ReduceError>)
    requires q.left <= q.right
    ensures r.Success? ==> |r.value| == |bands|
  {
    Collect(BandOf(p, q), bands)
  }

  /** Line 451: `in_no_data` once per band read. */
  function Fill(p: Plan): (pixel: seq<Val>)
    ensures |pixel| == |p.readBands| && forall i :: 0 <= i < |pixel| ==> pixel[i] == p.inNoData
  {
    seq(|p.readBands|, _ => p.inNoData)
  }

  /** Lines 429-510: the pixel area sampling inserts at output pixel (r, c), or the error it throws. */
  function AreaPixel(p: Plan, r: int, c: int): Result<seq<Val>, ReduceError>
    requires Divisible(p)
  {
    var s := Samples(p, AreaBox(p, r, c));
    if OffRaster(p, s) then Success(ApplyProcess(p.process, Fill(p)))
    else
      match AreaBands(p, ClipRect(Clamp(p, s)), p.readBands)
      case Success(pixel) => Success(ApplyProcess(p.process, pixel))
      case Failure(e) => Failure(e)
  }

  /** Lines 474-504, calling the `mean` and `mode` loops. */
  method ReduceValues(m: Method, values: seq<real>, inNoData: Val, outNoData: Val)
    returns (r: Result<Val, ReduceError>)
    ensures r == Reduce(m, values, inNoData, outNoData)
  {
    if m.Custom? {
      return Success(m.f(values));
    }
    var k := KindOf(m.name);
    match k
    case MaxKind => r := Success(MaxValue(values, inNoData, outNoData));
    case MeanKind =>
      var v := Mean(values, inNoData, outNoData);
      r := Success(v);
    case MedianKind => r := Success(MedianValue(values, inNoData, outNoData));
    case MinKind => r := Success(MinValue(values, inNoData, outNoData));
    case UnknownKind => r := Failure(UnknownMethod(m.name));
    case _ =>
      var modes := Mode(values, Undef);
      r := ReduceTie(k, modes, values);
  }

  /** Lines 486-501 once `mode` has returned, calling the `mean` loop for "mode-mean". */
  method ReduceTie(k: Kind, modes: ModeResult, values: seq<real>) returns (r: Result<Val, ReduceError>)
    ensures r == ModeValue(k, modes, values)
  {
    if !modes.Modes? {
      return Failure(NoModes);
    }
    var ms := modes.values;
    if |ms| == 1 {
      return Success(Num(ms[0]));
    }
    match k
    case ModeKind => r := Success(Get(NumSeq(ms), 0));
    case ModeMaxKind => r := Success(MaxValue(values, Undef, Undef));
    case ModeMeanKind =>
      var v := Mean(values, Undef, Undef);
      r := Success(v);
    case ModeMedianKind => r := Success(MedianValue(values, Undef, Undef));
    case ModeMinKind => r := Success(MinValue(values, Undef, Undef));
    case _ => r := Success(Null);
  }

  /** The band loop of lines 459-507. */
  method ReadArea(p: Plan, q: Rect) returns (r: Result<seq<Val>, ReduceError>)
    requires q.left <= q.right
    ensures r == AreaBands(p, q, p.readBands)
  {
    var pixel := [];
    for i := 0 to |p.readBands|
      invariant Collect(BandOf(p, q), p.readBands[..i]) == Success(pixel)
    {
      assert p.readBands[..i + 1][..i] == p.readBands[..i];
      var v := ReadBand(p, q, p.readBands[i]);
      if v.Failure? {
        r := Failure(v.error);
        PrefixFailure(BandOf(p, q), p.readBands, i + 1);
        return;
      }
      pixel := pixel + [v.value];
    }
    assert p.readBands[..|p.readBands|] == p.readBands;
    r := Success(pixel);
  }

  /** Lines 460-506: one band clipped, reduced and rounded. */
  method ReadBand(p: Plan, q: Rect, band: int) returns (r: Result<Val, ReduceError>)
    requires q.left <= q.right
    ensures r == AreaBand(p, q, band)
  {
    var values := Clip(p.raster, band, q.top, q.bottom, q.left, q.right);
    var v := ReduceValues(p.sampling, values, p.inNoData, p.outNoData);
    if v.Failure? {
      return Failure(v.error);
    }
    var value := v.value;
    if p.round {
      value := Round(value);
    }
    r := Success(value);
  }

  /** A band that throws makes the whole pixel throw with its error. */
  lemma {:induction false} PrefixFailure(f: int --> Result<Val, ReduceError>, bands: seq<int>, n: int)
    requires forall b :: f.requires(b)
    requires 0 < n <= |bands| && Collect(f, bands[..n - 1]).Success? && f(bands[n - 1]).Failure?
    ensures Collect(f, bands) == Failure(f(bands[n - 1]).error)
    decreases |bands|
  {
    assert bands[..n][..n - 1] == bands[..n - 1];
    if n < |bands| {
      assert bands[..|bands| - 1][..n - 1] == bands[..n - 1];
      assert bands[..|bands| - 1][n - 1] == bands[n - 1];
      PrefixFailure(f, bands[..|bands| - 1], n);
    }
  }

  /**
   * Lines 429-511 for one output pixel, given the running box the loops keep
   * (`left`, `bottom`, `right`, `top`).
   */
  method SampleArea(p: Plan, r: int, c: int, box: BBox) returns (res: Result<seq<Val>, ReduceError>)
    requires Divisible(p) && box == AreaBox(p, r, c)
    ensures res == AreaPixel(p, r, c)
  {
    var lb := p.toInput(Point(box.xmin, box.ymin));
    var rt := p.toInput(Point(box.xmax, box.ymax));
    var leftSample := RoundHalfUp((lb.x - p.inBBox.xmin) / p.inPixelWidth);
    var rightSample := RoundHalfUp((rt.x - p.inBBox.xmin) / p.inPixelWidth);
    var topSample := RoundHalfUp((p.inBBox.ymax - rt.y) / p.inPixelHeight);
    var bottomSample := RoundHalfUp((p.inBBox.ymax - lb.y) / p.inPixelHeight);
    var s := Rect(topSample, bottomSample, leftSample, rightSample);
    assert s == Samples(p, box);
    if leftSample >= p.inWidth || rightSample < 0 || bottomSample < 0 || topSample >= p.inHeight {
      var pixel := Fill(p);
      return Success(ApplyProcess(p.process, pixel));
    }
    var read := ReadArea(p, ClipRect(Clamp(p, s)));
    if read.Failure? {
      return Failure(read.error);
    }
    res := Success(ApplyProcess(p.process, read.value));
  }

  /**
   * Lines 450-471: a rounded box on the raster is clamped into it, and the
   * rectangle clipped is non-empty and inside the raster, so every band
   * reduces at least one value, each the value of an input cell.
   */
  lemma ClipInsideRaster(p: Plan, s: Rect, band: int)
    requires !OffRaster(p, s) && p.inHeight > 0 && p.inWidth > 0
    ensures var q := ClipRect(Clamp(p, s));
      0 <= q.top <= q.bottom < p.inHeight && 0 <= q.left <= q.right < p.inWidth
    ensures var q := ClipRect(Clamp(p, s));
      var values := Clip(p.raster, band, q.top, q.bottom, q.left, q.right);
      |values| > 0 &&
      forall v :: v in values ==>
        exists row, column :: (0 <= row < p.inHeight && 0 <= column < p.inWidth &&
          v == p.raster.cell(band, row, column))
  {
    var q := ClipRect(Clamp(p, s));
    ClipCells(p.raster, band, q.top, q.bottom, q.left, q.right);
  }

  /** Line 451: a box off the raster gives `in_no_data` in every band read, not out_no_data. */
  lemma OffRasterFillsInNoData(p: Plan, r: int, c: int)
    requires Divisible(p) && OffRaster(p, Samples(p, AreaBox(p, r, c)))
    ensures AreaPixel(p, r, c) == Success(ApplyProcess(p.process, Fill(p)))
    ensures p.process.Keep? ==>
      var px := AreaPixel(p, r, c).value;
      |px| == |p.readBands| && forall i :: 0 <= i < |px| ==> px[i] == p.inNoData
  {
  }

  /**
   * Lines 502-504: an unknown method name throws, but only for a pixel whose
   * box is on the raster and when some band is read; elsewhere it is never
   * looked at.
   */
  lemma UnknownMethodThrows(p: Plan, r: int, c: int)
    requires Divisible(p) && p.sampling.Named? && !KnownName(p.sampling.name)
    ensures var s := Samples(p, AreaBox(p, r, c));
      !OffRaster(p, s) && |p.readBands| > 0 ==>
        AreaPixel(p, r, c) == Failure(UnknownMethod(p.sampling.name))
    ensures OffRaster(p, Samples(p, AreaBox(p, r, c))) ==> AreaPixel(p, r, c).Success?
  {
    var s := Samples(p, AreaBox(p, r, c));
    if !OffRaster(p, s) && |p.readBands| > 0 {
      var q := ClipRect(Clamp(p, s));
      PrefixFailure(BandOf(p, q), p.readBands, 1);
    }
  }

  /** A known method never throws on a non-empty list of values. */
  lemma KnownMethodsSucceed(m: Method, values: seq<real>, inNoData: Val, outNoData: Val)
    requires |values| > 0 && (m.Custom? || KnownName(m.name))
    ensures Reduce(m, values, inNoData, outNoData).Success?
  {
    if m.Named? {
      var k := KindOf(m.name);
      if IsModeKind(k) {
        ModesAreMostFrequent(values, Undef);
      }
      KindSucceeds(k, m.name, values, inNoData, outNoData);
    }
  }

  lemma KindSucceeds(k: Kind, name: string, values: seq<real>, inNoData: Val, outNoData: Val)
    requires !k.UnknownKind? && (IsModeKind(k) ==> ModeSpec(values, Undef).Modes?)
    ensures ReduceKind(k, name, values, inNoData, outNoData).Success?
  {
    if IsModeKind(k) {
      ModeValueSucceeds(k, ModeSpec(values, Undef), values);
    }
  }

  lemma ModeValueSucceeds(k: Kind, modes: ModeResult, values: seq<real>)
    requires modes.Modes?
    ensures ModeValue(k, modes, values).Success?
  {
  }

  /** Lines 487-488: a unique mode is the value of every `mode…` method. */
  lemma UniqueModeWins(name: string, values: seq<real>, m: real)
    requires StartsWith(name, "mode") && ModeSpec(values, Undef) == Modes([m])
    ensures Reduce(Named(name), values, Undef, Undef) == Success(Num(m))
  {
    assert IsModeKind(KindOf(name));
    ReduceModeKind(KindOf(name), name, values, Undef, Undef);
  }

  /** Every `mode…` name reduces through `mode(values)` and the tie branches. */
  lemma ReduceModeKind(k: Kind, name: string, values: seq<real>, inNoData: Val, outNoData: Val)
    requires IsModeKind(k)
    ensures ReduceKind(k, name, values, inNoData, outNoData) == ModeValue(k, ModeSpec(values, Undef), values)
  {
  }

  /**
   * Lines 490-491: on a tie "mode" takes the first mode, which is a most
   * frequent value of all the values sampled.
   */
  lemma ModeTieTakesFirst(values: seq<real>)
    requires |values| > 0
    ensures var r := Reduce(Named("mode"), values, Undef, Undef);
      r.Success? && r.value.Num? && r.value.n in values &&
      forall y :: y in values ==> Count(values, y) <= Count(values, r.value.n)
  {
    ModesAreMostFrequent(values, Undef);
    var ms := ModeSpec(values, Undef).values;
    assert KindOf("mode") == ModeKind;
    ReduceModeKind(KindOf("mode"), "mode", values, Undef, Undef);
    assert ms[0] in ms;
    assert ModeValue(ModeKind, ModeSpec(values, Undef), values) == Success(Num(ms[0]));
  }

  /**
   * Lines 492-499: on a tie "mode-max", "mode-min", "mode-mean" and
   * "mode-median" reduce all the values sampled (without no-data filtering),
   * not just the tied ones.
   */
  lemma ModeTieMax(values: seq<real>)
    requires |values| > 0 && ModeSpec(values, Undef).Modes? && |ModeSpec(values, Undef).values| > 1
    ensures var r := Reduce(Named("mode-max"), values, Undef, Undef);
      r.Success? && r.value.Num? && r.value.n in values && forall y :: y in values ==> y <= r.value.n
  {
    assert KindOf("mode-max") == ModeMaxKind;
    ReduceModeKind(KindOf("mode-max"), "mode-max", values, Undef, Undef);
    TieMax(ModeSpec(values, Undef), values);
  }

  lemma ModeTieMin(values: seq<real>)
    requires |values| > 0 && ModeSpec(values, Undef).Modes? && |ModeSpec(values, Undef).values| > 1
    ensures var r := Reduce(Named("mode-min"), values, Undef, Undef);
      r.Success? && r.value.Num? && r.value.n in values && forall y :: y in values ==> r.value.n <= y
  {
    assert KindOf("mode-min") == ModeMinKind;
    ReduceModeKind(KindOf("mode-min"), "mode-min", values, Undef, Undef);
    TieMin(ModeSpec(values, Undef), values);
  }

  lemma ModeTieMean(values: seq<real>)
    requires |values| > 0 && ModeSpec(values, Undef).Modes? && |ModeSpec(values, Undef).values| > 1
    ensures Reduce(Named("mode-mean"), values, Undef, Undef) == Success(Num(Sum(values) / |values| as real))
  {
    assert KindOf("mode-mean") == ModeMeanKind;
    ReduceModeKind(KindOf("mode-mean"), "mode-mean", values, Undef, Undef);
    TieMean(ModeSpec(values, Undef), values);
  }

  lemma ModeTieMedian(values: seq<real>)
    requires |values| > 0 && ModeSpec(values, Undef).Modes? && |ModeSpec(values, Undef).values| > 1
    ensures var r := Reduce(Named("mode-median"), values, Undef, Undef);
      r.Success? && r.value.Num? && MinOf(values) <= r.value.n <= MaxOf(values)
  {
    assert KindOf("mode-median") == ModeMedianKind;
    ReduceModeKind(KindOf("mode-median"), "mode-median", values, Undef, Undef);
    TieMedian(ModeSpec(values, Undef), values);
  }

  /** The tie branches for any tally with two or more modes. */
  lemma TieMax(modes: ModeResult, values: seq<real>)
    requires |values| > 0 && modes.Modes? && |modes.values| > 1
    ensures var r := ModeValue(ModeMaxKind, modes, values);
      r.Success? && r.value.Num? && r.value.n in values && forall y :: y in values ==> y <= r.value.n
  {
    assert Valid(values, Undef) == values;
  }

  lemma TieMin(modes: ModeResult, values: seq<real>)
    requires |values| > 0 && modes.Modes? && |modes.values| > 1
    ensures var r := ModeValue(ModeMinKind, modes, values);
      r.Success? && r.value.Num? && r.value.n in values && forall y :: y in values ==> r.value.n <= y
  {
    assert Valid(values, Undef) == values;
  }

  lemma TieMean(modes: ModeResult, values: seq<real>)
    requires |values| > 0 && modes.Modes? && |modes.values| > 1
    ensures ModeValue(ModeMeanKind, modes, values) == Success(Num(Sum(values) / |values| as real))
  {
    assert Kept(values, Undef) == values;
  }

  lemma TieMedian(modes: ModeResult, values: seq<real>)
    requires |values| > 0 && modes.Modes? && |modes.values| > 1
    ensures var r := ModeValue(ModeMedianKind, modes, values);
      r.Success? && r.value.Num? && MinOf(values) <= r.value.n <= MaxOf(values)
  {
    assert Valid(values, Undef) == values;
  }

  /** Any other name starting with "mode" leaves the band null on a tie. */
  lemma ModeTieOtherNameIsNull(name: string, values: seq<real>)
    requires StartsWith(name, "mode") && name !in {"mode", "mode-max", "mode-mean", "mode-median", "mode-min"}
    requires ModeSpec(values, Undef).Modes? && |ModeSpec(values, Undef).values| > 1
    ensures Reduce(Named(name), values, Undef, Undef) == Success(Null)
  {
    assert KindOf(name).OtherModeKind?;
    ReduceModeKind(KindOf(name), name, values, Undef, Undef);
    TieOther(KindOf(name), ModeSpec(values, Undef), values);
  }

  lemma TieOther(k: Kind, modes: ModeResult, values: seq<real>)
    requires k.OtherModeKind? && modes.Modes? && |modes.values| > 1
    ensures ModeValue(k, modes, values) == Success(Null)
  {
  }

  /**
   * With rows counted from row_start (lines 414-418), output row r samples the
   * box whose top edge is where the pixel corner of row r - row_start lies.
   */
  lemma AreaRowsCountFromRowStart(p: Plan, r: int, c: int)
    ensures AreaBox(p, r, c).ymax == Corner(p, r - p.rowStart, c).y
    ensures AreaBox(p, r, c).xmin == Corner(p, r, c).x
  {
  }

  /**
   * Lines 414-423: the running edges the area loop keeps. With `top` the top
   * edge of row r and `left` the left edge of column c, the box
   * `[left, top - h, left + w, top]` is the box of pixel (r, c), and `left + w`
   * is the left edge of column c + 1.
   */
  lemma RunningEdges(p: Plan, r: int, c: int, top: real, left: real)
    requires top == p.outBBox.ymax - p.outPixelHeight * (r - p.rowStart) as real
    requires left == p.outBBox.xmin + p.outPixelWidth * c as real
    ensures AreaBox(p, r, c) == BBox(left, top - p.outPixelHeight, left + p.outPixelWidth, top)
    ensures left + p.outPixelWidth == p.outBBox.xmin + p.outPixelWidth * (c + 1) as real
  {
  }

  /** Lines 416-417: the bottom edge of row r is the top edge of row r + 1. */
  lemma RunningRows(p: Plan, r: int, top: real)
    requires top == p.outBBox.ymax - p.outPixelHeight * (r - p.rowStart) as real
    ensures top - p.outPixelHeight == p.outBBox.ymax - p.outPixelHeight * (r + 1 - p.rowStart) as real
  {
  }
}
