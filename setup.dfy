/**
 * The setup phase of `geowarp` (geowarp.js lines 124-293): the configuration
 * checks that throw, the defaults for the spatial reference systems, bounding
 * boxes, band count, `read_bands`, the per-pixel `process` step and the output
 * band count, the resize shortcut, the pixel sizes and the cutline
 * reprojection. The result is a fully resolved Plan that the sampling loops
 * read.
 */
module Setup {
  import opened Values
  import opened Reducers
  import opened Grid

  /** A spatial reference system argument: undefined, null, an EPSG code or a name. */
  datatype Srs = UnsetSrs | NullSrs | Code(code: int) | Name(name: string)

  /** `[xmin, ymin, xmax, ymax]`. */
  datatype BBox = BBox(xmin: real, ymin: real, xmax: real, ymax: real)

  /** A bounding-box argument: undefined, null, or four numbers. */
  datatype BoxArg = UndefBox | NullBox | Given(box: BBox)

  /**
   * What band-count inference looks at in `in_data`: its length, its nesting
   * depth as get-depth reports it, the length of its first element and the
   * length of the first element of that.
   */
  datatype Shape = Shape(length: nat, depth: nat, firstLength: nat, firstFirstLength: nat)

  /** The sampling method: a name, or a function from the sampled values to a pixel band value. */
  datatype Method = Named(name: string) | Custom(f: seq<real> -> Val)

  /** The extra step applied to every pixel after it is read (lines 169-176). */
  datatype Process =
    | Keep
    | Expr(f: seq<Val> -> seq<Val>)
    | Reorder(outBands: seq<int>, readBands: seq<int>)

  /** A cutline: polygon rings of points. */
  type Geometry = seq<seq<Point>>

  /**
   * The arguments of `geowarp`. A missing `in_height` / `in_width` is 0 (both
   * are falsy); an argument with a default of its own is an Option here and the
   * default is applied by Setup.
   */
  datatype Config = Config(
    inCells: (int, int, int) -> real,
    inShape: Shape,
    inBBox: BoxArg,
    inLayout: Option<string>,
    inSrs: Srs,
    inHeight: nat,
    inWidth: nat,
    inPixelDepth: Option<nat>,
    inPixelHeight: Option<real>,
    inPixelWidth: Option<real>,
    inNoData: Val,
    outBands: Option<seq<int>>,
    outPixelDepth: Option<nat>,
    outPixelHeight: Option<real>,
    outPixelWidth: Option<real>,
    outBBox: BoxArg,
    outLayout: Option<string>,
    outSrs: Srs,
    outWidth: Option<nat>,
    outHeight: Option<nat>,
    outNoData: Val,
    sampling: Option<Method>,
    readBands: Option<seq<int>>,
    rowStart: Option<nat>,
    rowEnd: Option<int>,
    expr: Option<seq<Val> -> seq<Val>>,
    round: bool,
    inverse: Option<Point -> Point>,
    reproject: Option<Point -> Point>,
    forward: Option<Point -> Point>,
    cutline: Option<Geometry>,
    cutlineSrs: Srs,
    cutlineForward: Option<Point -> Point>)

  /** The errors the setup phase throws. */
  datatype SetupError =
    | CannotReprojectWithoutInBBox
    | MustSpecifyOutBBoxOrForward
    | MustSpecifyReproject
    | MissingInHeight
    | MissingInWidth
    | UndeterminedBandCount
    | BBoxNotIterable
    | MissingCutlineForward

  /** Everything the sampling loops read, with every default resolved. */
  datatype Plan = Plan(
    sameSrs: bool,
    toInput: Point -> Point,
    inBBox: BBox,
    outBBox: BBox,
    outSrs: Srs,
    inPixelDepth: nat,
    inHeight: nat,
    inWidth: nat,
    inPixelHeight: real,
    inPixelWidth: real,
    outPixelDepth: nat,
    outHeight: nat,
    outWidth: nat,
    outPixelHeight: real,
    outPixelWidth: real,
    outLayout: string,
    readBands: seq<int>,
    process: Process,
    inNoData: Val,
    outNoData: Val,
    sampling: Method,
    rowStart: nat,
    rowEnd: int,
    round: bool,
    cutline: Option<Geometry>,
    raster: Raster)

  const DefaultLayout := "[band][row,column]"
  const DefaultSize: nat := 256

  predicate StartsWith(s: string, prefix: string)
  {
    |prefix| <= |s| && s[..|prefix|] == prefix
  }

  /** `in_srs === out_srs`. */
  predicate SameSrs(cfg: Config)
  {
    cfg.inSrs == cfg.outSrs
  }

  /** `eq(a, b)`: equal JSON serialisations; undefined serialises to undefined, null to "null". */
  predicate BoxEq(a: BoxArg, b: BoxArg)
  {
    a == b
  }

  function Identity(p: Point): Point { p }

  /** The number of input bands when `in_pixel_depth` is not given (lines 149-165). */
  function InferDepth(layout: string, shape: Shape, inHeight: nat, inWidth: nat): (d: Option<nat>)
    requires inHeight > 0 && inWidth > 0
    ensures StartsWith(layout, "[band]") ==> d == Some(shape.length)
    ensures !StartsWith(layout, "[band]") && shape.depth == 1 ==>
      (d.Some? <==> shape.length % (inHeight * inWidth) == 0) &&
      (d.Some? ==> d.value * inHeight * inWidth == shape.length)
    ensures !StartsWith(layout, "[band]") && shape.depth == 2 ==> d == Some(shape.firstLength)
    ensures !StartsWith(layout, "[band]") && shape.depth == 3 ==> d == Some(shape.firstFirstLength)
    ensures !StartsWith(layout, "[band]") && shape.depth !in {1, 2, 3} ==> d.None?
  {
    if StartsWith(layout, "[band]") then Some(shape.length)
    else if shape.depth == 1 then
      var cells := inHeight * inWidth;
      if shape.length % cells == 0 then Some(shape.length / cells) else None
    else if shape.depth == 2 then Some(shape.firstLength)
    else if shape.depth == 3 then Some(shape.firstFirstLength)
    else None
  }

  /**
   * `process` and `read_bands` (lines 171-182): an expression wins over band
   * selection; `read_bands` defaults to uniq(out_bands) with out_bands, and to
   * every band otherwise.
   */
  function ResolveBands(expr: Option<seq<Val> -> seq<Val>>, outBands: Option<seq<int>>,
                        readBands: Option<seq<int>>, depth: nat): (pr: (Process, seq<int>))
    ensures readBands.Some? ==> pr.1 == readBands.value
    ensures readBands.None? && (expr.Some? || outBands.None?) ==> pr.1 == Range(depth)
    ensures readBands.None? && expr.None? && outBands.Some? ==> pr.1 == Uniq(outBands.value)
    ensures expr.Some? ==> pr.0.Expr? && pr.0.f == expr.value
    ensures expr.None? && outBands.Some? ==> pr.0 == Reorder(outBands.value, pr.1)
    ensures expr.None? && outBands.None? ==> pr.0.Keep?
  {
    if expr.Some? then
      (Expr(expr.value), if readBands.Some? then readBands.value else Range(depth))
    else if outBands.Some? then
      var rb := if readBands.Some? then readBands.value else Uniq(outBands.value);
      (Reorder(outBands.value, rb), rb)
    else
      (Keep, if readBands.Some? then readBands.value else Range(depth))
  }

  /** `reprojectGeoJSON`: every point of the cutline mapped through `f`. */
  function ReprojectGeometry(g: Geometry, f: Point -> Point): (r: Geometry)
    ensures |r| == |g|
    ensures forall i :: 0 <= i < |g| ==>
      (|r[i]| == |g[i]| && forall j :: 0 <= j < |g[i]| ==> r[i][j] == f(g[i][j]))
  {
    seq(|g|, i requires 0 <= i < |g| => seq(|g[i]|, j requires 0 <= j < |g[i]| => f(g[i][j])))
  }

  /** `in_pixel_depth`, given or inferred from the shape of `in_data`. */
  function InputDepth(cfg: Config): Option<nat>
    requires cfg.inHeight > 0 && cfg.inWidth > 0
  {
    if cfg.inPixelDepth.Some? then cfg.inPixelDepth
    else InferDepth(if cfg.inLayout.Some? then cfg.inLayout.value else DefaultLayout,
                    cfg.inShape, cfg.inHeight, cfg.inWidth)
  }

  /** Line 102: an omitted `out_bbox` defaults to null; `in_bbox` has no default. */
  function OutBBoxArg(cfg: Config): (b: BoxArg)
    ensures b != UndefBox
    ensures cfg.outBBox != UndefBox ==> b == cfg.outBBox
  {
    if cfg.outBBox.UndefBox? then NullBox else cfg.outBBox
  }

  /**
   * Lines 130 and 138: the checks a call with different systems has passed once
   * it reaches line 141: an input box, an output box or `forward`, and an inverse.
   */
  predicate ReprojectionReady(cfg: Config)
  {
    cfg.inBBox.Given? && (cfg.outBBox.Given? || cfg.forward.Some?) &&
    (cfg.inverse.Some? || cfg.reproject.Some?)
  }

  /** Line 188: the same system and equal boxes mean a plain resize. */
  predicate IsResize(cfg: Config, outBBoxArg: BoxArg)
  {
    SameSrs(cfg) && BoxEq(cfg.inBBox, outBBoxArg)
  }

  /**
   * The setup phase. `reprojectBBox` stands for reproject-bbox, which line 133
   * calls to derive the output bounding box from the input one and `forward`.
   * Lines 124-143 are checked here; Configure does the rest.
   */
  function Resolve(cfg: Config, reprojectBBox: (BBox, Point -> Point) -> BBox): (r: Result<Plan, SetupError>)
    ensures !SameSrs(cfg) && !cfg.inBBox.Given? ==> r == Failure(CannotReprojectWithoutInBBox)
    ensures (!SameSrs(cfg) && cfg.inBBox.Given? && !cfg.outBBox.Given? && cfg.forward.None?) ==>
      r == Failure(MustSpecifyOutBBoxOrForward)
    ensures (!SameSrs(cfg) && cfg.inBBox.Given? && (cfg.outBBox.Given? || cfg.forward.Some?) &&
      cfg.inverse.None? && cfg.reproject.None?) ==> r == Failure(MustSpecifyReproject)
    ensures (SameSrs(cfg) || ReprojectionReady(cfg)) && cfg.inHeight == 0 ==> r == Failure(MissingInHeight)
    ensures (SameSrs(cfg) || ReprojectionReady(cfg)) && cfg.inHeight != 0 && cfg.inWidth == 0 ==>
      r == Failure(MissingInWidth)
    ensures r.Success? ==> cfg.inHeight > 0 && cfg.inWidth > 0 && r.value.sameSrs == SameSrs(cfg)
    ensures r.Success? && SameSrs(cfg) ==> forall p :: r.value.toInput(p) == p
    ensures r.Success? && !SameSrs(cfg) ==>
      ReprojectionReady(cfg) &&
      r.value.toInput == (if cfg.inverse.Some? then cfg.inverse.value else cfg.reproject.value)
  {
    var sameSrs := SameSrs(cfg);
    var inverse := if cfg.inverse.Some? then cfg.inverse else cfg.reproject;
    if !sameSrs && !cfg.inBBox.Given? then Failure(CannotReprojectWithoutInBBox)
    else if !sameSrs && !cfg.outBBox.Given? && cfg.forward.None? then Failure(MustSpecifyOutBBoxOrForward)
    else
      var outBBoxArg :=
        if !sameSrs && !cfg.outBBox.Given? then Given(reprojectBBox(cfg.inBBox.box, cfg.forward.value))
        else OutBBoxArg(cfg);
      if !sameSrs && inverse.None? then Failure(MustSpecifyReproject)
      else if cfg.inHeight == 0 then Failure(MissingInHeight)
      else if cfg.inWidth == 0 then Failure(MissingInWidth)
      else Configure(cfg, if sameSrs then Identity else inverse.value, outBBoxArg)
  }

  /**
   * Lines 188-192 and 195, 202: the boxes the pixel loops use and the output
   * system after the resize shortcut, or None when a box is not four numbers.
   */
  function Boxes(cfg: Config, outBBoxArg: BoxArg, outWidth: nat, outHeight: nat): (b: Option<(BBox, BBox, Srs)>)
    ensures IsResize(cfg, outBBoxArg) ==>
      b == Some((BBox(0.0, 0.0, cfg.inWidth as real, cfg.inHeight as real),
                 BBox(0.0, 0.0, outWidth as real, outHeight as real), NullSrs))
    ensures !IsResize(cfg, outBBoxArg) ==>
      (b.Some? <==> cfg.inBBox.Given? && outBBoxArg.Given?) &&
      (b.Some? ==> b.value == (cfg.inBBox.box, outBBoxArg.box, cfg.outSrs))
  {
    if IsResize(cfg, outBBoxArg) then
      Some((BBox(0.0, 0.0, cfg.inWidth as real, cfg.inHeight as real),
            BBox(0.0, 0.0, outWidth as real, outHeight as real), NullSrs))
    else if cfg.inBBox.Given? && outBBoxArg.Given? then Some((cfg.inBBox.box, outBBoxArg.box, cfg.outSrs))
    else None
  }

  /**
   * Lines 197-198 and 208-209: a pixel size, given or the extent divided by the
   * number of pixels (0 pixels give size 0).
   */
  function PixelSize(given: Option<real>, lo: real, hi: real, count: nat): (size: real)
    ensures given.Some? ==> size == given.value
    ensures given.None? && count > 0 ==> size * count as real == hi - lo
  {
    if given.Some? then given.value
    else if count == 0 then 0.0
    else (hi - lo) / count as real
  }

  /**
   * Lines 232-241: the cutline in the output system. A cutline in another
   * system needs `cutline_forward`; the fallback to `forward` on line 237 is
   * overwritten by the throw on line 238, so it never helps.
   */
  function OutputCutline(cutline: Option<Geometry>, cutlineSrs: Srs, outSrs: Srs,
                         cutlineForward: Option<Point -> Point>): (c: Result<Option<Geometry>, SetupError>)
    ensures c.Failure? <==> cutline.Some? && cutlineSrs != outSrs && cutlineForward.None?
    ensures c.Failure? ==> c.error == MissingCutlineForward
    ensures c.Success? && cutline.Some? && cutlineSrs != outSrs ==>
      c.value == Some(ReprojectGeometry(cutline.value, cutlineForward.value))
    ensures c.Success? && (cutline.None? || cutlineSrs == outSrs) ==> c.value == cutline
  {
    if cutline.Some? && cutlineSrs != outSrs then
      if cutlineForward.None? then Failure(MissingCutlineForward)
      else Success(Some(ReprojectGeometry(cutline.value, cutlineForward.value)))
    else Success(cutline)
  }

  /**
   * Lines 145-241, once the input sizes are known: band count, band selection,
   * output band count, the resize shortcut, pixel sizes and the cutline.
   */
  function Configure(cfg: Config, toInput: Point -> Point, outBBoxArg: BoxArg): (r: Result<Plan, SetupError>)
    requires cfg.inHeight > 0 && cfg.inWidth > 0
    ensures InputDepth(cfg).None? ==> r == Failure(UndeterminedBandCount)
    ensures (InputDepth(cfg).Some? && !IsResize(cfg, outBBoxArg) &&
      (!cfg.inBBox.Given? || !outBBoxArg.Given?)) ==> r == Failure(BBoxNotIterable)
    ensures r.Success? ==>
      InputDepth(cfg).Some? && r.value.inPixelDepth == InputDepth(cfg).value &&
      r.value.sameSrs == SameSrs(cfg) && r.value.toInput == toInput &&
      r.value.inHeight == cfg.inHeight && r.value.inWidth == cfg.inWidth &&
      r.value.raster == Raster(r.value.inPixelDepth, cfg.inHeight, cfg.inWidth, cfg.inCells) &&
      (r.value.process, r.value.readBands) ==
        ResolveBands(cfg.expr, cfg.outBands, cfg.readBands, r.value.inPixelDepth) &&
      r.value.outPixelDepth ==
        (if cfg.outPixelDepth.Some? then cfg.outPixelDepth.value
         else if cfg.outBands.Some? then |cfg.outBands.value| else |r.value.readBands|) &&
      r.value.outHeight == (if cfg.outHeight.Some? then cfg.outHeight.value else DefaultSize) &&
      r.value.outWidth == (if cfg.outWidth.Some? then cfg.outWidth.value else DefaultSize) &&
      r.value.rowStart == (if cfg.rowStart.Some? then cfg.rowStart.value else 0) &&
      r.value.rowEnd == (if cfg.rowEnd.Some? then cfg.rowEnd.value else r.value.outHeight) &&
      r.value.inNoData == cfg.inNoData && r.value.round == cfg.round &&
      r.value.outNoData == (if cfg.outNoData.Undef? then Null else cfg.outNoData) &&
      r.value.sampling == (if cfg.sampling.Some? then cfg.sampling.value else Named("median"))
    ensures r.Success? ==>
      Boxes(cfg, outBBoxArg, r.value.outWidth, r.value.outHeight) ==
        Some((r.value.inBBox, r.value.outBBox, r.value.outSrs)) &&
      r.value.inPixelHeight ==
        PixelSize(cfg.inPixelHeight, r.value.inBBox.ymin, r.value.inBBox.ymax, cfg.inHeight) &&
      r.value.inPixelWidth ==
        PixelSize(cfg.inPixelWidth, r.value.inBBox.xmin, r.value.inBBox.xmax, cfg.inWidth) &&
      r.value.outPixelHeight ==
        PixelSize(cfg.outPixelHeight, r.value.outBBox.ymin, r.value.outBBox.ymax, r.value.outHeight) &&
      r.value.outPixelWidth ==
        PixelSize(cfg.outPixelWidth, r.value.outBBox.xmin, r.value.outBBox.xmax, r.value.outWidth) &&
      OutputCutline(cfg.cutline, cfg.cutlineSrs, r.value.outSrs, cfg.cutlineForward) ==
        Success(r.value.cutline)
    ensures (r.Failure? && r.error == MissingCutlineForward) ==>
      var outWidth := if cfg.outWidth.Some? then cfg.outWidth.value else DefaultSize;
      var outHeight := if cfg.outHeight.Some? then cfg.outHeight.value else DefaultSize;
      var b := Boxes(cfg, outBBoxArg, outWidth, outHeight);
      b.Some? && OutputCutline(cfg.cutline, cfg.cutlineSrs, b.value.2, cfg.cutlineForward).Failure?
  {
    var inLayout := if cfg.inLayout.Some? then cfg.inLayout.value else DefaultLayout;
    var outLayout := if cfg.outLayout.Some? && cfg.outLayout.value != "" then cfg.outLayout.value else inLayout;
    var depthOpt := InputDepth(cfg);
    if depthOpt.None? then Failure(UndeterminedBandCount)
    else
      var depth := depthOpt.value;
      var (process, readBands) := ResolveBands(cfg.expr, cfg.outBands, cfg.readBands, depth);
      var outPixelDepth :=
        if cfg.outPixelDepth.Some? then cfg.outPixelDepth.value
        else if cfg.outBands.Some? then |cfg.outBands.value|
        else |readBands|;
      var outWidth := if cfg.outWidth.Some? then cfg.outWidth.value else DefaultSize;
      var outHeight := if cfg.outHeight.Some? then cfg.outHeight.value else DefaultSize;
      var boxes := Boxes(cfg, outBBoxArg, outWidth, outHeight);
      if boxes.None? then Failure(BBoxNotIterable)
      else
        var (ib, ob, outSrs) := boxes.value;
        var cutline := OutputCutline(cfg.cutline, cfg.cutlineSrs, outSrs, cfg.cutlineForward);
        if cutline.Failure? then Failure(cutline.error)
        else
          Success(Plan(
            sameSrs := SameSrs(cfg),
            toInput := toInput,
            inBBox := ib,
            outBBox := ob,
            outSrs := outSrs,
            inPixelDepth := depth,
            inHeight := cfg.inHeight,
            inWidth := cfg.inWidth,
            inPixelHeight := PixelSize(cfg.inPixelHeight, ib.ymin, ib.ymax, cfg.inHeight),
            inPixelWidth := PixelSize(cfg.inPixelWidth, ib.xmin, ib.xmax, cfg.inWidth),
            outPixelDepth := outPixelDepth,
            outHeight := outHeight,
            outWidth := outWidth,
            outPixelHeight := PixelSize(cfg.outPixelHeight, ob.ymin, ob.ymax, outHeight),
            outPixelWidth := PixelSize(cfg.outPixelWidth, ob.xmin, ob.xmax, outWidth),
            outLayout := outLayout,
            readBands := readBands,
            process := process,
            inNoData := cfg.inNoData,
            outNoData := if cfg.outNoData.Undef? then Null else cfg.outNoData,
            sampling := if cfg.sampling.Some? then cfg.sampling.value else Named("median"),
            rowStart := if cfg.rowStart.Some? then cfg.rowStart.value else 0,
            rowEnd := if cfg.rowEnd.Some? then cfg.rowEnd.value else outHeight,
            round := cfg.round,
            cutline := cutline.value,
            raster := Raster(depth, cfg.inHeight, cfg.inWidth, cfg.inCells)))
  }

  /**
   * With `out_bands` and no expression, the pixel is reordered to `out_bands`;
   * without `read_bands` the bands read are the distinct `out_bands` in
   * descending order, and the output has one band per entry of `out_bands`.
   */
  lemma OutBandsSelectReadBands(cfg: Config, reprojectBBox: (BBox, Point -> Point) -> BBox)
    requires Resolve(cfg, reprojectBBox).Success?
    requires cfg.expr.None? && cfg.outBands.Some?
    ensures var p := Resolve(cfg, reprojectBBox).value;
      p.process == Reorder(cfg.outBands.value, p.readBands)
    ensures var p := Resolve(cfg, reprojectBBox).value;
      cfg.readBands.None? ==>
        p.readBands == Uniq(cfg.outBands.value) && StrictlyDecreasing(p.readBands) &&
        forall b :: b in p.readBands <==> b in cfg.outBands.value
    ensures var p := Resolve(cfg, reprojectBBox).value;
      cfg.outPixelDepth.None? ==> p.outPixelDepth == |cfg.outBands.value|
  {
  }

  /** Without `out_bands` and `read_bands` every input band is read, in order, and kept. */
  lemma AllBandsByDefault(cfg: Config, reprojectBBox: (BBox, Point -> Point) -> BBox)
    requires Resolve(cfg, reprojectBBox).Success?
    requires cfg.outBands.None? && cfg.readBands.None?
    ensures var p := Resolve(cfg, reprojectBBox).value;
      p.readBands == Range(p.inPixelDepth) &&
      (cfg.outPixelDepth.None? ==> p.outPixelDepth == p.inPixelDepth) &&
      (cfg.expr.None? ==> p.process == Keep)
  {
  }

  /**
   * Lines 188-192: with one system and `in_bbox` equal to the defaulted
   * `out_bbox` (both null counts as equal) the boxes become pixel boxes, so
   * both default pixel sizes are 1 and the output system is null.
   */
  lemma ResizeUsesPixelBoxes(cfg: Config, reprojectBBox: (BBox, Point -> Point) -> BBox)
    requires Resolve(cfg, reprojectBBox).Success?
    requires SameSrs(cfg) && cfg.inBBox == OutBBoxArg(cfg)
    ensures var p := Resolve(cfg, reprojectBBox).value;
      p.inBBox == BBox(0.0, 0.0, cfg.inWidth as real, cfg.inHeight as real) &&
      p.outBBox == BBox(0.0, 0.0, p.outWidth as real, p.outHeight as real) &&
      p.outSrs == NullSrs
    ensures var p := Resolve(cfg, reprojectBBox).value;
      (cfg.inPixelHeight.None? ==> p.inPixelHeight == 1.0) &&
      (cfg.inPixelWidth.None? ==> p.inPixelWidth == 1.0) &&
      (cfg.outPixelHeight.None? && p.outHeight > 0 ==> p.outPixelHeight == 1.0) &&
      (cfg.outPixelWidth.None? && p.outWidth > 0 ==> p.outPixelWidth == 1.0)
  {
    var p := Resolve(cfg, reprojectBBox).value;
    assert p == Configure(cfg, Identity, OutBBoxArg(cfg)).value;
    assert IsResize(cfg, OutBBoxArg(cfg));
    UnitPixels(cfg.inHeight);
    UnitPixels(cfg.inWidth);
    UnitPixels(p.outHeight);
    UnitPixels(p.outWidth);
  }

  /** `n` pixels across an extent of `n` are one unit each. */
  lemma UnitPixels(n: nat)
    ensures n > 0 ==> PixelSize(None, 0.0, n as real, n) == 1.0
  {
  }

  /**
   * Because the resize shortcut sets `out_srs` to null, a cutline whose
   * `cutline_srs` is set needs `cutline_forward` even when it names the
   * system both rasters share.
   */
  lemma ResizeCutlineNeedsForward(cfg: Config, reprojectBBox: (BBox, Point -> Point) -> BBox)
    requires SameSrs(cfg) && cfg.inBBox == OutBBoxArg(cfg)
    requires cfg.inHeight > 0 && cfg.inWidth > 0 && InputDepth(cfg).Some?
    requires cfg.cutline.Some? && cfg.cutlineSrs != NullSrs && cfg.cutlineForward.None?
    ensures Resolve(cfg, reprojectBBox) == Failure(MissingCutlineForward)
  {
  }

  /**
   * Lines 234-238: without `cutline_forward` a setup that succeeds uses the
   * cutline as given, in the output system; `forward` is never used for it.
   */
  lemma CutlineWithoutForwardIsInOutputSrs(cfg: Config, reprojectBBox: (BBox, Point -> Point) -> BBox)
    requires Resolve(cfg, reprojectBBox).Success?
    requires cfg.cutline.Some? && cfg.cutlineForward.None?
    ensures cfg.cutlineSrs == Resolve(cfg, reprojectBBox).value.outSrs
    ensures Resolve(cfg, reprojectBBox).value.cutline == cfg.cutline
  {
  }

  /**
   * Lines 102, 188 and 195: with one system and both boxes omitted, `out_bbox`
   * is null and `in_bbox` undefined, so there is no resize and destructuring
   * the undefined `in_bbox` throws.
   */
  lemma OmittedBoxesThrow(cfg: Config, reprojectBBox: (BBox, Point -> Point) -> BBox)
    requires SameSrs(cfg) && cfg.inBBox == UndefBox && cfg.outBBox == UndefBox
    requires cfg.inHeight > 0 && cfg.inWidth > 0 && InputDepth(cfg).Some?
    ensures Resolve(cfg, reprojectBBox) == Failure(BBoxNotIterable)
  {
    assert !IsResize(cfg, OutBBoxArg(cfg));
  }

  /**
   * Lines 102 and 188: with one system, a null `in_bbox` equals the defaulted
   * `out_bbox`, so omitting `out_bbox` resizes over pixel boxes.
   */
  lemma NullInBoxResizes(cfg: Config, reprojectBBox: (BBox, Point -> Point) -> BBox)
    requires SameSrs(cfg) && cfg.inBBox == NullBox && cfg.outBBox == UndefBox
    requires cfg.inHeight > 0 && cfg.inWidth > 0 && InputDepth(cfg).Some?
    requires cfg.cutline.None?
    ensures var r := Resolve(cfg, reprojectBBox);
      r.Success? && r.value.inBBox == BBox(0.0, 0.0, cfg.inWidth as real, cfg.inHeight as real) &&
      r.value.outSrs == NullSrs
  {
    assert IsResize(cfg, OutBBoxArg(cfg));
  }
}
