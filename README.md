# geowarp in Dafny

geowarp reprojects and resamples a raster. Each output pixel of a grid in one
spatial reference system (SRS) is filled from an input raster in another, or
in the same, SRS. It runs in three phases:

1. **Setup.** Resolve the configuration: the fatal errors, the input band
   depth, `read_bands`, the band `process` step, `out_pixel_depth`, the
   "resize" shortcut and the pixel sizes.
2. **Row segments.** Build the per-row column ranges to write. Without a
   cutline each row is full width; with one, an intersector reports the ranges.
3. **Row walk.** Walk rows `[row_start, min(row_end, out_height))`, their
   segments and their columns. Each visited pixel is sampled by nearest,
   bilinear or an area statistic, and `insert` writes it band by band into an
   output grid pre-filled with `out_no_data`.

This project models all three phases of `geowarp.js`, plus its reducers
`forEach`, `mean`, `mode`, `uniq` and `range` and the `max`, `min` and
`median` wrappers.

Modules, in dependency order:

- `Values` (values.dfy): JavaScript values that flow through pixels (`undefined`,
  `null`, `NaN`, numbers), `===`, truthiness, `Math.floor`/`ceil`/`round`,
  `% 1`, and `*`/`+` on values that may be `null` or `undefined`.
- `Reducers` (reducers.dfy): `forEach`'s filter, `mean`, the `max`/`min`/`median`
  wrappers, `uniq`, `range`, `indexOf`.
- `Modes` (modes.dfy): `mode`, with its counting dictionary and the key order of
  `Object.values`.
- `Grid` (grid.dfy): the input raster as a (band, row, column) grid with
  `select` and `clip`.
- `Setup` (setup.dfy): the configuration and its resolution into a plan.
- `Sampling` (sampling.dfy): the pixel corner, input-pixel coordinates and the
  `process` step.
- `Near`, `Bilinear`, `Area` (near.dfy, bilinear.dfy, area.dfy): the three
  sampling loops.
- `Segments` (segments.dfy): the row-segment mask.
- `Engine` (engine.dfy): the output grid as a class with `insert` and the row,
  segment and column loops, plus the top-level `GeoWarp`.

The loops of the source are methods with loop invariants:

- `mean`, the `mode` tally, the band loops, the segment pushes and the
  row/segment/column walk.
- Each such method is proved equal to a specification function, or proved to
  leave the output grid in a stated state.
- The lemmas state what the source promises about those functions.

The model follows the code, including behaviour that a reader might not expect:

- Nearest and bilinear sample at the pixel's upper-left corner
  `out_xmin + w*c`, `out_ymax - h*r`, not at its centre.
- The area loop counts its running box from `row_start`, so the top edge of
  row `r` is `out_ymax - h*(r - row_start)`.
- The bilinear bottom row tests the upper-right corner (line 387).
- Bilinear corners come from the position shifted back by half a pixel, but
  the weights are `% 1` of the unshifted position (lines 353-361). At a
  whole-pixel position k the row takes corner k alone; at k + 0.5 both
  columns are k. Just below k + 0.5 the row blends two pixels, so the value
  jumps at every k + 0.5.
- An omitted `out_bbox` defaults to null while an omitted `in_bbox` stays
  undefined, so omitting both boxes with equal SRSs is not a resize and
  throws at line 195.
- An off-raster area pixel is filled with `in_no_data`.
- A `mode-…` tie reduces all the sampled values without no-data filtering.
- Line 238 throws even after the fallback on line 237.

## Model

| member | source | states |
|---|---|---|
| Values.Floor | geowarp.js:307-308 | `Math.floor`: the integer r with r <= x < r + 1 |
| Values.Ceil | geowarp.js:354-356 | `Math.ceil`: the integer r with r - 1 < x <= r |
| Values.RoundHalfUp | geowarp.js:444-447 | `Math.round` on numbers: the integer within [-0.5, 0.5) of x, halves rounding up |
| Values.Trunc | geowarp.js:358-361 | truncation toward zero, for both signs |
| Values.Rem1 | geowarp.js:358-361 | `x % 1`: x minus its truncation; in [0, 1) for x >= 0 and in (-1, 0] for negative x |
| Values.Round | geowarp.js:505 | `Math.round` on a value: numbers and `null` give numbers (`null` gives 0); `undefined` and NaN do not |
| Values.ToNumber | geowarp.js:390-401 | numeric conversion: numbers are themselves, `null` is 0, `undefined` and NaN have no number |
| Values.Mul | geowarp.js:390-401 | `w * v` is a number exactly when v converts; it is then w times that number, otherwise NaN |
| Values.Add | geowarp.js:390-401 | `a + b` is a number exactly when both convert; it is then their sum, otherwise NaN |
| Reducers.KeptMembers | geowarp.js:18-30 | `forEach` visits every value when the no-data value is falsy; otherwise exactly the values not equal to it |
| Reducers.ValidMembers | geowarp.js:32-55 | the values the external reducers consider are exactly those not `===` the no-data value |
| Reducers.WithoutMembers | geowarp.js:20-24 | the filtered list holds exactly the members different from the no-data number |
| Reducers.Mean | geowarp.js:42-50 | the running-sum loop returns `MeanOf` of its inputs |
| Reducers.MeanMeaning | geowarp.js:42-50 | with no value kept the mean is `out_no_data`; otherwise it is sum/count of the kept values and lies between their minimum and maximum |
| Reducers.MeanOfOne | geowarp.js:42-50 | the mean of one value that is not no-data is that value |
| Reducers.MeanKeepsZeroNoData | geowarp.js:20 | a no-data value of 0 is falsy and filters nothing: mean([0, 2]) with no-data 0 is 1 |
| Reducers.MaxOf | geowarp.js:37-40 | the maximum is a member and bounds every member from above |
| Reducers.MinOf | geowarp.js:52-55 | the minimum is a member and bounds every member from below |
| Reducers.MaxValue | geowarp.js:37-40 | `max`: `out_no_data` when no value differs from `in_no_data`; otherwise a valid member at least every valid member |
| Reducers.MinValue | geowarp.js:52-55 | `min`: `out_no_data` when no value is valid; otherwise a valid member at most every valid member |
| Reducers.MedianValue | geowarp.js:32-35 | `median`: `out_no_data` when no value is valid; otherwise a number between the least and greatest valid values |
| Reducers.MedianBetween | geowarp.js:32-35 | the median of a non-empty list lies between its minimum and maximum |
| Reducers.ExtremaOfOne | geowarp.js:32-55 | max, min and median of one valid value are that value |
| Reducers.SortAscSorted | geowarp.js:32-35 | the sort used by the median is ascending and a permutation of its input |
| Reducers.InsertAscSorted | geowarp.js:32-35 | inserting into an ascending list keeps it ascending |
| Reducers.InsertAscPermutes | geowarp.js:32-35 | inserting adds exactly one occurrence of the inserted value and keeps every other |
| Reducers.Uniq | geowarp.js:14 | `uniq` is strictly decreasing (distinct, sorted descending) and has exactly the members of its input |
| Reducers.InsertDesc | geowarp.js:14 | inserting into a strictly decreasing list keeps it so and adds exactly the inserted member |
| Reducers.Range | geowarp.js:16 | `range(ct)` has length ct and holds i at position i |
| Reducers.IndexOf | geowarp.js:175 | `indexOf`: -1 exactly when absent; otherwise the first position holding x |
| Modes.Mode | geowarp.js:57-82 | the counting loop returns `ModeSpec` of its inputs |
| Modes.Tally | geowarp.js:62-77 | the dictionary's keys are the distinct kept values in first-seen order, and each count is that value's number of occurrences |
| Modes.TallyAt | geowarp.js:64-76 | one iteration of the counting loop: when `no_data` is truthy a value `===` it is skipped, any other is counted; the keys stay the distinct kept values of the prefix read so far, each with its exact count |
| Modes.Bump | geowarp.js:67-75 | one `counts[n]` update keeps the keys distinct in first-seen order and the counts exact |
| Modes.LargestCount | geowarp.js:79 | the loop returns the largest count of the items |
| Modes.ReachingCount | geowarp.js:80 | the filter keeps the items whose count equals the given one, in order |
| Modes.ModesAreMostFrequent | geowarp.js:57-82 | on a non-empty list: no modes exactly when nothing is kept; otherwise a non-empty list of exactly the kept values of maximal frequency |
| Modes.ModesDistinct | geowarp.js:78-80 | the returned modes hold no duplicates |
| Modes.AreaModeCountsEverything | geowarp.js:485 | called without a no-data value, `mode` counts every value |
| Modes.DistinctMembers | geowarp.js:67-75 | the first-seen list of keys is duplicate-free with exactly the members of its input |
| Modes.KeyOrder | geowarp.js:78 | the `Object.values` order (array-index keys ascending, then the others in insertion order) holds exactly the keys |
| Modes.WithCount | geowarp.js:80 | keeps exactly the items of the given count |
| Modes.MaxCountInBounds | geowarp.js:79 | the largest count bounds every item's count and is reached by one item |
| Modes.ModeTieIndexOrder | geowarp.js:78-80 | on the tie [3, 1, 2] the modes come out [1, 2, 3] (integer keys ascending) |
| Modes.ModeTieIndexKeysFirst | geowarp.js:78-80 | on the tie [0.5, 2] the modes come out [2, 0.5] (index keys before other keys) |
| Grid.Select | geowarp.js:312-318 | `select` yields a value exactly inside the raster, and then the cell's value |
| Grid.ClipRow | geowarp.js:461-471 | one clipped row has right - left + 1 values, the cells of that row in column order |
| Grid.Clip | geowarp.js:461-471 | a rectangle with top <= bottom clips to a non-empty list |
| Grid.ClipCells | geowarp.js:461-471 | the clipped values are exactly the cells of the rectangle |
| Setup.InferDepth | geowarp.js:148-164 | band depth: `in_data.length` for a `[band]` layout; for flat data, the quotient by height×width when it divides; `in_data[0].length` at depth 2 and `in_data[0][0].length` at depth 3; nothing for an unknown depth |
| Setup.ResolveBands | geowarp.js:169-183 | `read_bands` is the given one, else `uniq(out_bands)` with `out_bands` and no `expr`, else `range(depth)`; `process` is `expr`, else the band reorder with `out_bands`, else none |
| Setup.ReprojectGeometry | geowarp.js:240 | the reprojected cutline keeps its rings and maps every point through the projection |
| Setup.OutBBoxArg | geowarp.js:102 | an omitted `out_bbox` becomes null; any other argument is kept |
| Setup.Resolve | geowarp.js:124-143 | the five early errors of the source, in the source's order, each once every earlier check has passed; the resize test sees `out_bbox` with its null default; on success the sizes are positive and the projection to the input is the identity for equal SRSs and `inverse` (or the `reproject` alias) otherwise |
| Setup.Boxes | geowarp.js:188-192 | the resize shortcut gives the pixel boxes and a null output SRS; otherwise both boxes must be given |
| Setup.PixelSize | geowarp.js:197-209 | a given pixel size is kept; otherwise size × count is the box's extent |
| Setup.OutputCutline | geowarp.js:232-241 | fails exactly when there is a cutline in another SRS and no `cutline_forward`, which is the line 238 error; otherwise the cutline is reprojected only when its SRS differs |
| Setup.Configure | geowarp.js:145-260 | an undetermined band depth is an error; a missing box outside the resize case throws; on success every plan field is the source's default or derived value |
| Setup.OutBandsSelectReadBands | geowarp.js:171-185 | with `out_bands` and no `expr`, `read_bands` defaults to `uniq(out_bands)`, `process` reorders them, and `out_pixel_depth` defaults to `out_bands.length` |
| Setup.AllBandsByDefault | geowarp.js:178-185 | without `out_bands` or `read_bands`, every band `range(in_pixel_depth)` is read |
| Setup.ResizeUsesPixelBoxes | geowarp.js:188-209 | resizing (equal SRS, `in_bbox` equal to the defaulted `out_bbox`) uses boxes [0, 0, width, height] with pixel sizes 1 and a null output SRS |
| Setup.ResizeCutlineNeedsForward | geowarp.js:234-239 | when resizing (equal SRS, `in_bbox` equal to the defaulted `out_bbox`), a cutline whose SRS is not null needs `cutline_forward`, because resizing nulls `out_srs` |
| Setup.OmittedBoxesThrow | geowarp.js:188-195 | with equal SRSs and both boxes omitted there is no resize (undefined is not null), so destructuring `in_bbox` throws |
| Setup.NullInBoxResizes | geowarp.js:188-192 | with equal SRSs, a null `in_bbox` and `out_bbox` omitted, the call resizes over pixel boxes with a null output SRS |
| Setup.CutlineWithoutForwardIsInOutputSrs | geowarp.js:234-241 | a run that succeeds with a cutline and no `cutline_forward` had the cutline in the output SRS, and uses it unchanged |
| Sampling.Corner | geowarp.js:299-304 | the sample point lies `w*c` right of `out_xmin` and `h*r` below `out_ymax` |
| Sampling.InPixels | geowarp.js:307-308 | input-pixel coordinates times the pixel size are the offsets from the input box's left and top edges |
| Sampling.ReorderPicksBands | geowarp.js:175 | the reordered pixel has one value per `out_bands` entry: the value read for that band, or `undefined` when it was not read |
| Near.NearIndex | geowarp.js:307-308 | the chosen input row and column are the floors of the fractional input position |
| Near.NearRead | geowarp.js:309-326 | one value per read band, in order, each `NearBand` of that band |
| Near.ReadNear | geowarp.js:309-326 | the band loop returns `NearRead` |
| Near.SampleNear | geowarp.js:304-327 | the nearest loop body returns `NearPixel` |
| Near.NearBandOrigin | geowarp.js:312-324 | every value is `out_no_data` or an in-raster, non-no-data cell, copied or rounded; off-raster and no-data cells give `out_no_data` |
| Near.NearCellContainsPoint | geowarp.js:307-308 | with positive pixel sizes, the sample point lies inside the chosen input cell: between its left edge and the next column's, and between its top edge and the next row's |
| Near.NearOutBands | geowarp.js:309-327 | with `out_bands` all read, output position j holds band `out_bands[j]` of the chosen pixel |
| Near.NearResizeShifts | geowarp.js:307-308 | when resizing, output pixel (r, c) reads input pixel (r + in_height - out_height, c) |
| Bilinear.FrameAt | geowarp.js:349-361 | the neighbouring columns and rows are the floor and ceiling of the half-pixel-shifted position, so they bracket it and are at most one apart; the left and bottom weights are `% 1` of the unshifted position, lie in [0, 1) for non-negative positions, and each pair of weights sums to 1 |
| Bilinear.FrameAtWholePixel | geowarp.js:349-361 | at a whole-pixel position k the columns are k - 1 and k with weights 0 and 1 |
| Bilinear.FrameAtHalfPixel | geowarp.js:349-361 | at position k + 0.5 both columns are k, with weights 0.5 and 0.5 |
| Bilinear.BilinearRead | geowarp.js:364-406 | one value per read band, in order |
| Bilinear.ReadBilinear | geowarp.js:364-406 | the band loop returns `BilinearRead` |
| Bilinear.SampleBilinear | geowarp.js:341-407 | the bilinear loop body returns `BilinearPixel` |
| Bilinear.BlendFallbacks | geowarp.js:393-399 | both rows undefined gives `out_no_data`; exactly one undefined gives the other |
| Bilinear.TopRowCopiesUsableCorner | geowarp.js:371-380 | with exactly one usable corner the top row is that corner unweighted; it is undefined exactly when neither corner is usable |
| Bilinear.BottomRowChecksUpperRight | geowarp.js:382-391 | the bottom row copies the lower-left value when the upper-right corner is unusable; a missing lower-right blends to NaN, and a no-data lower-right is blended as a number |
| Bilinear.BottomRowCopiesLowerRight | geowarp.js:382-386 | the bottom row is undefined exactly when neither lower corner is usable, and a usable lower-right corner with an unusable lower-left is copied unweighted |
| Bilinear.BlendOfUsable | geowarp.js:371-402 | with four usable corners the value is the weighted blend of the two weighted rows |
| Bilinear.WeightedWithinCorners | geowarp.js:389-401 | with weights in [0, 1] the blend lies between the least and greatest corner |
| Bilinear.BilinearWithinCorners | geowarp.js:345-402 | without rounding, with four usable in-raster corners, the value lies between the least and greatest of the four cells |
| Bilinear.BilinearRoundsNoData | geowarp.js:394-404 | with no usable corner and `round`, the value is `Math.round(out_no_data)`, which is 0 for `null` |
| Area.AreaBox | geowarp.js:413-425 | the sample box is one output pixel wide and high, `w*c` right of `out_xmin`, its top `h*(r - row_start)` below `out_ymax` |
| Area.Samples | geowarp.js:429-447 | each edge is the rounding of the box corner's input-pixel coordinate |
| Area.Clamp | geowarp.js:453-457 | the clamped bounds satisfy 0 <= left, right <= in_width, 0 <= top, bottom <= in_height, as max/min of the rounded bounds |
| Area.ClipRect | geowarp.js:467-469 | the clip rectangle `[top, max(top, bottom-1)] × [left, max(left, right-1)]` is never empty |
| Area.KindOf | geowarp.js:474-504 | a name is unknown exactly when it is none of max/mean/median/min and does not start with "mode"; it is a mode kind exactly when it starts with "mode" |
| Area.ReduceValues | geowarp.js:473-504 | the dispatch, calling the `mean` and `mode` loops, returns `Reduce` |
| Area.ReduceTie | geowarp.js:486-501 | the tie branch returns `ModeValue` |
| Area.ReadBand | geowarp.js:460-506 | one band: clip the sample box, reduce it with the method (or the method's error), and round when `round` is set |
| Area.ReadArea | geowarp.js:459-507 | the band loop returns `AreaBands`: the band values in order, or the first band's error |
| Area.SampleArea | geowarp.js:429-511 | the area loop body returns `AreaPixel` |
| Area.PrefixFailure | geowarp.js:459-507 | a band that throws makes the pixel throw with that band's error |
| Area.BandOf | geowarp.js:459-507 | the band function is `AreaBand` at every band |
| Area.Fill | geowarp.js:451 | one `in_no_data` per read band |
| Area.ClipInsideRaster | geowarp.js:450-471 | for an on-raster pixel the clip rectangle lies inside the raster |
| Area.OffRasterFillsInNoData | geowarp.js:450-510 | an off-raster pixel is `in_no_data` for every read band, then processed |
| Area.UnknownMethodThrows | geowarp.js:502-504 | an unknown name throws `unknown method` for an on-raster pixel that reads a band, and is never looked at off the raster |
| Area.KindSucceeds | geowarp.js:474-501 | every recognised kind of method name reduces without error, mode kinds given a mode result |
| Area.KnownMethodsSucceed | geowarp.js:474-501 | a known name or a function never throws on a non-empty sample |
| Area.UniqueModeWins | geowarp.js:485-488 | with a unique mode every `mode…` method returns it |
| Area.ModeTieTakesFirst | geowarp.js:489-491 | on a tie "mode" returns `modes[0]`, a value of maximal frequency among the samples |
| Area.ModeTieMax | geowarp.js:492-493 | on a tie "mode-max" is the maximum of all the samples |
| Area.ModeTieMin | geowarp.js:498-499 | on a tie "mode-min" is the minimum of all the samples |
| Area.ModeTieMean | geowarp.js:494-495 | on a tie "mode-mean" is the mean of all the samples |
| Area.ModeTieMedian | geowarp.js:496-497 | on a tie "mode-median" lies between the least and greatest sample |
| Area.TieMax | geowarp.js:492-493 | the "mode-max" tie branch for any tally with two or more modes |
| Area.TieMin | geowarp.js:498-499 | the "mode-min" tie branch for any tally with two or more modes |
| Area.TieMean | geowarp.js:494-495 | the "mode-mean" tie branch for any tally with two or more modes |
| Area.TieMedian | geowarp.js:496-497 | the "mode-median" tie branch for any tally with two or more modes |
| Area.ModeTieOtherNameIsNull | geowarp.js:473-500 | on a tie any other name starting with "mode" leaves the initial `null` |
| Area.AreaRowsCountFromRowStart | geowarp.js:414-418 | the area box of row r has its top where the corner of row r - row_start lies |
| Area.RunningEdges | geowarp.js:422-425 | the running `left`/`right` give the box of column c and the left edge of column c + 1 |
| Area.RunningRows | geowarp.js:417-418 | the running `bottom` of row r is the top of row r + 1 |
| Segments.NoSegments | geowarp.js:233 | one empty list per output row |
| Segments.Distribute | geowarp.js:251-253 | the pushes give one list per output row |
| Segments.DistributeMeaning | geowarp.js:251-253 | pushing succeeds exactly when every reported row is an output row; row i then holds the columns reported for i, in order; otherwise the error is the first bad row |
| Segments.NoCutlineFullWidth | geowarp.js:255-260 | without a cutline every row has exactly the one segment [0, out_width) |
| Segments.BuildSegments | geowarp.js:233-260 | the push loops return `RowSegments` |
| Segments.FailureStays | geowarp.js:251-253 | once a push throws, later reports do not change the error |
| Engine.RowLimit | geowarp.js:297 | `Math.min(row_end, out_height)` |
| Engine.InsertedTwice | geowarp.js:284-291 | inserting the same pixel twice is inserting it once, so overlapping segments write the same values |
| Engine.SamplerOf | geowarp.js:295-296 | the sampler of a plan is `Sample` at every pixel |
| Engine.Warper.constructor | geowarp.js:275-280 | an out_pixel_depth × out_height × out_width grid filled with `out_no_data` |
| Engine.Warper.Insert | geowarp.js:284-291 | band b of the pixel lands at (b, row, column); every other cell is unchanged |
| Engine.Warper.SampleAt | geowarp.js:295-296 | the configured method's pixel at (r, c) |
| Engine.Warper.Visit | geowarp.js:303-329 | samples and inserts one pixel; fails exactly when the sample throws |
| Engine.Warper.WalkSegment | geowarp.js:302-329 | the columns [cstart, cend) of row r are written with their pixels, nothing else changes; it fails with the error of a pixel of the segment |
| Engine.Warper.WalkRow | geowarp.js:300-331 | the cells of row r covered by some segment are written, nothing else changes; it fails with the error of a covered pixel |
| Engine.Warper.WalkRows | geowarp.js:297-331 | exactly the visited cells (row in [row_start, min(row_end, out_height)), column in a segment of its row) are written; a failure is the error of a visited pixel |
| Engine.CoversSnoc | geowarp.js:301-302 | one more segment covers the previous columns and its own |
| Engine.NoCutlineVisitsWholeRows | geowarp.js:255-303 | without a cutline the visited pixels are exactly rows [row_start, min(row_end, out_height)) × columns [0, out_width) |
| Engine.GeoWarp | geowarp.js:124-525 | setup and segment errors are returned as the source throws them; on success the grid is fresh, every visited pixel samples without error and holds its sampled bands, every other cell keeps `out_no_data`, and the returned fields are the plan's |

## Left out

- Projections, bounding-box reprojection and the polygon-raster intersector
  are external libraries. They are parameters: `inverse`, `forward`,
  `cutline_forward`, `reprojectBBox` and the `Intersector`, which yields the
  `per_row_segment` calls. Cutline reprojection maps every point of every ring.
- `xdim` is different in the model. The input raster is an abstract cell
  function with sizes, and the output is a (band, row, column) array. Layout
  strings, multi-dimensional `in_data` shapes and `out_array_types` are not
  modelled. `get-depth` is a `Shape` record.
- A user-supplied `out_data` is not modelled; the grid is always freshly created.
- Engine.Warper.Insert: a write outside the output grid (a band past
  `out_pixel_depth`, or a column outside the row from an intersector segment)
  is dropped. What xdim would do there depends on the layout.
- Reducers.MaxValue, Reducers.MinValue and Reducers.MedianValue are reference
  definitions of `fast-max`, `fast-min` and `faster-median`. They drop values
  `===` the no-data value and give `undefined` for an empty list. The
  `theoretical_min`/`theoretical_max` clamping is left out, and so is their
  inference from the array constructor (lines 213-226).
- Setup.InferDepth: when the band depth cannot be determined (an unknown
  `getDepth`, or a flat length that height × width does not divide), the model
  gives no depth and Setup.Configure returns `UndeterminedBandCount`. The
  source keeps `undefined` or a fractional `in_pixel_depth`. Where it then
  calls `range(in_pixel_depth)` (no `read_bands`, and `expr` or no
  `out_bands`), a fractional depth throws a RangeError in `new Array` and an
  undefined one gives `[0]`; with `read_bands` or `out_bands` it goes on and
  hands the depth to xdim. None of these paths is modelled.
- Setup.Configure: the `typeof cutline_forward` check on line 228 is not
  modelled; `cutline_forward` is an optional function.
- Engine.GeoWarp requires non-zero input pixel sizes, through `Divisible`.
  Every sampler and the members it is built from (Warper.constructor,
  NearIndex, SampleNear, BilinearFrame, SampleBilinear, AreaPixel,
  SampleArea) require it too. With a
  size of 0, JavaScript divides into Infinity or NaN. IEEE arithmetic, NaN
  coordinates and infinities are not modelled: coordinates are exact reals,
  and `Math.round` half-cases follow the real-number definition.
- Sizes and `row_start` are non-negative integers; a negative `row_start`
  (which in JavaScript reads an undefined row) is not modelled. Band indices
  are integers of either sign, and a band outside the raster reads as
  undefined; fractional band indices are not modelled.
- An output width or height of 0 gives a pixel size of 0 in the model, where
  JavaScript divides by 0.
- Grid.Clip reads the cell function for any band, including one outside the
  raster's depth.
- Debug logging, the `arguments[0].reproject` deprecation path beyond treating
  `reproject` as an alias of `inverse`, and the CommonJS export are left out.
- The package's tests, type declarations and download script are not part of
  this model, and neither are features absent from `geowarp.js`.
