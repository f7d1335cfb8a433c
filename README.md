# Slant-edge MTF bench core, modelled in Dafny

This project models the analysis core of an optical test bench. It measures
the modulation transfer function (MTF) of a camera from an image of a
slanted edge. It also models the two batch tools that clean up the bench's
16-bit images.

The MTF chain (`MTF/MTF_Functions.py`) works on one image:

- `drawAoi` cuts a square area of interest (AOI) out of the 1024 x 1280
  frame, clamped to the frame.
- `cleanEdge` replaces dead and hot pixels in place.
- `detect_line` and `getLine` fit a logistic across chosen rows and a
  straight line through the fitted centres. The line becomes an integer
  segment from x = -1000 to x = 1000.
- `findEdge` runs the above and, when the AOI is dynamic, moves the AOI twice
  onto the edge (`adjustAoi`).
- `analyse` collects the raw edge spread function (ESF): the intensity and
  the signed distance to the edge of every pixel close enough to the edge.
- `fitESFCurve` turns the raw ESF into a smooth curve:
  - it resamples the ESF onto a grid of 1 + oversampling x d points with a
    triangular kernel;
  - it smooths the result with Savitzky-Golay;
  - it locates d10 and d90;
  - it rejects noisy samples against a sigma taken from the dark tail;
  - it re-smooths the grid with a Gaussian near the edge and a plain mean in
    the tails, then smooths once more.
- `EdgeSpec` reads the 10-90 % and 20-80 % edge widths off one threshold walk.
- `LSFCurve` and `MTFCurve` take the numerical gradient, the first half of
  the FFT magnitude, the two sinc corrections and the normalisation at DC.
- The batch drivers `BulkAnalyseAndAverage` and `AnalyseStack` pick an AOI
  centre from the folder name. They then average MTFs or stack raw ESFs.

Two tools share the bad-pixel map. Its CSV rows are one-based (column, row)
pairs. Each listed pixel is filled with int() of the mean of its neighbours,
sweeping the whole list several times:

- `Prettify` (`Tools/prettify_process.py`) crops, fills (10 sweeps),
  inverts, despeckles, autoscales, mirrors and colour-maps every image.
- The whole-nine-yards worker (`Tools/wholenineyards_process.py`):
  - reads the map;
  - keeps the ancillary columns (1280 onwards) of every raw frame;
  - writes the settings file for the external non-uniformity-correction
    (NUC) program;
  - takes each corrected frame through the fill (8 sweeps), inversion,
    despeckling and autoscaling;
  - re-attaches the ancillary block to every copy it saves.

How the model is built:

- Imperative code stays imperative. Images are `array2<int>` values. The
  AOI is changed in place by `CleanEdge.Clean`, and the cropped image or
  the NUC frame by `BadPixels.Fill`. The worker is a class
  whose fields the methods update.
- Each method is proved against a specification function on the grid's
  contents (`Grids.Contents`). The properties are lemmas about those
  functions.
- Exceptions are `Result` values carrying the Python exception. Every stage
  fails where the code would raise.
- Library numerics (`math`, `numpy`, `scipy`) are the fields of one `Lib`
  parameter. Each field carries only the facts the proofs use:
  - `exp` is positive;
  - cos² + sin² = 1;
  - `std` and FFT magnitudes are non-negative;
  - a square root is positive on positive arguments.

One module per file: `numerics`, `grids`, `misc`, `aoi`, `clean_edge`,
`edge_locator`, `find_edge`, `esf_builder`, `resample`, `crossings`,
`esf_fit`, `esf_noise`, `esf_smooth`, `edge_spec`, `mtf`, `batch`,
`bad_pixels`, `prettify`, `wholenineyards`.

Three behaviours of the code that the model keeps as written:

- fitESFCurve passes the window `oversampling + 1` to `savitzky_golay`
  unchanged. For an odd oversampling the window is even, and
  `savitzky_golay` raises TypeError (`Misc.SmoothingWindowAccepted`,
  `EsfFit.BadOversamplingFails`).
- The edge-width walks use 0 to mean "not found yet". A crossing recorded at
  position 0.0 therefore reads as not found, and a later sample overwrites
  it (`EdgeSpec.ZeroCrossingIsOverwritten`).
- cleanEdge subtracts two uint16 pixels before abs(), so the difference wraps
  modulo 65536. Every cleanEdge definition takes the neighbour test as a
  `CleanEdge.Comparison`: `AsWritten` is this wrapped test and `Intended` the
  symmetric absolute difference. findEdge takes the choice from its
  settings. Every property of cleanEdge below is proved for both tests, and
  `CleanEdge.CleanEdgeSpecsDiffer` gives an AOI on which they clean
  differently (see "## Findings").

## Model

| member | source | states |
|---|---|---|
| Numerics.Trunc | MTF/MTF_Functions.py:425 | int() of a float truncates toward zero: the result is within one of the argument, on the side of zero |
| Numerics.RoundHalfEven | MTF/MTF_Functions.py:314-315 | round() gives the nearest integer, ties going to the even one |
| Numerics.PyIndex | MTF/MTF_Functions.py:695 | an index into a list of length n is accepted iff -n <= i < n, and a negative index counts from the end |
| Numerics.SliceEnd | MISC/Misc_Functions.py:89-90 | a slice end is clamped into 0..n, negative ends counting from the back |
| Numerics.SliceRange | MISC/Misc_Functions.py:89-90 | a slice [lo:hi] keeps inside the list and never grows beyond hi - lo |
| Numerics.MinOf | MTF/MTF_Functions.py:683 | min() of a non-empty list is below every element |
| Numerics.MaxOf | MTF/MTF_Functions.py:684 | max() of a non-empty list is above every element |
| Numerics.Sqrt | MTF/MTF_Functions.py:294 | the norm's square root is zero exactly at zero |
| Numerics.TruncOfMean | MTF/MTF_Functions.py:423-425 | int() of the mean of k integers between lo and hi stays between lo and hi |
| Grids.Write | MTF/MTF_Functions.py:425 | assigning one pixel of an array changes that pixel and no other |
| Grids.GridsEqual | MTF/MTF_Functions.py:281 | two images of one shape that agree pixel by pixel are equal |
| Misc.Sinc | MISC/Misc_Functions.py:12-27 | exactly 1 at 0; a zero pixel pitch raises ZeroDivisionError; otherwise sin(pi r)/(pi r) with r the frequency times the pitch in mm |
| Misc.SincRatio | MISC/Misc_Functions.py:25-27 | for a non-zero value and pitch, the sinc argument is well defined and non-zero |
| Misc.PolyCoefficients | MISC/Misc_Functions.py:30-46 | the loop's sum of coeffs[i] * x^(o-1-i) equals Horner evaluation; 0 for no coefficients; the constant term at x = 0 |
| Misc.PowerTermsAreHorner | MISC/Misc_Functions.py:42-46 | the power-sum form of the polynomial equals its Horner form |
| Misc.Reverse | MISC/Misc_Functions.py:92 | m[::-1] holds the same values in reverse order |
| Misc.ConvolveValid | MISC/Misc_Functions.py:92 | np.convolve(mode='valid') has length \|a\| - \|v\| + 1 for the longer input |
| Misc.FrontPad | MISC/Misc_Functions.py:89 | the front padding has min(hw, \|y\| - 1) values, none above y[0] |
| Misc.BackPad | MISC/Misc_Functions.py:90 | the back padding has min(hw, \|y\| - 1) values, none below y[-1] |
| Misc.FrontPadReflects | MISC/Misc_Functions.py:89 | on a curve not below its first sample, the front padding is the point reflection 2 y[0] - y[k] |
| Misc.Weights | MISC/Misc_Functions.py:85-86 | the filter has one weight per window position |
| Misc.SmoothingWindowAccepted | MISC/Misc_Functions.py:78-81 | with window oversampling + 1 and order 3, TypeError exactly when oversampling is odd or below 4; otherwise a result |
| Misc.SmoothedSampleIsCentredWindow | MISC/Misc_Functions.py:83-92 | the output has the input's length, and sample i is the weighted sum of the padded window centred on i |
| Misc.SavitzkyGolay | MISC/Misc_Functions.py:49-92 | window and order are taken as absolute values; it fails iff the window is even or below order + 2 (TypeError) or the signal is empty (IndexError at y[0]); a signal longer than half the window keeps its length |
| Misc.LineFromEquation | MISC/Misc_Functions.py:95-116 | end points at x = -1000 and x = 1000, each y within one of m x + b |
| Misc.Logistic | MISC/Misc_Functions.py:119-142 | the logistic lies strictly between d and a + d, and equals d when a = 0 |
| Misc.LogisticBounds | MISC/Misc_Functions.py:142 | a / (1 + e) for positive e lies strictly between 0 and a |
| Misc.Rotate2d | MISC/Misc_Functions.py:145-170 | the rotated point lies in z = 0, and the origin is fixed |
| Misc.PointLineDistance | MTF/MTF_Functions.py:294 | the cross-product distance is non-negative and zero at the line's first point |
| Misc.RotationKeepsDistance | MISC/Misc_Functions.py:163-170 | rotating two points about one origin keeps their distance |
| Misc.TurnKeepsDistance | MISC/Misc_Functions.py:168-169 | any (cos, sin) turn about an origin keeps distances |
| Aoi.HalfWidth | MTF/MTF_Functions.py:269 | half_width is (size - 1) / 2, and an odd size is 2 hw + 1 |
| Aoi.AoiWindow | MTF/MTF_Functions.py:275-278 | the window is clamped into rows 0..1023 and columns 0..1279 and spans at most 2 hw each way |
| Aoi.WindowHoldsCentre | MTF/MTF_Functions.py:275-278 | a centre inside the frame lies inside its own window |
| Aoi.CropBounds | MTF/MTF_Functions.py:281 | numpy clamps the slice bounds into the image |
| Aoi.CropIsSmall | MTF/MTF_Functions.py:269-281 | the AOI is at most 2 hw + 1 pixels each way |
| Aoi.Crop | MTF/MTF_Functions.py:281 | the AOI has the clamped shape and pixel (i, j) is frame pixel (top + i, left + j) |
| Aoi.CropOfFullFrame | MTF/MTF_Functions.py:275-281 | on a full 1024 x 1280 frame the AOI is exactly the window |
| Aoi.DrawAoi | MTF/MTF_Functions.py:269-281 | the new AOI array is fresh and holds the crop of the frame |
| Aoi.CopyBlock | MTF/MTF_Functions.py:281 | np.copy of a block gives a fresh array with the block's pixels |
| Aoi.Distance | MTF/MTF_Functions.py:290-294 | the AOI centre's distance to the edge is non-negative |
| Aoi.EdgeEndsApart | MTF/MTF_Functions.py:290-294 | the edge's two end points are distinct, so the norm divides by a non-zero value |
| Aoi.SignedOffset | MTF/MTF_Functions.py:290-303 | \|d\| is the distance to the edge, and d is negative when the centre lies above the line |
| Aoi.NormalShift | MTF/MTF_Functions.py:298-305 | the shift (dX, dY) has length \|d\| and neither part exceeds \|d\| |
| Aoi.AdjustAoi | MTF/MTF_Functions.py:286-318 | fails exactly on a vertical edge (dx = 0); the centre stays put when \|d\| <= 2 |
| Aoi.MoveIsOffset | MTF/MTF_Functions.py:304-318 | the centre moves by at most \|d\| + 0.5 in x and in y |
| Aoi.RoundedStep | MTF/MTF_Functions.py:314-315 | rounding a step of at most \|d\| moves by at most \|d\| + 0.5 |
| Aoi.UnitBound | MTF/MTF_Functions.py:304-305 | -sin(theta) d and cos(theta) d have length \|d\| together and are each at most \|d\| |
| CleanEdge.NeighboursAreAdjacentPixels | MTF/MTF_Functions.py:414-520 | on an AOI at least 2 x 2, each pixel's neighbour list is exactly its in-frame 8-neighbourhood, with no repeats: 3 at a corner, 5 on a border, 8 inside |
| CleanEdge.Neighbours | MTF/MTF_Functions.py:414-520 | each branch compares a pixel with 3 to 8 neighbours |
| CleanEdge.WrappedDifference | MTF/MTF_Functions.py:419-512 | on uint16 pixels the wrapped test agrees with the intended one when the centre is at least as bright, and reads a darker centre's gap as 65536 minus the true gap |
| CleanEdge.Threshold | MTF/MTF_Functions.py:411-412 | np.std(aoi) x badPixelFactor is non-negative for a non-negative factor, and 0 when the factor is 0 |
| CleanEdge.DiffersIsSymmetric | MTF/MTF_Functions.py:419-421 | the intended test \|a - b\| > t is symmetric in the two pixels |
| CleanEdge.WrappedDiffersIsNotSymmetric | MTF/MTF_Functions.py:419-421 | with the uint16 wrap, 1000 differs from 1001 by 65535 but 1001 does not differ from 1000 |
| CleanEdge.Walk | MTF/MTF_Functions.py:419-421 | for either test, the and-chain is true iff every neighbour is in the AOI and passes the test, and raises only on a neighbour outside the AOI |
| CleanEdge.SumAtBounds | MTF/MTF_Functions.py:423-424 | the neighbour sum lies between count x lo and count x hi |
| CleanEdge.Decide | MTF/MTF_Functions.py:416-520 | for either test, a pixel is replaced iff it passes the test against all its neighbours, and the visit raises iff the chain reads outside the AOI |
| CleanEdge.ReplacementBetweenNeighbours | MTF/MTF_Functions.py:422-425 | the replacement lies between the smallest and largest neighbour |
| CleanEdge.Visit | MTF/MTF_Functions.py:416-520 | one visit, with either test, keeps the AOI's shape |
| CleanEdge.SweepRows | MTF/MTF_Functions.py:415-520 | one column's sweep, with either test, keeps the shape |
| CleanEdge.SweepColumns | MTF/MTF_Functions.py:414-520 | the column-by-column sweep, with either test, keeps the shape |
| CleanEdge.Pass | MTF/MTF_Functions.py:414-520 | one pass, with either test, keeps the shape |
| CleanEdge.TwoPasses | MTF/MTF_Functions.py:413-520 | the two passes, with either test, keep the shape |
| CleanEdge.CleanEdgeSpec | MTF/MTF_Functions.py:406-520 | cleanEdge, as written or with the intended test, keeps the shape, uses the threshold std x factor, and does nothing when switched off |
| CleanEdge.VisitKeepsU16 | MTF/MTF_Functions.py:422-425 | a replacement keeps every pixel within uint16 |
| CleanEdge.SweepRowsKeepU16 | MTF/MTF_Functions.py:415-520 | a column sweep keeps uint16 values |
| CleanEdge.SweepColumnsKeepU16 | MTF/MTF_Functions.py:414-520 | a full sweep keeps uint16 values |
| CleanEdge.CleanEdgeKeepsU16 | MTF/MTF_Functions.py:406-520 | cleanEdge keeps uint16 values |
| CleanEdge.NoFailureOnWideAoi | MTF/MTF_Functions.py:413-520 | on an AOI at least 2 x 2, cleanEdge never raises |
| CleanEdge.VisitDoesNotFail | MTF/MTF_Functions.py:416-520 | on an AOI at least 2 x 2, no visit raises |
| CleanEdge.RowsDoNotFail | MTF/MTF_Functions.py:415-520 | on an AOI at least 2 x 2, no column sweep raises |
| CleanEdge.ColumnsDoNotFail | MTF/MTF_Functions.py:414-520 | on an AOI at least 2 x 2, no pass raises |
| CleanEdge.SingleRowFails | MTF/MTF_Functions.py:416-421 | on a one-row AOI, the first pixel reads row 1 and raises IndexError with the AOI unchanged |
| CleanEdge.ThinAoiIsNotWritten | MTF/MTF_Functions.py:406-520 | an AOI one pixel thick is never written, whatever the outcome |
| CleanEdge.NoReplacementOnThinAoi | MTF/MTF_Functions.py:416-520 | on a thin AOI, no visit writes |
| CleanEdge.RowsKeepThinAoi | MTF/MTF_Functions.py:415-520 | on a thin AOI, a column sweep writes nothing |
| CleanEdge.ColumnsKeepThinAoi | MTF/MTF_Functions.py:414-520 | on a thin AOI, a pass writes nothing |
| CleanEdge.FirstNeighbourSimilar | MTF/MTF_Functions.py:416-421 | with either test, a pixel is kept when its first neighbour is in the AOI and does not pass the test |
| CleanEdge.StableRows | MTF/MTF_Functions.py:415-520 | a column sweep changes nothing when no visit in it changes anything |
| CleanEdge.StableColumns | MTF/MTF_Functions.py:414-520 | a pass changes nothing when no visit in it changes anything |
| CleanEdge.SpeckRimKept | MTF/MTF_Functions.py:416-520 | on the 3 x 3 AOI with a centre one count darker, each outer pixel is kept under either test |
| CleanEdge.UniformKept | MTF/MTF_Functions.py:416-520 | in a uniform AOI at least 2 x 2, every pixel is kept under either test |
| CleanEdge.HealedKept | MTF/MTF_Functions.py:416-520 | on a uniform 3 x 3 AOI, every pixel is kept under either test |
| CleanEdge.SpeckCentreReplaced | MTF/MTF_Functions.py:503-520 | as written, a centre of 1000 among eight 1001 neighbours differs from each by 65535 and becomes 1001 |
| CleanEdge.SpeckMiddleColumn | MTF/MTF_Functions.py:415-520 | as written, the sweep of that AOI's middle column heals the centre and nothing else |
| CleanEdge.PassThroughMiddle | MTF/MTF_Functions.py:414-520 | a 3 x 3 pass that only changes the AOI in its middle column ends with that change |
| CleanEdge.TwoPassesSettle | MTF/MTF_Functions.py:413-520 | the second pass leaves a stable AOI as the first pass left it |
| CleanEdge.CleanEdgeSpecsDiffer | MTF/MTF_Functions.py:406-520 | for any threshold in [1, 65535), cleanEdge as written replaces the darker centre by 1001, while the intended test leaves the AOI unchanged |
| CleanEdge.SweepColumn | MTF/MTF_Functions.py:415-520 | the in-place loop over one column leaves the array as SweepRows says for the chosen test, with its failure flag |
| CleanEdge.SweepOnce | MTF/MTF_Functions.py:414-520 | the in-place pass leaves the array as Pass says for the chosen test |
| CleanEdge.Clean | MTF/MTF_Functions.py:406-520 | the in-place cleanEdge leaves the array as CleanEdgeSpec says for the chosen test, AsWritten being the code's |
| EdgeLocator.RowAt | MTF/MTF_Functions.py:555 | row i of the array, read as reals, is row i of its contents |
| EdgeLocator.RowFits | MTF/MTF_Functions.py:559-565 | one logistic fit per row |
| EdgeLocator.Chosen | MTF/MTF_Functions.py:553-565 | one choice per row |
| EdgeLocator.InitialGuess | MTF/MTF_Functions.py:560-561 | p0 has four entries: an amplitude max - min >= 0, a slope 1, the centre width / 2, and an offset min, so every sample lies between the offset and offset + amplitude |
| EdgeLocator.FitRow | MTF/MTF_Functions.py:559-563 | an empty row raises ValueError (np.amax) and nothing else does; fewer than four samples or a fit that does not converge raise; otherwise popt[2] of the fit from p0 |
| EdgeLocator.Collect | MTF/MTF_Functions.py:552-575 | a failed collection carries the error of some chosen row's fit |
| EdgeLocator.DetectLineSpec | MTF/MTF_Functions.py:542-583 | an AOI without rows raises IndexError, one with empty rows ValueError; on any other AOI only a failed curve_fit makes detect_line fail |
| EdgeLocator.DetectLine | MTF/MTF_Functions.py:542-583 | the loop's result is detect_line's specification on the AOI |
| EdgeLocator.FitRows | MTF/MTF_Functions.py:552-575 | the loop collects the fitted centres of the chosen rows, stopping at the first failed fit |
| EdgeLocator.CollectStops | MTF/MTF_Functions.py:562-563 | a failed fit of a chosen row ends detect_line with that failure |
| EdgeLocator.FailureStays | MTF/MTF_Functions.py:552-575 | once a fit failed, later rows do not change the outcome |
| EdgeLocator.CollectedAreChosenRows | MTF/MTF_Functions.py:564-575 | the observations pair each chosen row index with its fitted centre, in row order |
| EdgeLocator.ChosenRowsMembership | MTF/MTF_Functions.py:554-565 | a row index is collected iff the row is chosen |
| EdgeLocator.RowSelection | MTF/MTF_Functions.py:553-558 | when the top or bottom row is flat, only rows with std >= std/2 are fitted; otherwise every row is |
| EdgeLocator.NothingChosen | MTF/MTF_Functions.py:577-578 | with no row chosen, there are no observations |
| EdgeLocator.NoObservationsGivesDefaultLine | MTF/MTF_Functions.py:577-578 | when every row is flat, detect_line returns slope 0.1 and intercept 0 |
| EdgeLocator.GetLine | MTF/MTF_Functions.py:522-540 | fails iff detect_line failed; the angle is degrees(atan(m)); the edge runs from x = -1000 to x = 1000 |
| EdgeLocator.EdgeKeepsSlope | MTF/MTF_Functions.py:536-539 | the integer edge's slope is within 1/1000 of the fitted slope |
| FindEdge.Relocate | MTF/MTF_Functions.py:394-398 | one round of the loop keeps the placement well formed |
| FindEdge.Redraw | MTF/MTF_Functions.py:396-397 | redrawing and cleaning gives an AOI of its stated shape |
| FindEdge.Moves | MTF/MTF_Functions.py:393-400 | the re-centring loop keeps the placement well formed |
| FindEdge.FindEdgeSpec | MTF/MTF_Functions.py:378-403 | findEdge's outcome: raised, no edge, or an edge with a well-formed AOI |
| FindEdge.RaisesOnlyOnThinAoi | MTF/MTF_Functions.py:383 | the first cleanEdge can raise only on an AOI one pixel thick |
| FindEdge.AdjustNeverDividesByZero | MTF/MTF_Functions.py:296 | getLine's edges always span x = -1000 to 1000, so adjustAoi never divides by dx = 0 |
| FindEdge.StaticAoiStays | MTF/MTF_Functions.py:391-392 | without a dynamic AOI, the centre stays and the AOI is the cleaned crop |
| FindEdge.RelocateOnce | MTF/MTF_Functions.py:395-398 | the imperative round matches Relocate, and the current AOI array holds the new AOI |
| FindEdge.DrawAndClean | MTF/MTF_Functions.py:396-397 | drawAoi then cleanEdge on arrays matches Redraw |
| FindEdge.RedrawOfCrop | MTF/MTF_Functions.py:396-397 | a redraw cleans exactly the fresh crop of the frame |
| FindEdge.Recentre | MTF/MTF_Functions.py:393-400 | the two-round loop on arrays matches Moves |
| FindEdge.Find | MTF/MTF_Functions.py:378-403 | findEdge on arrays matches FindEdgeSpec; the AOI array ends holding its cleanEdge result, and the returned array holds the final AOI |
| EsfBuilder.GeometryOf | MTF/MTF_Functions.py:607-618 | both the edge and its 90-degree turn are proper segments in z = 0 |
| EsfBuilder.Turned | MTF/MTF_Functions.py:616-618 | the turned point lies in z = 0 |
| EsfBuilder.TurnedEdgeIsSegment | MTF/MTF_Functions.py:613-628 | both norms divide by a non-zero length |
| EsfBuilder.SignedDistance | MTF/MTF_Functions.py:622-626 | \|d\| is the pixel's distance to the edge, and d is negative below the line y < a x + b |
| EsfBuilder.AlongDistance | MTF/MTF_Functions.py:628 | dc is non-negative |
| EsfBuilder.Keeper | MTF/MTF_Functions.py:630 | the keep test is \|d\| <= normal distance and dc <= length / 2 |
| EsfBuilder.KeptInColumn | MTF/MTF_Functions.py:621-632 | the kept pixels of one column, within that column |
| EsfBuilder.KeptCells | MTF/MTF_Functions.py:620-632 | the kept pixels lie in the AOI |
| EsfBuilder.Samples | MTF/MTF_Functions.py:630-632 | data and positions are appended together and stay parallel |
| EsfBuilder.AnalyseSpec | MTF/MTF_Functions.py:585-633 | fails exactly on a vertical edge; otherwise parallel lists of at most w x h samples |
| EsfBuilder.KeptCellsInAoi | MTF/MTF_Functions.py:620-632 | every kept pixel lies in the AOI |
| EsfBuilder.KeptAreKept | MTF/MTF_Functions.py:630 | every collected pixel passes the keep test |
| EsfBuilder.KeptInColumnAreKept | MTF/MTF_Functions.py:630 | every pixel collected in a column passes the test |
| EsfBuilder.KeptInColumnExactly | MTF/MTF_Functions.py:621-632 | a pixel is collected in column x iff it lies in that column and passes |
| EsfBuilder.KeptCellsExactly | MTF/MTF_Functions.py:620-632 | a pixel is collected iff it lies in the AOI and passes |
| EsfBuilder.KeptInColumnOrdered | MTF/MTF_Functions.py:621 | a column's pixels come top to bottom |
| EsfBuilder.KeptCellsOrdered | MTF/MTF_Functions.py:620-621 | pixels come column by column, top to bottom |
| EsfBuilder.SamplesArePixels | MTF/MTF_Functions.py:630-632 | sample i is the intensity and signed distance of the i-th kept pixel |
| EsfBuilder.SampleAt | MTF/MTF_Functions.py:631-632 | sample i of a cell list is that cell's pixel and distance |
| EsfBuilder.Analyse | MTF/MTF_Functions.py:585-633 | the nested loop over the AOI array computes AnalyseSpec |
| EsfBuilder.ScanColumn | MTF/MTF_Functions.py:621-632 | one column's loop appends exactly that column's kept pixels |
| Resample.Linspace | MTF/MTF_Functions.py:661 | num points from -d to d |
| Resample.Weight | MTF/MTF_Functions.py:669-672 | the triangular weight lies in [0, 1] and is positive iff the offset is under 4/7 |
| Resample.TotalWeight | MTF/MTF_Functions.py:666-672 | sumsN is non-negative |
| Resample.Resampled | MTF/MTF_Functions.py:664-679 | the resampled curve has at most num points, positions and values parallel |
| Resample.GridSpacing | MTF/MTF_Functions.py:659-661 | grid point j is -d + j x 2 / oversampling |
| Resample.LinspaceRises | MTF/MTF_Functions.py:661 | the grid strictly increases |
| Resample.NoWeightMeansNoNearSample | MTF/MTF_Functions.py:669-673 | sumsN is 0 iff no raw sample lies within 4/7 of the grid point |
| Resample.WeightedSumBounds | MTF/MTF_Functions.py:666-672 | the weighted sums stay between lo and hi times the weight |
| Resample.MeanWithinNeighbours | MTF/MTF_Functions.py:678 | a resampled value lies between the smallest and largest nearby raw intensity |
| Resample.SurvivorAt | MTF/MTF_Functions.py:673-679 | each surviving point comes from the grid and has a raw sample in support |
| Resample.SurvivorsAreSupported | MTF/MTF_Functions.py:673-679 | every survivor is a grid point with support |
| Resample.SupportedSurvive | MTF/MTF_Functions.py:673-679 | every grid point with support survives |
| Resample.SurvivorsRise | MTF/MTF_Functions.py:673-676 | deleting points keeps a rising grid rising |
| Resample.ResampledRise | MTF/MTF_Functions.py:661-679 | the resampled positions strictly increase |
| Resample.Weigh | MTF/MTF_Functions.py:666-672 | the inner loop computes sumsI and sumsN |
| Resample.ResampleEsf | MTF/MTF_Functions.py:657-679 | a negative num raises ValueError; otherwise the while loop with np.delete yields Resampled |
| Resample.ResampleGrid | MTF/MTF_Functions.py:664-679 | the while loop over a grid yields Resampled |
| Resample.ResamplePoint | MTF/MTF_Functions.py:665-679 | one pass deletes the point or stores the weighted mean, keeping the loop's invariant |
| Crossings.Chain | MTF/MTF_Functions.py:692-695 | one elif chain keeps the number of recorded values |
| Crossings.Walk | MTF/MTF_Functions.py:690-701 | the walk keeps one value per threshold |
| Crossings.ChainRecordsAtMostOne | MTF/MTF_Functions.py:692-695 | an elif chain records at most one threshold: the first open one the sample crosses |
| Crossings.WalkFailsOnlyPastTheCurve | MTF/MTF_Functions.py:690-701 | the walk raises only IndexError, and only when the curve is shorter than the grid |
| Crossings.ChainFailsOnlyPastTheCurve | MTF/MTF_Functions.py:692-695 | a chain raises only when reading past the curve |
| Crossings.WalkPrefixOk | MTF/MTF_Functions.py:690-701 | a successful walk succeeded on every prefix |
| Crossings.ErrorsPersist | MTF/MTF_Functions.py:690-701 | a raised error ends the walk |
| Crossings.NothingFoundYet | MTF/MTF_Functions.py:687-688 | the walk starts with every threshold at 0 |
| Crossings.ChainKeepsRecords | MTF/MTF_Functions.py:692-695 | a non-zero record is never overwritten |
| Crossings.RecordsStay | MTF/MTF_Functions.py:690-701 | a non-zero record stays to the end of the walk |
| Crossings.ChainRecordsCrossings | MTF/MTF_Functions.py:692-695 | a chain changes a record only at a sample past its threshold, writing that sample's or the previous position |
| Crossings.RecordsAreCrossings | MTF/MTF_Functions.py:690-701 | every non-zero record is the position at some sample past its threshold |
| Crossings.ZeroRecordLeavesLinkOpen | MTF/MTF_Functions.py:692-693 | recording position 0.0 leaves the threshold open |
| EsfFit.FitThresholds | MTF/MTF_Functions.py:690-701 | two links; the second records the previous sample |
| EsfFit.D10D90 | MTF/MTF_Functions.py:683-701 | an empty curve raises ValueError; other failures are IndexError on a curve shorter than its grid |
| EsfFit.FirstSampleNeverLooksBack | MTF/MTF_Functions.py:694-695 | the first sample never crosses the look-back link, so ESFrX[x - 1] is not read at x = 0 |
| EsfFit.DistancesAreCrossings | MTF/MTF_Functions.py:690-701 | non-zero d10 and d90 are grid positions at or just before their threshold crossings |
| EsfFit.ChainOfTwo | MTF/MTF_Functions.py:692-695 | the two-link elif chain, case by case |
| EsfFit.BadOversamplingFails | MTF/MTF_Functions.py:681 | an odd oversampling, or one below 4, makes the fit raise TypeError |
| EsfFit.RefitShape | MTF/MTF_Functions.py:703-772 | the refit keeps the grid, d10 and d90, the tail start dT, and splits the raw samples without loss |
| EsfFit.FitStages | MTF/MTF_Functions.py:657-685 | a successful fit went through the resampling, a successful smoothing and a successful d10/d90 walk |
| EsfFit.FitOf | MTF/MTF_Functions.py:640-782 | a negative point count raises ValueError (np.linspace); a fit's positions are the resampled grid |
| EsfFit.FitSmoothed | MTF/MTF_Functions.py:681-772 | a failing first savitzky_golay ends the stage; the positions are the resampled grid |
| EsfFit.FitFrom | MTF/MTF_Functions.py:683-772 | an empty curve raises ValueError; a fit carries the d10 and d90 of the d10/d90 walk |
| EsfFit.FitBeyond | MTF/MTF_Functions.py:703-772 | the grid, d10 and d90 are kept, dT is tailStartdT x max(abs(d10), abs(d90)), and without noise removal every raw sample is kept |
| EsfFit.FitKeepsGrid | MTF/MTF_Functions.py:659-679 | the fitted positions are the resampled grid, and they rise |
| EsfFit.ResmoothingStaysInRange | MTF/MTF_Functions.py:743-768 | with noise removal off, every re-smoothed value lies in the raw intensities' range |
| EsfFit.FitFalling | MTF/MTF_Functions.py:690-695 | the loop for a falling curve computes the walk |
| EsfFit.FitRising | MTF/MTF_Functions.py:696-701 | the loop for a rising curve computes the walk |
| EsfFit.FindDistances | MTF/MTF_Functions.py:683-701 | the d10/d90 code computes D10D90 |
| EsfFit.FitEsfCurve | MTF/MTF_Functions.py:640-782 | fitESFCurve computes FitOf |
| EsfFit.SmoothAndFinish | MTF/MTF_Functions.py:681-772 | smoothing the resampled curve and finishing computes FitSmoothed |
| EsfFit.FinishFit | MTF/MTF_Functions.py:683-772 | the steps after the first smoothing compute FitFrom |
| EsfFit.Refit | MTF/MTF_Functions.py:703-772 | noise removal and re-smoothing compute FitBeyond |
| EsfNoise.TailSamples | MTF/MTF_Functions.py:711-714 | y_samples holds at most one value per raw sample |
| EsfNoise.TailCut | MTF/MTF_Functions.py:713 | the tail lies at least 3.5 px before the edge |
| EsfNoise.NearestFrom | MTF/MTF_Functions.py:719-724 | the nearest distance is at most 1, and j_index is 0 when nothing is nearer |
| EsfNoise.NearestIsFirstClosest | MTF/MTF_Functions.py:719-724 | j_index is the first grid point at minimal distance, when one lies within 1 |
| EsfNoise.Verdicts | MTF/MTF_Functions.py:718-739 | one verdict per raw sample |
| EsfNoise.Select | MTF/MTF_Functions.py:727-739 | a selection is no longer than its list |
| EsfNoise.NoiseSplit | MTF/MTF_Functions.py:710-745 | with noise removal off, everything is kept and nothing removed; the lists stay parallel |
| EsfNoise.SplitUpTo | MTF/MTF_Functions.py:718-739 | the prefix split keeps its lists parallel |
| EsfNoise.SplitOf | MTF/MTF_Functions.py:718-742 | the split keeps its lists parallel |
| EsfNoise.SplitBy | MTF/MTF_Functions.py:727-739 | a split by verdicts keeps its lists parallel |
| EsfNoise.SelectLengths | MTF/MTF_Functions.py:727-739 | intensities and positions are selected in step |
| EsfNoise.SelectPartitions | MTF/MTF_Functions.py:726-739 | kept and removed together are a permutation of the raw samples |
| EsfNoise.SelectKeepsOrder | MTF/MTF_Functions.py:727-739 | the selected samples keep their original order |
| EsfNoise.NearestGridPoint | MTF/MTF_Functions.py:719-724 | the inner loop computes j_index |
| EsfNoise.CollectTail | MTF/MTF_Functions.py:711-714 | the loop computes y_samples |
| EsfNoise.RemoveNoise | MTF/MTF_Functions.py:710-745 | the branch computes NoiseSplit |
| EsfNoise.SplitSamples | MTF/MTF_Functions.py:718-742 | the loop over raw samples computes SplitOf |
| EsfNoise.Judge | MTF/MTF_Functions.py:725-739 | one sample's test computes its verdict |
| EsfNoise.SigmaOfTail | MTF/MTF_Functions.py:715-716 | scaledSigma is the uint16 truncation of the tail's std, times the factor |
| EsfNoise.ScaledSigma | MTF/MTF_Functions.py:709-716 | for a non-negative scaling, scaledSigma lies between 0 and std(y_samples) x scaling, the std being truncated toward zero first |
| EsfNoise.Placed | MTF/MTF_Functions.py:725-739 | placing one sample keeps the lists parallel |
| EsfNoise.SplitSelects | MTF/MTF_Functions.py:718-742 | the loop's split is the selection of the raw samples by their verdicts |
| EsfNoise.PlacedSelects | MTF/MTF_Functions.py:725-739 | placing a sample extends the selection by that sample |
| EsfNoise.NoiseSplitPartitions | MTF/MTF_Functions.py:710-748 | the accepted and removed lists together are a permutation of the raw samples |
| EsfNoise.VerdictsFailOnlyOnIndex | MTF/MTF_Functions.py:721-726 | the noise test raises only IndexError |
| EsfSmooth.GaussWeight | MTF/MTF_Functions.py:759-760 | the Gaussian weight is positive |
| EsfSmooth.NearWeight | MTF/MTF_Functions.py:757-760 | a sample adds weight iff it lies within 2 px |
| EsfSmooth.GaussTotal | MTF/MTF_Functions.py:756-760 | sumsN is non-negative |
| EsfSmooth.TailWindow | MTF/MTF_Functions.py:763-767 | the tail window holds at most one value per sample |
| EsfSmooth.Smoother | MTF/MTF_Functions.py:752-768 | the per-point rule is the smoothing of that grid point |
| EsfSmooth.GaussianAt | MTF/MTF_Functions.py:752-761 | sumsI / sumsN fails iff sumsN is 0, with ZeroDivisionError |
| EsfSmooth.TailMeanAt | MTF/MTF_Functions.py:762-768 | the tail mean fails iff the window holds no sample, and then as NotFinite (numpy's NaN) |
| EsfSmooth.SmoothedAt | MTF/MTF_Functions.py:752-768 | without tail smoothing every point takes the Gaussian mean; only ZeroDivisionError or NotFinite can end it, NotFinite only in the tail branch at abs(x) >= dT |
| EsfSmooth.Collect | MTF/MTF_Functions.py:752 | one value per grid point |
| EsfSmooth.Resmoothed | MTF/MTF_Functions.py:750-768 | ESFrYnew has one value per grid point |
| EsfSmooth.NoGaussWeightMeansNoNearSample | MTF/MTF_Functions.py:756-761 | sumsN is 0 iff no accepted sample lies within 2 px |
| EsfSmooth.GaussianFailsOnlyWithoutSupport | MTF/MTF_Functions.py:761 | the Gaussian mean divides by zero exactly when no sample lies within 2 px |
| EsfSmooth.GaussSumBounds | MTF/MTF_Functions.py:756-760 | the Gaussian sums stay between lo and hi times the weight |
| EsfSmooth.GaussianWithinNeighbours | MTF/MTF_Functions.py:761 | the Gaussian mean lies in the range of the samples within 2 px |
| EsfSmooth.TailWindowMembers | MTF/MTF_Functions.py:763-767 | the tail window holds exactly the samples within the window, and is empty iff none is |
| EsfSmooth.TailWindowBounds | MTF/MTF_Functions.py:763-767 | tail-window values lie in their range |
| EsfSmooth.TailMeanWithinNeighbours | MTF/MTF_Functions.py:768 | the tail mean fails iff the window is empty, and lies in the range of the window's samples |
| EsfSmooth.CollectPointwise | MTF/MTF_Functions.py:752 | collection succeeds iff every point does, value by value |
| EsfSmooth.CollectStops | MTF/MTF_Functions.py:752 | a failing point ends the loop |
| EsfSmooth.ResmoothedPointwise | MTF/MTF_Functions.py:752-768 | ESFrYnew[j] is the smoothing at grid point j |
| EsfSmooth.ResmoothedWithinRange | MTF/MTF_Functions.py:750-768 | every re-smoothed value lies in the accepted intensities' range |
| EsfSmooth.Gaussian | MTF/MTF_Functions.py:753-761 | the loop computes the Gaussian mean |
| EsfSmooth.TailMean | MTF/MTF_Functions.py:762-768 | the loop computes the tail mean |
| EsfSmooth.Resmooth | MTF/MTF_Functions.py:750-768 | the loop over grid points computes Resmoothed |
| EsfSmooth.SmoothPoint | MTF/MTF_Functions.py:753-768 | one grid point's branch computes its smoothing |
| EdgeSpec.Percentiles | MTF/MTF_Functions.py:805-828 | five links, each recording the sample itself |
| EdgeSpec.CurveScan | MTF/MTF_Functions.py:795-805 | the curve's range is non-negative |
| EdgeSpec.WidthsOf | MTF/MTF_Functions.py:830-831 | both widths are non-negative |
| EdgeSpec.EdgeSpecOf | MTF/MTF_Functions.py:784-840 | an empty curve raises ValueError; other failures are IndexError on a short curve; widths are non-negative |
| EdgeSpec.PercentilesAreCrossings | MTF/MTF_Functions.py:805-828 | every non-zero percentile is the position of a sample past its threshold |
| EdgeSpec.ZeroCrossingIsOverwritten | MTF/MTF_Functions.py:799-816 | a crossing found at position 0.0 reads as not found and is replaced by a later one |
| EdgeSpec.ChainOfFive | MTF/MTF_Functions.py:806-816 | the five-link elif chain, case by case |
| EdgeSpec.EdgeSpec | MTF/MTF_Functions.py:784-831 | the code computes EdgeSpecOf |
| EdgeSpec.FallingWalk | MTF/MTF_Functions.py:805-816 | the falling-curve loop computes the walk |
| EdgeSpec.RisingWalk | MTF/MTF_Functions.py:817-828 | the rising-curve loop computes the walk |
| Mtf.Gradient | MTF/MTF_Functions.py:853 | np.gradient raises ValueError on fewer than two samples, and otherwise keeps the length |
| Mtf.GradientOfLine | MTF/MTF_Functions.py:853 | the gradient of a straight line is its slope everywhere |
| Mtf.FftLengthFromIsLeastPower | MTF/MTF_Functions.py:875-880 | the FFT length is twice the least power of two above the ESF length, or 64 when none below 2^16 is |
| Mtf.FftLengthIsTwiceLeastPower | MTF/MTF_Functions.py:875-880 | the same from i = 0 |
| Mtf.FftLengthIsEven | MTF/MTF_Functions.py:875-884 | the FFT length is even and at least 2, so np.split into halves succeeds |
| Mtf.FftLength | MTF/MTF_Functions.py:875-880 | desired_number_of_points is even and at least 2, and at least 8 for two or more samples |
| Mtf.SamplingInterval | MTF/MTF_Functions.py:882 | sampling_interval is 0 iff the pixel pitch is 0 or the grid is flat, and non-negative for a non-negative pitch |
| Mtf.FrequencyStep | MTF/MTF_Functions.py:886 | fftfreq's step is infinite iff d is 0; otherwise it is the finite 1 / (N d), positive for positive d |
| Mtf.LongEsfHasFourBins | MTF/MTF_Functions.py:875-886 | an ESF of two or more samples gives at least 8 bins |
| Mtf.Frequencies | MTF/MTF_Functions.py:886 | half the fftfreq axis |
| Mtf.FftHalf | MTF/MTF_Functions.py:884 | half the FFT magnitudes |
| Mtf.Sincs | MTF/MTF_Functions.py:895-897 | one detector and one truncation sinc per frequency |
| Mtf.SincOf | MISC/Misc_Functions.py:12-27 | 1 at frequency 0; ZeroDivisionError for a zero pitch at any other value; an infinite frequency raises; NaN stays NaN; no other error |
| Mtf.Gather | MTF/MTF_Functions.py:895-897 | the two sinc lists stay in step |
| Mtf.SincLists | MTF/MTF_Functions.py:893-897 | one pair of sincs per frequency |
| Mtf.FrequencyMax | MTF/MTF_Functions.py:888-891 | fails exactly when a selected index divides by a zero pixel pitch |
| Mtf.DivAll | MTF/MTF_Functions.py:899 | numpy's elementwise division |
| Mtf.Normalise | MTF/MTF_Functions.py:901 | division by the DC bin |
| Mtf.MtfOf | MTF/MTF_Functions.py:862-905 | a successful MTF has at least four bins |
| Mtf.Corrected | MTF/MTF_Functions.py:888-905 | the curves share the frequency axis and have its length |
| Mtf.SincsAreOneAtZero | MTF/MTF_Functions.py:895-897 | both sinc corrections are 1 at frequency 0 |
| Mtf.GatherPointwise | MTF/MTF_Functions.py:895-897 | the sinc loop succeeds iff every frequency does, value by value |
| Mtf.GatherStops | MTF/MTF_Functions.py:895-897 | a failing sinc ends the loop |
| Mtf.CorrectedIsOneAtZero | MTF/MTF_Functions.py:899-903 | the MTF, both sincs and the optical MTF are 1 at DC |
| Mtf.MtfIsOneAtZero | MTF/MTF_Functions.py:874-903 | with a non-zero DC bin, the first frequency is 0 and every curve is 1 there |
| Mtf.FlatGridFails | MTF/MTF_Functions.py:882-886 | a zero sampling interval makes fftfreq divide by zero, and the stage raises |
| Mtf.FrequenciesRise | MTF/MTF_Functions.py:886 | the frequency axis starts at 0 and strictly rises |
| Mtf.ChooseFftLength | MTF/MTF_Functions.py:875-880 | the loop computes the FFT length |
| Mtf.SincLoop | MTF/MTF_Functions.py:893-897 | the loop computes both sinc lists |
| Mtf.MtfCurve | MTF/MTF_Functions.py:862-905 | MTFCurve computes MtfOf |
| Batch.FieldPoint | MTF/MTF_Functions.py:96-108 | a folder is valid iff its name starts with one of the five prefixes |
| Batch.FieldPointsAreDistinct | MTF/MTF_Functions.py:97-106 | two valid folders get the same AOI centre iff their names start with the same letter |
| Batch.FieldPointsInFrame | MTF/MTF_Functions.py:97-106 | every AOI centre lies in the frame and in its own window |
| Batch.Column | MTF/MTF_Functions.py:122-123 | one column of the stacked MTFs |
| Batch.MeanAndPeak | MTF/MTF_Functions.py:120-125 | succeeds iff the folder gave MTFs of one length, else ValueError |
| Batch.ExtremesAreAttained | MTF/MTF_Functions.py:123 | min and max are elements of the list |
| Batch.MeanBetweenExtremes | MTF/MTF_Functions.py:122 | the mean lies between min and max |
| Batch.PeakHoldsAndMeanBelow | MTF/MTF_Functions.py:122-123 | the peak hold bounds every MTF and is attained, and some MTF is at or below the mean |
| Batch.SingleImageIsItsOwnAverage | MTF/MTF_Functions.py:121-123 | one image's mean and peak are that image's MTF |
| Batch.FlattenPrefix | MTF/MTF_Functions.py:192-193 | flattening a prefix gives a prefix |
| Batch.FlattenAt | MTF/MTF_Functions.py:192-193 | element k of list i sits at its offset plus k |
| Batch.FlattenLength | MTF/MTF_Functions.py:192-193 | the flattened length is the total length |
| Batch.DataLists | MTF/MTF_Functions.py:186 | one intensity list per image |
| Batch.PositionLists | MTF/MTF_Functions.py:187 | one position list per image |
| Batch.OffsetsAgree | MTF/MTF_Functions.py:186-193 | each image starts at the same offset in both stacks |
| Batch.TotalLengthsAgree | MTF/MTF_Functions.py:186-193 | the two stacks have equal prefix lengths |
| Batch.StackKeepsPairs | MTF/MTF_Functions.py:186-193 | the stack stays parallel and keeps each intensity with its position |
| Batch.StackedLength | MTF/MTF_Functions.py:192-193 | the stacks have the total lengths |
| BadPixels.Trim | Tools/prettify_process.py:103 | no space remains at either end |
| BadPixels.ParseInt | Tools/prettify_process.py:103 | int() of a field fails only with ValueError, and accepts only digits with an optional sign |
| BadPixels.DecimalValue | Tools/prettify_process.py:103 | digits printed from n read back as n |
| BadPixels.ParseShow | Tools/prettify_process.py:103 | int() of a printed integer is that integer |
| BadPixels.ParseRow | Tools/prettify_process.py:103 | a row shorter than 2 fields raises IndexError, a bad number ValueError |
| BadPixels.CsvRowRoundTrip | Tools/wholenineyards_process.py:55 | the row written for a cell parses back to that cell |
| BadPixels.ParseAll | Tools/prettify_process.py:102-103 | one cell per row |
| BadPixels.ParsedInOrder | Tools/prettify_process.py:102-103 | cell i parses row i, and a failure is the first failing row's |
| BadPixels.ParseStops | Tools/prettify_process.py:102-103 | a failure ends the parse |
| BadPixels.ReadBadPixels | Tools/prettify_process.py:99-103 | the reading loop computes the bad-pixel list |
| BadPixels.ParseEach | Tools/wholenineyards_process.py:52-55 | the loop over rows computes ParseAll |
| BadPixels.CountedUpToMembers | Tools/prettify_process.py:111-117 | the counted neighbours are exactly the in-frame block cells visited so far |
| BadPixels.FrameNeighboursAreAdjacent | Tools/prettify_process.py:111-115 | the counted neighbours are exactly the 8-neighbours inside the 1024 x 1280 frame |
| BadPixels.NeighbourCount | Tools/prettify_process.py:111-116 | 3 neighbours at a frame corner, 5 on a border, 8 inside |
| BadPixels.Totals | Tools/prettify_process.py:109-117 | succeeds iff every counted neighbour is in the image, and then counts them |
| BadPixels.FillPixel | Tools/prettify_process.py:107-119 | one fill keeps the shape |
| BadPixels.FillPixelWritesBetweenNeighbours | Tools/prettify_process.py:118-119 | a fill changes only its own pixel, only with a positive sum, to a value between its neighbours |
| BadPixels.FillPixelKeepsU16 | Tools/prettify_process.py:119 | a fill keeps uint16 values |
| BadPixels.Sweep | Tools/prettify_process.py:106-119 | one sweep keeps the shape |
| BadPixels.Sweeps | Tools/prettify_process.py:105-119 | the repeated sweeps keep the shape |
| BadPixels.FillPixelLeavesOthers | Tools/prettify_process.py:119 | a fill leaves every other pixel alone |
| BadPixels.SweepTouchesOnlyListed | Tools/prettify_process.py:106-119 | a sweep changes only listed pixels and keeps uint16 values |
| BadPixels.SweepsTouchOnlyListed | Tools/wholenineyards_process.py:201-215 | the sweeps change only listed pixels and keep uint16 values |
| BadPixels.NeighbourTotals | Tools/prettify_process.py:109-117 | the double loop over offsets computes the count and sum, or fails as Totals does |
| BadPixels.OutsideImage | Tools/prettify_process.py:115-117 | a counted neighbour outside a smaller image raises IndexError |
| BadPixels.FillOne | Tools/prettify_process.py:107-119 | one in-place fill computes FillPixel |
| BadPixels.SweepInPlace | Tools/prettify_process.py:106-119 | one in-place sweep computes Sweep |
| BadPixels.SweepStops | Tools/prettify_process.py:106-119 | a raising fill ends the sweep |
| BadPixels.Fill | Tools/wholenineyards_process.py:201-215 | the in-place sweeps compute Sweeps |
| BadPixels.SweepsStop | Tools/prettify_process.py:105-119 | a raising sweep ends the fill |
| Prettify.Crop | Tools/prettify_process.py:95 | [0:1024, 0:1280] keeps the top-left pixels, cut short by a smaller image |
| Prettify.InvertReverses | Tools/prettify_process.py:122 | np.invert on uint16 is an involution that stays in range and reverses order |
| Prettify.InvertImage | Tools/prettify_process.py:122 | every pixel becomes 65535 minus itself |
| Prettify.InvertImageTwice | Tools/prettify_process.py:122 | inverting twice restores the image and keeps uint16 values |
| Prettify.Median3 | Tools/prettify_process.py:126-129 | the median of three is one of them, with two at or below it and two at or above it |
| Prettify.MedianFiltered | Tools/prettify_process.py:125 | medfilt2d keeps the shape |
| Prettify.Despeckle | Tools/prettify_process.py:124-129 | succeeds iff the image reaches row 1023 and column 1279, keeping the shape |
| Prettify.DespeckleCorners | Tools/prettify_process.py:125-129 | only the four corners change, each to the median of its three neighbours' filtered values, so between their smallest and largest |
| Prettify.Clip | Tools/prettify_process.py:134 | the value is clipped into 0..65535 and left alone inside it |
| Prettify.Autoscale | Tools/prettify_process.py:131-134 | the autoscaled image has the input's rows |
| Prettify.Scale | Tools/prettify_process.py:132-134 | fails only when the percentiles coincide at the pixel's value; otherwise uint16 |
| Prettify.StretchRises | Tools/prettify_process.py:134 | the stretch is monotone |
| Prettify.StretchEnds | Tools/prettify_process.py:134 | the low percentile maps to 0 or below and the high one to 65535 or above |
| Prettify.ScaleIsMonotone | Tools/prettify_process.py:134 | the autoscale keeps order and saturates below the low and above the high percentile |
| Prettify.AutoscaleIsMonotone | Tools/prettify_process.py:131-134 | the autoscaled image keeps the shape, is uint16 and keeps the pixels' order |
| Prettify.FlipHorizontal | Tools/prettify_process.py:137 | mirroring keeps the row lengths |
| Prettify.FlipMirrors | Tools/prettify_process.py:136-137 | pixel (i, j) comes from (i, w - 1 - j), and flipping twice restores the image |
| Prettify.EightBitIsMonotone | Tools/prettify_process.py:160 | (v / 256) as uint8 is v div 256, in 0..255, and monotone |
| Prettify.EightBit | Tools/prettify_process.py:160 | for a non-negative pixel, (v / 256) as uint8 is the b with 256 b <= v < 256 (b + 1) |
| Prettify.ColormapName | Tools/prettify_process.py:139-155 | a code has a folder name iff it is one of the offered colormaps, and the name is not empty |
| Prettify.ColormapNamesDistinct | Tools/prettify_process.py:139-155 | every offered colormap has a folder name, and no two share one |
| Prettify.Ticks | Tools/prettify_process.py:73-90 | one tick per offered colormap |
| Prettify.PickMembers | Tools/prettify_process.py:75-90 | a code is chosen iff its box is ticked |
| Prettify.PickDistinct | Tools/prettify_process.py:75-90 | no colormap is chosen twice |
| Prettify.SelectedAreNamed | Tools/prettify_process.py:73-155 | each ticked colormap is chosen once and has a folder name |
| Prettify.FolderNames | Tools/prettify_process.py:139-157 | one folder per colormap; an unnamed code keeps the previous name, and raises with none before it |
| Prettify.NamedCodesUseTheirFolders | Tools/prettify_process.py:139-157 | with every code named, each image goes to its own colormap's folder |
| Prettify.Filled | Tools/prettify_process.py:97-119 | the ten sweeps keep the shape |
| Prettify.Finish | Tools/prettify_process.py:121-137 | the steps after the fill keep the shape, and give uint16 values when autoscaling |
| Prettify.AutoscaledShape | Tools/prettify_process.py:131-137 | autoscaling and then mirroring keeps the shape and uint16 values |
| Prettify.PrettifiedShape | Tools/prettify_process.py:92-137 | the output has the cropped shape, uint16 when autoscaled, and with only the fill on it changes only listed pixels |
| Prettify.PrettifyImage | Tools/prettify_process.py:92-137 | the imperative treatment of one image computes PrettifySpec |
| Prettify.PrettifySpec | Tools/prettify_process.py:92-137 | the output has the cropped shape, is uint16 when autoscaled, and is the crop itself with every box unticked |
| Wholenineyards.Ancillary | Tools/wholenineyards_process.py:76 | raw_tif[0:height, 1280:width] keeps the columns from 1280, cut to the frame |
| Wholenineyards.HConcat | Tools/wholenineyards_process.py:196 | cv2.hconcat succeeds iff the heights match, each row being the left row then the right row, and raises cv2.error otherwise |
| Wholenineyards.HConcatKeepsAncillary | Tools/wholenineyards_process.py:196 | the joined image holds the image on the left and the ancillary block on the right |
| Wholenineyards.AncillaryRoundTrip | Tools/wholenineyards_process.py:76 | cropping a frame and re-attaching its ancillary block gives the frame back |
| Wholenineyards.AncillaryOf | Tools/wholenineyards_process.py:69-77 | one block per frame, cut with the first frame's shape |
| Wholenineyards.SameShapeAncillary | Tools/wholenineyards_process.py:69-76 | for frames shaped like the first, the block is exactly columns 1280 onwards |
| Wholenineyards.Header | Tools/wholenineyards_process.py:122-130 | the settings file opens with eight header lines |
| Wholenineyards.WriteSettings | Tools/wholenineyards_process.py:121-134 | the writing loop produces the header and one line per image |
| Wholenineyards.SettingsLines | Tools/wholenineyards_process.py:121-134 | eight header lines, then image=<name> for each image in order |
| Wholenineyards.LinesOfJoin | Tools/wholenineyards_process.py:122-134 | text written line by line reads back as the same lines |
| Wholenineyards.SettingsReadBack | Tools/wholenineyards_process.py:122-134 | the settings file reads back as the header and the image lines, each naming its image |
| Wholenineyards.HeaderLines | Tools/wholenineyards_process.py:123-130 | each header line ends in its only newline |
| Wholenineyards.ImageLineReadsBack | Tools/wholenineyards_process.py:133 | an image line reads back as its file name |
| Wholenineyards.AncillaryAt | Tools/wholenineyards_process.py:196 | ancillary_data[k] exists iff k is in range |
| Wholenineyards.Copy | Tools/wholenineyards_process.py:193-197 | a ticked copy needs a block of the image's height, and is the image joined with it |
| Wholenineyards.Enhance | Tools/wholenineyards_process.py:217-255 | the scaled image is uint16 of the frame's shape, with a block for it |
| Wholenineyards.ProcessSpec | Tools/wholenineyards_process.py:187-255 | the processed image is uint16 of the frame's shape, and a frame without a block fails |
| Wholenineyards.ProcessedOutputs | Tools/wholenineyards_process.py:187-255 | each saved copy (NUC, bad-pixel, inverted, despeckled, scaled) is its stage's image followed by the block; the fill changes only listed pixels; the inverted copy is 65535 minus the filled image; the scaled image is the autoscaled despeckled inverse |
| Wholenineyards.CopyRows | Tools/wholenineyards_process.py:196 | a saved row is the image row followed by the block row |
| Wholenineyards.EnhancedOutputs | Tools/wholenineyards_process.py:217-255 | the bad-pixel, inverted, despeckled and scaled copies each hold their stage's image followed by the block |
| Wholenineyards.Numbered | Tools/wholenineyards_process.py:186-187 | each frame is paired with its image_counter |
| Wholenineyards.RunPairsFrames | Tools/wholenineyards_process.py:185-288 | a run succeeds only with a block per frame, and output k is frame k with block k |
| Wholenineyards.RunSpec | Tools/wholenineyards_process.py:185-288 | a run yields one output per frame, and nothing for no frames |
| Wholenineyards.Worker.constructor | Tools/wholenineyards_process.py:24-56 | the worker starts with the given bad-pixel list and no ancillary data |
| Wholenineyards.NewWorker | Tools/wholenineyards_process.py:24-56 | construction fails iff the CSV does not parse, and otherwise holds the parsed list |
| Wholenineyards.Worker.CollectAncillary | Tools/wholenineyards_process.py:63-78 | appends one block per raw frame; with no frames it raises IndexError and changes nothing |
| Wholenineyards.Worker.ProcessImage | Tools/wholenineyards_process.py:187-255 | the worker's treatment of frame k computes ProcessSpec with its fields |
| Wholenineyards.Worker.Run | Tools/wholenineyards_process.py:185-288 | the processing pass computes RunSpec with its fields |

## Left out

- User interface, plotting, dialogs, file and directory I/O, threads and Qt
  signals. Their inputs are parameters and their outputs are results.
- The external NUC program that is run as a subprocess
  (Tools/wholenineyards_process.py:136-138). Its output frames are an input
  of `Wholenineyards.Worker.Run`.
- Video generation (Tools/wholenineyards_process.py:291-323).
- Folder creation and the raw copies without ancillary data
  (Tools/wholenineyards_process.py:80-95).
- The colormap application and the flip of the colour images in the worker
  (Tools/wholenineyards_process.py:257-285). The colormap names and the
  8-bit conversion are modelled once, for Prettify.
- Library numerics are fields of a `Numerics.Lib` parameter, and each field
  is given only the facts the proofs use:
  - `math`: exp, atan, cos/sin;
  - `numpy`: std, polyfit, fft, percentile;
  - `scipy`: curve_fit, medfilt2d;
  - the Savitzky-Golay pseudo-inverse weights.

  Their numerical values are not modelled.
- Floating-point rounding. Reals are exact here, and float64, uint16 and
  int64 arithmetic are modelled only where the code depends on them:
  - int() truncation;
  - round() halves to even;
  - np.invert on uint16;
  - the wrapped uint16 difference in cleanEdge's neighbour test;
  - astype('uint16') of the tail std;
  - the clip to 0..65535.
- Infinities and NaN. Numpy produces them without raising. They are modelled
  on the MTF curves (`Mtf.Div`). The mean of an empty tail window
  (`EsfSmooth.TailMeanAt`) and the autoscale of coinciding percentiles
  (`Prettify.Scale`) end their stage as `NotFinite`; the NaN of an empty
  noise tail is not modelled (see `EsfNoise.ScaledSigma` below).
- The dtype of medfilt2d's result and the dtype check of cv2.hconcat.
  Images are `int` grids, and hconcat checks only heights. A height mismatch
  raises `CvError`, which stands for cv2.error.
- Python's int() on non-ASCII digits, non-ASCII whitespace and underscores, csv quoting and the
  byte-order mark. CSV rows arrive already split into fields.
- The pairing of frames with ancillary blocks by position: os.listdir order
  is taken to match the raw frames' order.
- The fill sums are unbounded integers. Numpy's accumulator width depends on
  its version.
- np.interp at half-Nyquist in BulkAnalyseAndAverage
  (MTF/MTF_Functions.py:124-125), which only feeds the plot.
- Report generation after AnalyseStack (MTF/MTF_Functions.py:195).
- Batch.MeanAndPeak: averages real-valued MTFs. It does not model NaN in a
  folder's MTFs.
- Mtf.MtfOf: requires at least two ESF samples, because MTFCurve runs only
  after np.gradient succeeded on the same curve.
- Mtf.MtfOf: takes width10_90 as a parameter, as EdgeSpec leaves it on the
  window object.
- EsfNoise.ScaledSigma: when no raw sample lies at or below
  -(3.5 + max(abs(d10), abs(d90))), y_samples is empty and np.std gives NaN,
  which astype('uint16') turns into an unspecified value without raising.
  The model carries on with the library's unconstrained `lib.std([])`,
  truncated, instead.
- Numerics.Sqrt: states only that the square root is zero exactly at zero.
- Aoi.AdjustAoi: ignores the signal disconnect and reconnect around the move.

## Findings

| source | as written | input that shows it | evidently intended | confidence | as-written member | corrected member |
|---|---|---|---|---|---|---|
| MTF/MTF_Functions.py:419-512 | `abs(a[y, x] - a[r, c])` subtracts two numpy uint16 pixels, so the difference wraps modulo 65536 before abs() sees it | a 3 x 3 AOI with centre 1000, all eight neighbours 1001 and a threshold in [1, 65535): 1000 - 1001 wraps to 65535, so the centre is treated as dead and replaced by 1001, although 1001 does not differ from 1000 | the absolute intensity difference, symmetric in the two pixels, which leaves this AOI unchanged | not executed | CleanEdge.CleanEdgeSpecsDiffer | CleanEdge.DiffersIsSymmetric |
