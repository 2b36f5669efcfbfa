# Webcam fisheye grid — a verified model

`sketch.js` is a p5.js sketch that shows the webcam picture through a grid
of 100 × 50 cells whose sizes bulge around the tip of the user's index
finger, found by a hand tracker. This project models its core in Dafny and
proves what the sketch relies on:

- **Fisheye weights** (`Fisheye`): every cell gets a weight
  `maxSize * (1 - d)^falloff`, clamped to `[minSize, maxSize]`, where `d` is
  the distance from the cell's centre to the focal coordinate, in units of
  half the axis, clamped to `[0, 1]`.
- **Grid distortion engine** (`Layout`): the `Grid` class owns the
  `colWidths` and `rowHeights` arrays. They start uniform. Each frame, every
  axis rescales its weights so the targets add up to the canvas extent, and
  each size is eased toward its target with `lerp`. Both axes stay
  partitions of the canvas: positive sizes that add up to its width and
  height.
- **Landmark stabiliser** (`Tracking`): the `Stabilizer` class clones the
  first detection, `lerp`s every landmark toward each later detection, and
  falls back to the last known hand when the tracker sees nothing.
- **Camera** (`Camera`): `setCameraDimensions` scales the video to cover the
  canvas. The fingertip is mapped onto the canvas mirrored and centred like
  the scaled video.
- **Compositor** (`Compositor`): the drawing loops draw, for every cell, the
  horizontally mirrored slice of the webcam picture. Each cell is placed at
  the running sums of the sizes before it.
- **The sketch** (`Sketch`): its settings, `setup()` with the webcam's
  ready callback, and one frame of `draw()`.

Numbers are exact reals, and p5's helpers are modelled in `Numeric`:

- `constrain(n, lo, hi) = max(min(n, hi), lo)`;
- `lerp(a, b, t) = t * (b - a) + a`;
- `map`, the linear map from one range onto another;
- `pow` with a natural exponent.

Two details of the sketch shape the model:

- The sketch smooths all 21 landmarks in normalised video coordinates and
  maps the fingertip afterwards; it never smooths the focal point itself.
- Before the first detection `draw()` composites nothing; `Engine.Draw`
  returns no calls then.

## Model

| member | source | states |
|---|---|---|
| Numeric.Abs | sketch.js:131 | `abs` is never negative and is the value or its negation |
| Numeric.Constrain | sketch.js:132-133 | `constrain` returns a value in `[low, high]`; a value already inside is returned unchanged, one below `low` becomes `low`, one above `high` becomes `high` |
| Numeric.ConstrainMonotone | sketch.js:132-133 | raising the input of `constrain` never lowers its output |
| Numeric.Lerp | sketch.js:92-101 | after a `lerp` step, the distance to the target is the old distance times `1 - amt` |
| Numeric.LerpBetween | sketch.js:141 | with a rate in [0, 1], `lerp` lands between its two ends, whichever end is larger |
| Numeric.LerpContracts | sketch.js:92-101 | with a rate in [0, 1], a `lerp` step never moves further from its target |
| Numeric.Pow | sketch.js:132 | `pow` with a natural exponent: every power of 1 is 1, so the falloff peaks at `maxSize`; every positive power of 0 is 0 |
| Numeric.PowMonotone | sketch.js:132 | on non-negative bases, a power grows with its base |
| Numeric.Sum | sketch.js:135 | the running total the weight loop accumulates, added left to right; its properties are the `Sum*` and `PrefixSumStep` lemmas |
| Numeric.PrefixSumStep | sketch.js:207-209 | adding the next size to a running sum gives the sum of the longer prefix |
| Numeric.SumLowerBound | sketch.js:134-135 | entries all at least `m` sum to at least `length * m` |
| Numeric.SumPositive | sketch.js:134-135 | positive entries have a positive sum unless there are none |
| Numeric.SumAtLeast | sketch.js:134-135 | `n` entries all at least `m` sum to at least `n * m`, which is positive when `m` is |
| Numeric.MapRange | sketch.js:115-116 | p5's `map` keeps proportions: `(r - start2) * (stop1 - start1) == (n - start1) * (stop2 - start2)` |
| Numeric.MapRangeEnds | sketch.js:115-116 | `map` sends `start1` to `start2` and `stop1` to `stop2` |
| Numeric.MapUnit | sketch.js:115-116 | mapping `[0, 1]` onto `[0, extent]` multiplies by the extent |
| Numeric.SumConstant | sketch.js:67-68 | `n` copies of `v` sum to `n * v` |
| Numeric.SumScaled | sketch.js:138-140 | multiplying every entry by `k` multiplies the sum by `k` |
| Numeric.LerpAll | sketch.js:139-142 | the easing loop on a whole axis: one value per cell, each cell's distance to its target shrunk by the factor `1 - amt` |
| Numeric.SumLerpAll | sketch.js:139-142 | the sum of the entry-wise `lerp`s is the `lerp` of the sums |
| Numeric.ShrunkPow | sketch.js:141 | shrinking a distance `k` times by the factor `1 - rate` multiplies it by `(1 - rate)^k` |
| Numeric.ApproachShrinks | sketch.js:141 | every step toward a fixed target shrinks the signed distance by the factor `1 - rate` |
| Numeric.ApproachDistance | sketch.js:141 | after `k` steps toward a fixed target, the distance is the starting distance times `(1 - rate)^k` |
| Numeric.ApproachMonotone | sketch.js:141 | with a rate in [0, 1], every further step is at least as close to the target: no overshoot |
| Numeric.ApproachBounded | sketch.js:141 | after any number of steps, the value is no further from the target than at the start |
| Fisheye.CellCenter | sketch.js:130 | a cell's centre lies strictly inside a positive axis |
| Fisheye.NormDistance | sketch.js:130-131 | the normalised distance is non-negative on a positive axis, and 0 when the focal coordinate is the cell's centre |
| Fisheye.Falloff | sketch.js:132 | the unclamped weight `maxSize * (1 - clamp(d))^falloff`; its bounds are `FalloffBounds` and its order `FalloffMonotone` |
| Fisheye.FalloffBounds | sketch.js:132 | the unclamped weight is `maxSize` at distance 0 and lies in `[0, maxSize]` when `maxSize >= 0` |
| Fisheye.FalloffMonotone | sketch.js:132 | the unclamped weight `maxSize * (1 - clamp(d))^falloff` never increases with the distance |
| Fisheye.Weight | sketch.js:132-133 | the weight lies in `[minSize, maxSize]`; it is `maxSize` at distance 0 and `minSize` at half the axis or beyond |
| Fisheye.WeightMonotone | sketch.js:130-133 | a cell further from the focal coordinate never gets a larger weight |
| Fisheye.Weights | sketch.js:129-134 | one weight per cell of the axis, none below `minSize` |
| Fisheye.TotalWeightBound | sketch.js:129-135 | the total weight is at least `cols * minSize` |
| Fisheye.TotalWeightPositive | sketch.js:135-138 | with `minSize > 0` the total weight is positive, so the division by it is safe |
| Layout.Uniform | sketch.js:67-68 | `n` cells, each an `n`-th of the extent |
| Layout.UniformPartition | sketch.js:67-68 | the uniform start, `extent / n` per cell, is positive and adds up to the extent |
| Layout.Normalize | sketch.js:138-140 | rescaling keeps the number of cells |
| Layout.NormalizeSum | sketch.js:138-140 | weights multiplied by `extent / total` add up to exactly the extent |
| Layout.NormalizePositive | sketch.js:138-140 | positive weights stay positive when rescaled to a positive extent |
| Layout.NormalizePartition | sketch.js:138-140 | positive weights rescale to a partition of the extent |
| Layout.NormalizeOrder | sketch.js:138-140 | rescaling keeps the order of the weights |
| Layout.NormalizeSingle | sketch.js:138-140 | a single weight rescales to the whole extent |
| Layout.Targets | sketch.js:129-140 | one target per cell |
| Layout.TargetsPartition | sketch.js:129-140 | whatever the focal point, the targets are positive and add up to the canvas extent |
| Layout.TargetsOrder | sketch.js:130-140 | a cell whose centre is no further from the focal point gets at least as large a target |
| Layout.SingleCellTarget | sketch.js:129-140 | a one-cell axis always targets the whole extent |
| Layout.EasePreservesPartition | sketch.js:139-142 | easing a partition toward a partition gives a partition: the sum stays the extent and the sizes stay positive |
| Layout.TargetsAreFixed | sketch.js:139-142 | an axis already at its targets stays there |
| Layout.AxisWeights | sketch.js:126-136 | the weight loop accumulates exactly the cells' weights and their total |
| Layout.TargetsFromWeights | sketch.js:138-140 | the accumulated total is positive, and each weight times `extent / total` is that cell's target |
| Layout.EaseAxis | sketch.js:125-142 | one axis's frame: every size becomes the `lerp` of its old value toward its target |
| Layout.UniformArray | sketch.js:67-68 | the initialisation loop fills the array with `extent / n` |
| Layout.Grid.constructor | sketch.js:67-68 | the grid starts uniform on both axes, and both axes are partitions of the canvas |
| Layout.Grid.Relayout | sketch.js:125-161 | columns and rows ease toward the targets for the focal x and y; both axes remain partitions of the canvas |
| Tracking.LerpPoint | sketch.js:92-101 | `lerp` on both coordinates shrinks each coordinate's distance to the raw landmark by the factor `1 - rate` |
| Tracking.SmoothHand | sketch.js:91-102 | the smoothed hand keeps its number of landmarks |
| Tracking.Step | sketch.js:81-109 | no detection: the hand is kept, or stays absent; a first detection is adopted unchanged; later detections keep the hand's size |
| Tracking.SmoothSelf | sketch.js:85-102 | smoothing a freshly cloned hand toward itself leaves it unchanged |
| Tracking.SmoothTowardRaw | sketch.js:91-102 | each smoothed coordinate moves toward the raw one and never past it; landmarks beyond the raw hand are untouched |
| Tracking.Run | sketch.js:81-111 | over a run of frames, there is a hand to draw from exactly when there was one at the start or some frame detected one |
| Tracking.HoldWhileLost | sketch.js:106-109 | frames without a detection leave the hand as the last detection made it |
| Tracking.StillHandConverges | sketch.js:91-102 | while the hand holds still, every landmark coordinate follows the repeated `lerp`, so its distance shrinks geometrically |
| Tracking.Stabilizer.constructor | sketch.js:32-34 | no clone and no hand yet |
| Tracking.Stabilizer.Tick | sketch.js:81-111 | one frame of the stabiliser follows `Step`; the clone flag is set exactly when a hand exists, and the last known copy equals the hand |
| Camera.CoverSize | sketch.js:249-262 | a video wider than the canvas is fitted to the canvas height; any other is fitted to its width |
| Camera.CoverKeepsAspect | sketch.js:249-262 | the scaled video keeps the video's aspect ratio |
| Camera.CoverCoversCanvas | sketch.js:249-262 | the scaled video is at least as wide and as high as the canvas, and equal on one side |
| Camera.Video.SetCameraDimensions | sketch.js:249-262 | the scaled size becomes the cover size |
| Camera.FocalPoint | sketch.js:115-123 | the focal x is the canvas centre plus half the scaled width, minus the landmark's share of the scaled width (mirrored); the focal y is the top of the centred video plus the landmark's share of the scaled height |
| Camera.FocalEdges | sketch.js:115-123 | landmark x 0 maps to the right edge of the centred video and x 1 to its left edge; y 0 maps to its top and y 1 to its bottom |
| Camera.FocalMirror | sketch.js:115-123 | mirrored landmarks map to points mirrored about the canvas centre; the video's centre maps to the canvas centre |
| Camera.FocalOrientation | sketch.js:115-123 | moving the fingertip right moves the focal point left; moving it down moves the focal point down |
| Camera.FocalWithinVideo | sketch.js:115-123 | a landmark inside the frame maps inside the scaled video centred on the canvas |
| Compositor.SourceColumn | sketch.js:192-193 | the mirrored source column is a column, with `c + source == cols - 1` |
| Compositor.MirrorBijection | sketch.js:192-193 | the mirror is its own inverse, is injective, and swaps the first and last columns |
| Compositor.SourceSlice | sketch.js:193-196 | the webcam picture is cut into `cols` equal slice widths and `rows` equal slice heights |
| Compositor.SliceMirrored | sketch.js:192-196 | the slice for canvas column `c` ends `c` slice widths from the video's right edge; the slice for row `r` starts `r` slice heights down |
| Compositor.Cell | sketch.js:193-205 | the cell spans from the running sum of the sizes before it to the running sum including it, on both axes, and shows its mirrored webcam slice |
| Compositor.RowCalls | sketch.js:166-208 | one call per column of the row |
| Compositor.Frame | sketch.js:164-210 | `rows * cols` calls per frame |
| Compositor.FrameIndex | sketch.js:164-210 | cell `(r, c)` is drawn at index `r * cols + c`, so every cell is drawn exactly once, in row-major order |
| Compositor.ComposeRow | sketch.js:166-208 | the inner loop emits the calls of one row, each at the running x |
| Compositor.Compose | sketch.js:164-210 | the drawing loops emit exactly the frame's calls, each cell at the running sums of sizes before it |
| Compositor.CellsAbut | sketch.js:198-209 | neighbouring cells abut; the first starts at the origin; the last column and row end at the axis totals |
| Compositor.PrefixMonotone | sketch.js:207-209 | with positive sizes, the running x and y never decrease |
| Compositor.SomeCell | sketch.js:198-209 | every coordinate in `[0, total)` lies in some cell's span |
| Compositor.OnlyCell | sketch.js:198-209 | with positive sizes, no coordinate lies in two cells' spans |
| Compositor.CellsTile | sketch.js:164-210 | when both axes are partitions, every canvas point lies in exactly one cell |
| Sketch.SettingsSound | sketch.js:3-31 | the sketch's settings satisfy what the model's contracts need |
| Sketch.Engine.constructor | sketch.js:41-74 | after setup and the webcam callback: a uniform grid, no hand yet, the webcam scaled to cover the canvas |
| Sketch.Engine.Draw | sketch.js:77-210 | one frame: the stabiliser steps; with a hand, the grid eases toward the fingertip's targets and every cell is drawn; without one, nothing changes or is drawn |
| Sketch.FrameTilesCanvas | sketch.js:164-210 | in every reachable state, the next frame's cells tile the canvas |

## Left out

- The webcam and hand tracker are left out. The tracker's output for a frame is the `Option` argument of `Tick` and `Draw`. The webcam's size is an argument of the `Engine` constructor.
- p5's drawing is left out: background, fill, stroke, `image`, CSS sizing and `centerOurStuff`. Each `image` call is modelled as a `Blit` value.
- Floating-point rounding is left out. All arithmetic is over exact reals.
- `falloffFactor` is the real `10.0` in the source but is modelled as the natural number 10, so `pow` is repeated multiplication.
- Only hand 0 is modelled. A detection's other hands are cloned once and never read again.
- The landmarks' `z` coordinate is left out; the sketch never reads it.
- The JSON deep copies are left out. The model stores immutable values, so a copy is the value itself.
- Sketch.Engine.Draw: requires every detection to have the tracker's 21 landmarks. The source's loop would fail on a detection longer than the smoothed hand, and its focal point reads landmark 8.
- Frames before the webcam is ready are not modelled separately. Hand tracking starts only in the ready callback, after `setCameraDimensions` (sketch.js:239-240), so no detection exists before then and those frames only clear the background. `Engine.Draw(None)` on the constructor's state reproduces them: nothing is drawn and nothing changes.
- The unused `cellSize` (line 169) is left out.
- The commented-out drawing code (lines 175-190) is left out.
- `currentCell` and the fingertip marker are left out; neither affects the output.
- Convergence under a moving focal point is left out. The convergence lemmas (`Numeric.Approach*`, `Tracking.StillHandConverges`) cover a target that holds still from frame to frame.
