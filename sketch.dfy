/**
 * The sketch as a whole: its settings, `setup()` together with the webcam's
 * ready callback, and one frame of `draw()` — stabilise the tracked hand,
 * move the fisheye toward the index fingertip and composite the webcam
 * picture into the distorted grid.
 */
module Sketch {
  import opened Numeric
  import opened Fisheye
  import opened Layout
  import opened Tracking
  import opened Camera
  import opened Compositor

  /** The canvas (Instagram 4:5) and the grid. */
  const CanvasWidth: real := 720.0
  const CanvasHeight: real := 900.0
  const Cols: nat := 100
  const Rows: nat := 50

  /** The fisheye: largest and smallest cell weight, falloff exponent. */
  const SketchLens: Lens := Lens(100.0, 4.0, 10)

  /** How far the grid eases toward its targets per frame (lower is smoother). */
  const Easing: real := 0.07

  /** How far the smoothed landmarks move toward the raw ones per frame (lower is smoother). */
  const LerpRate: real := 0.2

  /**
   * The settings are ones the model's contracts hold for: a positive canvas
   * and grid, 0 < minSize <= maxSize, and rates in [0, 1].
   */
  lemma SettingsSound()
    ensures CanvasWidth > 0.0 && CanvasHeight > 0.0 && Cols > 0 && Rows > 0
    ensures 0.0 < SketchLens.minSize <= SketchLens.maxSize && SketchLens.falloff > 0
    ensures 0.0 <= Easing <= 1.0 && 0.0 <= LerpRate <= 1.0
    ensures IndexFingerTip < HandSize
  {
  }

  /** The sketch's state: the grid, the landmark stabiliser and the webcam. */
  class Engine {
    const grid: Grid
    const stabilizer: Stabilizer
    const video: Video

    /**
     * The grid is a partition of the canvas, the stabiliser's fields agree,
     * a smoothed hand has the tracker's 21 landmarks, and the webcam has
     * been scaled to cover the canvas.
     */
    ghost predicate Valid()
      reads this, grid, grid.colWidths, grid.rowHeights, stabilizer, video
    {
      grid.Valid() && stabilizer.Valid() &&
      grid.cols == Cols && grid.rows == Rows && grid.width == CanvasWidth && grid.height == CanvasHeight &&
      (stabilizer.lerpLandmarks.Some? ==> |stabilizer.lerpLandmarks.value| == HandSize) &&
      video.width > 0.0 && video.height > 0.0 &&
      Size(video.scaledWidth, video.scaledHeight) == CoverSize(video.width, video.height, CanvasWidth, CanvasHeight)
    }

    /**
     * `setup()` followed by the webcam's ready callback: a uniform grid, no
     * hand tracked yet, and the webcam of the given size scaled to cover
     * the canvas.
     */
    constructor (videoW: real, videoH: real)
      requires videoW > 0.0 && videoH > 0.0
      ensures Valid()
      ensures grid.colWidths[..] == Uniform(Cols, CanvasWidth) && grid.rowHeights[..] == Uniform(Rows, CanvasHeight)
      ensures stabilizer.lerpLandmarks.None?
      ensures video.width == videoW && video.height == videoH
    {
      var g := new Grid(Cols, Rows, CanvasWidth, CanvasHeight);
      var s := new Stabilizer();
      var v := new Video(videoW, videoH);
      v.SetCameraDimensions(CanvasWidth, CanvasHeight);
      grid, stabilizer, video := g, s, v;
    }

    /**
     * One frame of `draw()` for the tracker's hand, if one was detected.
     * With a hand to draw from (current or last known), the grid eases
     * toward the fisheye targets for the focal point of the index
     * fingertip and every cell is composited; with none, nothing moves and
     * nothing is drawn.
     */
    method Draw(raw: Option<seq<Point>>) returns (calls: seq<Blit>)
      requires Valid() && (raw.Some? ==> |raw.value| == HandSize)
      modifies stabilizer, grid.colWidths, grid.rowHeights
      ensures Valid()
      ensures stabilizer.lerpLandmarks == Step(old(stabilizer.lerpLandmarks), raw, LerpRate)
      ensures stabilizer.lerpLandmarks.None? ==>
        calls == [] && grid.colWidths[..] == old(grid.colWidths[..]) && grid.rowHeights[..] == old(grid.rowHeights[..])
      ensures stabilizer.lerpLandmarks.Some? ==>
        var focal := FocalPoint(stabilizer.lerpLandmarks.value[IndexFingerTip], video.scaledWidth, video.scaledHeight, CanvasWidth, CanvasHeight);
        grid.colWidths[..] == LerpAll(old(grid.colWidths[..]), Targets(Cols, CanvasWidth, focal.x, SketchLens), Easing) &&
        grid.rowHeights[..] == LerpAll(old(grid.rowHeights[..]), Targets(Rows, CanvasHeight, focal.y, SketchLens), Easing) &&
        calls == Frame(grid.colWidths[..], grid.rowHeights[..], Rows, video.width, video.height)
    {
      var drawn := stabilizer.Tick(raw, LerpRate);
      if drawn.Some? {
        var tip := drawn.value[IndexFingerTip];
        var focal := FocalPoint(tip, video.scaledWidth, video.scaledHeight, CanvasWidth, CanvasHeight);
        grid.Relayout(focal.x, focal.y, SketchLens, Easing);
        calls := Compose(grid.colWidths, grid.rowHeights, video.width, video.height);
      } else {
        calls := [];
      }
    }
  }

  /**
   * Whatever frames have been drawn, the cells of the next frame tile the
   * canvas: every point of it is covered by exactly one cell.
   */
  lemma FrameTilesCanvas(e: Engine, px: real, py: real) returns (r: nat, c: nat)
    requires e.Valid() && 0.0 <= px < CanvasWidth && 0.0 <= py < CanvasHeight
    ensures r < Rows && c < Cols
    ensures Inside(Cell(e.grid.colWidths[..], e.grid.rowHeights[..], r, c, e.video.width, e.video.height).dst, px, py)
    ensures forall r': nat, c': nat ::
      (r' < Rows && c' < Cols && Inside(Cell(e.grid.colWidths[..], e.grid.rowHeights[..], r', c', e.video.width, e.video.height).dst, px, py))
      ==> r' == r && c' == c
  {
    r, c := CellsTile(e.grid.colWidths[..], e.grid.rowHeights[..], CanvasWidth, CanvasHeight, e.video.width, e.video.height, px, py);
  }
}
