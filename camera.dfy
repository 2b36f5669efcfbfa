/**
 * The webcam picture on the canvas: the "cover" scaling that fits the video
 * to the canvas without letterboxing, and the mapping of the index
 * fingertip from normalised video coordinates to the canvas, mirrored
 * horizontally and centred like the scaled video.
 */
module Camera {
  import opened Numeric
  import opened Tracking

  /** A width and a height. */
  datatype Size = Size(w: real, h: real)

  /**
   * `setCameraDimensions`: a video wider than the canvas (by aspect ratio)
   * is scaled to the canvas height, any other video to the canvas width,
   * keeping the video's aspect ratio in both cases.
   */
  function CoverSize(videoW: real, videoH: real, canvasW: real, canvasH: real): (s: Size)
    requires videoW > 0.0 && videoH > 0.0 && canvasW > 0.0 && canvasH > 0.0
    ensures videoW / videoH > canvasW / canvasH ==> s.h == canvasH
    ensures videoW / videoH <= canvasW / canvasH ==> s.w == canvasW
  {
    var vidAspectRatio := videoW / videoH;
    var canvasAspectRatio := canvasW / canvasH;
    if vidAspectRatio > canvasAspectRatio then
      Size(canvasH * vidAspectRatio, canvasH)
    else
      Size(canvasW, canvasW / vidAspectRatio)
  }

  /** The scaled video keeps the video's aspect ratio. */
  lemma CoverKeepsAspect(videoW: real, videoH: real, canvasW: real, canvasH: real)
    requires videoW > 0.0 && videoH > 0.0 && canvasW > 0.0 && canvasH > 0.0
    ensures CoverSize(videoW, videoH, canvasW, canvasH).w * videoH == CoverSize(videoW, videoH, canvasW, canvasH).h * videoW
  {
    var ratio := videoW / videoH;
    MulDivCancel(videoH, videoW);
    MulDivCancel(ratio, canvasW);
  }

  /**
   * The scaled video covers the canvas: it is at least as wide and at
   * least as high, and it matches the canvas exactly on one side.
   */
  lemma CoverCoversCanvas(videoW: real, videoH: real, canvasW: real, canvasH: real)
    requires videoW > 0.0 && videoH > 0.0 && canvasW > 0.0 && canvasH > 0.0
    ensures CoverSize(videoW, videoH, canvasW, canvasH).w >= canvasW
    ensures CoverSize(videoW, videoH, canvasW, canvasH).h >= canvasH
    ensures CoverSize(videoW, videoH, canvasW, canvasH).w == canvasW || CoverSize(videoW, videoH, canvasW, canvasH).h == canvasH
  {
    var ratio := videoW / videoH;
    var canvasRatio := canvasW / canvasH;
    DivPositive(videoW, videoH);
    MulDivCancel(canvasH, canvasW);
    if ratio > canvasRatio {
      MulMonotone(canvasH, canvasRatio, ratio);
    } else {
      MulDivCancel(ratio, canvasW);
      MulMonotone(canvasW / ratio, ratio, canvasRatio);
      MulDivCancel(canvasRatio, canvasW);
      assert canvasW / ratio * canvasRatio >= canvasW;
      assert canvasW / canvasRatio == canvasH;
      ScaleBack(canvasW / ratio, canvasRatio, canvasW);
    }
  }

  /** Dividing both sides of x * k >= z by a positive k. */
  lemma ScaleBack(x: real, k: real, z: real)
    requires k > 0.0 && x * k >= z
    ensures x >= z / k
  {
    assert x - z / k == (x * k - z) / k;
  }

  /** The webcam: its native size and the size `setCameraDimensions` scales it to. */
  class Video {
    const width: real
    const height: real
    var scaledWidth: real
    var scaledHeight: real

    /** A video of known size, not yet scaled. */
    constructor (width: real, height: real)
      ensures this.width == width && this.height == height
      ensures scaledWidth == 0.0 && scaledHeight == 0.0
    {
      this.width, this.height := width, height;
      scaledWidth, scaledHeight := 0.0, 0.0;
    }

    /** `setCameraDimensions(video)` for a canvas of the given size. */
    method SetCameraDimensions(canvasW: real, canvasH: real)
      requires width > 0.0 && height > 0.0 && canvasW > 0.0 && canvasH > 0.0
      modifies this
      ensures Size(scaledWidth, scaledHeight) == CoverSize(width, height, canvasW, canvasH)
    {
      var vidAspectRatio := width / height;
      var canvasAspectRatio := canvasW / canvasH;
      if vidAspectRatio > canvasAspectRatio {
        scaledHeight := canvasH;
        scaledWidth := scaledHeight * vidAspectRatio;
      } else {
        scaledWidth := canvasW;
        scaledHeight := scaledWidth / vidAspectRatio;
      }
    }
  }

  /**
   * The focal point for a landmark: mapped from [0, 1] onto the scaled
   * video, mirrored horizontally, and offset so the scaled video is centred
   * on the canvas.
   */
  function FocalPoint(landmark: Point, scaledW: real, scaledH: real, canvasW: real, canvasH: real): (p: Point)
    ensures p.x == canvasW / 2.0 + scaledW / 2.0 - landmark.x * scaledW
    ensures p.y == canvasH / 2.0 - scaledH / 2.0 + landmark.y * scaledH
  {
    MapUnit(landmark.x, scaledW);
    MapUnit(landmark.y, scaledH);
    var indexX := MapRange(landmark.x, 0.0, 1.0, 0.0, scaledW);
    var indexY := MapRange(landmark.y, 0.0, 1.0, 0.0, scaledH);
    var mirroredX := scaledW - indexX;
    Point(mirroredX + (canvasW / 2.0 - scaledW / 2.0), indexY + (canvasH / 2.0 - scaledH / 2.0))
  }

  /**
   * Landmark x 0 lands on the right edge of the centred scaled video and
   * x 1 on its left edge; landmark y 0 lands on its top and y 1 on its
   * bottom.
   */
  lemma FocalEdges(scaledW: real, scaledH: real, canvasW: real, canvasH: real)
    ensures FocalPoint(Point(0.0, 0.0), scaledW, scaledH, canvasW, canvasH) == Point(canvasW / 2.0 + scaledW / 2.0, canvasH / 2.0 - scaledH / 2.0)
    ensures FocalPoint(Point(1.0, 1.0), scaledW, scaledH, canvasW, canvasH) == Point(canvasW / 2.0 - scaledW / 2.0, canvasH / 2.0 + scaledH / 2.0)
  {
  }

  /**
   * The mapping mirrors: landmarks mirrored about the middle of the video
   * land at points mirrored about the middle of the canvas, and a landmark
   * in the middle of the video lands in the middle of the canvas.
   */
  lemma FocalMirror(x: real, y: real, scaledW: real, scaledH: real, canvasW: real, canvasH: real)
    ensures FocalPoint(Point(1.0 - x, y), scaledW, scaledH, canvasW, canvasH).x
         == canvasW - FocalPoint(Point(x, y), scaledW, scaledH, canvasW, canvasH).x
    ensures FocalPoint(Point(0.5, 0.5), scaledW, scaledH, canvasW, canvasH) == Point(canvasW / 2.0, canvasH / 2.0)
  {
  }

  /**
   * Moving the fingertip right in the video moves the focal point left on
   * the canvas, and moving it down moves the focal point down.
   */
  lemma FocalOrientation(a: Point, b: Point, scaledW: real, scaledH: real, canvasW: real, canvasH: real)
    requires scaledW >= 0.0 && scaledH >= 0.0 && a.x <= b.x && a.y <= b.y
    ensures FocalPoint(b, scaledW, scaledH, canvasW, canvasH).x <= FocalPoint(a, scaledW, scaledH, canvasW, canvasH).x
    ensures FocalPoint(a, scaledW, scaledH, canvasW, canvasH).y <= FocalPoint(b, scaledW, scaledH, canvasW, canvasH).y
  {
    MulMonotone(scaledW, a.x, b.x);
    MulMonotone(scaledH, a.y, b.y);
  }

  /**
   * A landmark inside the video frame gives a focal point inside the scaled
   * video as it is centred on the canvas.
   */
  lemma FocalWithinVideo(landmark: Point, scaledW: real, scaledH: real, canvasW: real, canvasH: real)
    requires 0.0 <= landmark.x <= 1.0 && 0.0 <= landmark.y <= 1.0 && scaledW >= 0.0 && scaledH >= 0.0
    ensures canvasW / 2.0 - scaledW / 2.0 <= FocalPoint(landmark, scaledW, scaledH, canvasW, canvasH).x <= canvasW / 2.0 + scaledW / 2.0
    ensures canvasH / 2.0 - scaledH / 2.0 <= FocalPoint(landmark, scaledW, scaledH, canvasW, canvasH).y <= canvasH / 2.0 + scaledH / 2.0
  {
    FocalOrientation(Point(0.0, 0.0), landmark, scaledW, scaledH, canvasW, canvasH);
    FocalOrientation(landmark, Point(1.0, 1.0), scaledW, scaledH, canvasW, canvasH);
  }
}
