/**
 * The landmark stabiliser: the hand the sketch draws from is a smoothed
 * copy of the tracker's raw landmarks. The first detection is adopted as
 * is, every later detection pulls each landmark part of the way toward the
 * raw one, and while no hand is detected the last smoothed hand is kept.
 */
module Tracking {
  import opened Numeric

  datatype Option<T> = None | Some(value: T)

  /** A landmark in normalised video coordinates (0 to 1 across the frame). */
  datatype Point = Point(x: real, y: real)

  /** The hand tracker reports 21 landmarks per hand. */
  const HandSize: nat := 21

  /** The landmark the focal point follows: the tip of the index finger. */
  const IndexFingerTip: nat := 8

  /** `lerp` on both coordinates of a landmark. */
  function LerpPoint(p: Point, q: Point, rate: real): (r: Point)
    ensures r.x - q.x == (1.0 - rate) * (p.x - q.x)
    ensures r.y - q.y == (1.0 - rate) * (p.y - q.y)
  {
    Point(Lerp(p.x, q.x, rate), Lerp(p.y, q.y, rate))
  }

  /**
   * The smoothing loop: landmark i of the smoothed hand moves toward raw
   * landmark i for every index of the raw hand; landmarks past the raw
   * hand's end keep their value.
   */
  function SmoothHand(prev: seq<Point>, raw: seq<Point>, rate: real): (h: seq<Point>)
    requires |raw| <= |prev|
    ensures |h| == |prev|
  {
    seq(|prev|, i requires 0 <= i < |prev| => if i < |raw| then LerpPoint(prev[i], raw[i], rate) else prev[i])
  }

  /** The smoothing loop only runs when the smoothed hand has a landmark for every raw one. */
  predicate Fits(smoothed: Option<seq<Point>>, raw: Option<seq<Point>>)
  {
    raw.Some? && smoothed.Some? ==> |raw.value| <= |smoothed.value|
  }

  /**
   * One frame of the stabiliser, on the hand it draws from (`None` while no
   * hand has ever been seen). A detection seen for the first time is cloned
   * and then smoothed toward itself, which leaves it as it is.
   */
  function Step(smoothed: Option<seq<Point>>, raw: Option<seq<Point>>, rate: real): (r: Option<seq<Point>>)
    requires Fits(smoothed, raw)
    ensures raw.None? ==> r == smoothed
    ensures raw.Some? ==> r.Some?
    ensures raw.Some? && smoothed.None? ==> r == raw
    ensures raw.Some? && smoothed.Some? ==> |r.value| == |smoothed.value|
  {
    match raw
    case None => smoothed
    case Some(landmarks) =>
      var base := if smoothed.Some? then smoothed.value else landmarks;
      SmoothSelf(landmarks, rate);
      Some(SmoothHand(base, landmarks, rate))
  }

  /** Smoothing a hand toward itself leaves it as it is: `lerp(a, a, t) == a`. */
  lemma SmoothSelf(hand: seq<Point>, rate: real)
    ensures SmoothHand(hand, hand, rate) == hand
  {
    assert forall i :: 0 <= i < |hand| ==> SmoothHand(hand, hand, rate)[i] == hand[i];
  }

  /**
   * With a rate in [0, 1] a smoothed landmark moves toward its raw landmark
   * and never past it, on each coordinate; landmarks the raw hand does not
   * reach are not touched.
   */
  lemma SmoothTowardRaw(prev: seq<Point>, raw: seq<Point>, rate: real, i: nat)
    requires |raw| <= |prev| && i < |prev| && 0.0 <= rate <= 1.0
    ensures i < |raw| ==> Abs(SmoothHand(prev, raw, rate)[i].x - raw[i].x) <= Abs(prev[i].x - raw[i].x)
    ensures i < |raw| ==> Abs(SmoothHand(prev, raw, rate)[i].y - raw[i].y) <= Abs(prev[i].y - raw[i].y)
    ensures i >= |raw| ==> SmoothHand(prev, raw, rate)[i] == prev[i]
  {
    if i < |raw| {
      LerpContracts(prev[i].x, raw[i].x, rate);
      LerpContracts(prev[i].y, raw[i].y, rate);
    }
  }

  /** Every detection in a run of frames has n landmarks, and so has the starting hand. */
  predicate Sized(smoothed: Option<seq<Point>>, ticks: seq<Option<seq<Point>>>, n: nat)
  {
    (smoothed.Some? ==> |smoothed.value| == n) &&
    forall i :: 0 <= i < |ticks| && ticks[i].Some? ==> |ticks[i].value| == n
  }

  /** Whether any frame of a run detected a hand. */
  predicate AnyDetection(ticks: seq<Option<seq<Point>>>)
  {
    exists i :: 0 <= i < |ticks| && ticks[i].Some?
  }

  /**
   * The stabiliser over a run of frames, the last frame applied last. There
   * is a hand to draw from exactly when there was one at the start or some
   * frame detected one.
   */
  function Run(smoothed: Option<seq<Point>>, ticks: seq<Option<seq<Point>>>, rate: real, n: nat): (r: Option<seq<Point>>)
    requires Sized(smoothed, ticks, n)
    ensures r.Some? ==> |r.value| == n
    ensures r.Some? <==> smoothed.Some? || AnyDetection(ticks)
    decreases |ticks|
  {
    if ticks == [] then smoothed
    else
      var earlier := ticks[..|ticks| - 1];
      assert forall i :: 0 <= i < |earlier| ==> earlier[i] == ticks[i];
      var last := |ticks| - 1;
      assert AnyDetection(ticks) <==> AnyDetection(earlier) || ticks[last].Some?;
      Step(Run(smoothed, earlier, rate, n), ticks[last], rate)
  }

  /** Frames without a detection leave the hand as the last detection made it. */
  lemma {:induction false} HoldWhileLost(smoothed: Option<seq<Point>>, ticks: seq<Option<seq<Point>>>, misses: seq<Option<seq<Point>>>, rate: real, n: nat)
    requires Sized(smoothed, ticks + misses, n)
    requires forall i :: 0 <= i < |misses| ==> misses[i].None?
    ensures Sized(smoothed, ticks, n)
    ensures Run(smoothed, ticks + misses, rate, n) == Run(smoothed, ticks, rate, n)
    decreases |misses|
  {
    var all := ticks + misses;
    assert forall i :: 0 <= i < |ticks| ==> all[i] == ticks[i];
    if misses == [] {
      assert all == ticks;
    } else {
      var shorter := misses[..|misses| - 1];
      assert all[..|all| - 1] == ticks + shorter;
      HoldWhileLost(smoothed, ticks, shorter, rate, n);
      assert Run(smoothed, all, rate, n) == Step(Run(smoothed, ticks + shorter, rate, n), all[|all| - 1], rate);
    }
  }

  /** `k` frames that all see the same detection. */
  function Repeat(raw: Option<seq<Point>>, k: nat): (ticks: seq<Option<seq<Point>>>)
    ensures |ticks| == k
  {
    seq(k, _ => raw)
  }

  /** Every landmark after k frames of smoothing toward the same raw hand. */
  function ApproachHand(start: seq<Point>, raw: seq<Point>, rate: real, k: nat): (h: seq<Point>)
    requires |raw| == |start|
    ensures |h| == |start|
  {
    seq(|start|, i requires 0 <= i < |start| =>
      Point(Approach(start[i].x, raw[i].x, rate, k), Approach(start[i].y, raw[i].y, rate, k)))
  }

  /**
   * While the hand holds still, every smoothed landmark approaches the raw
   * one coordinate by coordinate exactly as a single repeated `lerp` does,
   * so its distance shrinks by the factor (1 - rate) per frame.
   */
  lemma {:induction false} StillHandConverges(start: seq<Point>, raw: seq<Point>, rate: real, k: nat)
    requires |raw| == |start|
    ensures Sized(Some(start), Repeat(Some(raw), k), |start|)
    ensures Run(Some(start), Repeat(Some(raw), k), rate, |start|) == Some(ApproachHand(start, raw, rate, k))
  {
    var ticks := Repeat(Some(raw), k);
    if k == 0 {
      assert forall i :: 0 <= i < |start| ==> ApproachHand(start, raw, rate, 0)[i] == start[i];
      assert ApproachHand(start, raw, rate, 0) == start;
      assert ticks == [];
    } else {
      assert ticks[..k - 1] == Repeat(Some(raw), k - 1);
      StillHandConverges(start, raw, rate, k - 1);
      var before := ApproachHand(start, raw, rate, k - 1);
      assert Run(Some(start), ticks, rate, |start|) == Step(Some(before), Some(raw), rate);
      assert forall i :: 0 <= i < |start| ==> SmoothHand(before, raw, rate)[i] == ApproachHand(start, raw, rate, k)[i];
      assert SmoothHand(before, raw, rate) == ApproachHand(start, raw, rate, k);
    }
  }

  /**
   * The stabiliser's state across frames. `madeClone` records whether the
   * first detection has been cloned; `lerpLandmarks` is the hand drawn from
   * and `lastKnown` the copy kept for frames without a detection.
   */
  class Stabilizer {
    var madeClone: bool
    var lerpLandmarks: Option<seq<Point>>
    var lastKnown: Option<seq<Point>>

    /** The clone flag is set exactly when there is a smoothed hand, and the fallback copy equals it. */
    ghost predicate Valid()
      reads this
    {
      (madeClone <==> lerpLandmarks.Some?) && lastKnown == lerpLandmarks
    }

    /** Nothing tracked yet. */
    constructor ()
      ensures Valid() && lerpLandmarks.None?
    {
      madeClone := false;
      lerpLandmarks := None;
      lastKnown := None;
    }

    /**
     * The tracking part of `draw()`: clone the first detection, smooth the
     * hand toward every detection landmark by landmark, keep a copy as the
     * last known hand, and fall back to that copy when nothing is detected.
     * Returns the hand to draw from, if any.
     */
    method Tick(raw: Option<seq<Point>>, lerpRate: real) returns (drawn: Option<seq<Point>>)
      requires Valid() && Fits(lerpLandmarks, raw)
      modifies this
      ensures Valid()
      ensures lerpLandmarks == Step(old(lerpLandmarks), raw, lerpRate)
      ensures drawn == lerpLandmarks
    {
      if raw.Some? {
        var landmarks := raw.value;
        if !madeClone {
          lerpLandmarks := Some(landmarks);
          madeClone := true;
        }
        var hand := lerpLandmarks.value;
        ghost var base := hand;
        var i := 0;
        while i < |landmarks|
          invariant 0 <= i <= |landmarks|
          invariant |hand| == |base|
          invariant forall j :: 0 <= j < |hand| ==> hand[j] == (if j < i then LerpPoint(base[j], landmarks[j], lerpRate) else base[j])
        {
          hand := hand[i := Point(Lerp(hand[i].x, landmarks[i].x, lerpRate), Lerp(hand[i].y, landmarks[i].y, lerpRate))];
          i := i + 1;
        }
        assert forall j :: 0 <= j < |hand| ==> hand[j] == SmoothHand(base, landmarks, lerpRate)[j];
        assert hand == SmoothHand(base, landmarks, lerpRate);
        SmoothSelf(landmarks, lerpRate);
        assert Step(old(lerpLandmarks), raw, lerpRate) == Some(hand);
        lerpLandmarks := Some(hand);
        lastKnown := lerpLandmarks;
      } else if lastKnown.Some? {
        lerpLandmarks := lastKnown;
      }
      drawn := lerpLandmarks;
    }
  }
}
