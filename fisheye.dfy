/**
 * The fisheye weight of one grid cell along one axis: the closer the cell's
 * centre is to the focal coordinate, the larger its weight, between the
 * lens's minimum and maximum size.
 */
module Fisheye {
  import opened Numeric

  /**
   * The lens settings: the largest and smallest cell weight and the falloff
   * exponent (the sketch uses 100, 4 and 10).
   */
  datatype Lens = Lens(maxSize: real, minSize: real, falloff: nat)

  /** The centre of cell c when an extent is cut into n equal cells. */
  function CellCenter(c: nat, n: nat, extent: real): (x: real)
    requires n > 0
    ensures c < n && extent > 0.0 ==> 0.0 < x < extent
  {
    CenterInside(c as real + 0.5, n as real, extent);
    (c as real + 0.5) * (extent / n as real)
  }

  /** A point k of the way along n equal cells, with 0 < k < n, lies strictly inside a positive extent. */
  lemma CenterInside(k: real, n: real, extent: real)
    requires n > 0.0
    ensures 0.0 < k < n && extent > 0.0 ==> 0.0 < k * (extent / n) < extent
  {
    if 0.0 < k < n && extent > 0.0 {
      var w := extent / n;
      DivPositive(extent, n);
      MulPositive(k, w);
      MulPositive(n - k, w);
      MulDivCancel(n, extent);
      assert (n - k) * w == n * w - k * w;
    }
  }

  /**
   * The distance from cell c's centre to the focal coordinate, in units of
   * half the extent (so 1 means "half the axis away").
   */
  function NormDistance(c: nat, n: nat, extent: real, focal: real): (d: real)
    requires n > 0 && extent != 0.0
    ensures extent > 0.0 ==> d >= 0.0
    ensures focal == CellCenter(c, n, extent) ==> d == 0.0
  {
    Abs(focal - CellCenter(c, n, extent)) / (extent / 2.0)
  }

  /** The unclamped weight maxSize * (1 - d)^falloff, with d clamped to [0, 1]. */
  function Falloff(normDist: real, lens: Lens): real
  {
    lens.maxSize * Pow(1.0 - Constrain(normDist, 0.0, 1.0), lens.falloff)
  }

  /**
   * The unclamped weight is maxSize at distance 0 (or less), and lies in
   * [0, maxSize] when maxSize is not negative.
   */
  lemma FalloffBounds(normDist: real, lens: Lens)
    ensures lens.maxSize >= 0.0 ==> 0.0 <= Falloff(normDist, lens) <= lens.maxSize
    ensures normDist <= 0.0 ==> Falloff(normDist, lens) == lens.maxSize
  {
    var base := 1.0 - Constrain(normDist, 0.0, 1.0);
    PowMonotone(base, 1.0, lens.falloff);
    ScaledFraction(lens.maxSize, Pow(base, lens.falloff), Falloff(normDist, lens));
  }

  /** A fraction x = m * p, with p in [0, 1], of a non-negative m lies in [0, m]. */
  lemma ScaledFraction(m: real, p: real, x: real)
    requires 0.0 <= p <= 1.0 && x == m * p
    ensures m >= 0.0 ==> 0.0 <= x <= m
  {
    if m >= 0.0 {
      MulMonotone(m, 0.0, p);
      MulMonotone(m, p, 1.0);
    }
  }

  /** Multiples x1 = m * p1 and x2 = m * p2 of a non-negative m keep the order of p1 and p2. */
  lemma ScaledOrder(m: real, p1: real, p2: real, x1: real, x2: real)
    requires m >= 0.0 && p2 <= p1 && x1 == m * p1 && x2 == m * p2
    ensures x2 <= x1
  {
    MulMonotone(m, p2, p1);
  }

  /** The unclamped weight never increases with distance when maxSize is not negative. */
  lemma FalloffMonotone(d1: real, d2: real, lens: Lens)
    requires d1 <= d2 && lens.maxSize >= 0.0
    ensures Falloff(d2, lens) <= Falloff(d1, lens)
  {
    var c1, c2 := Constrain(d1, 0.0, 1.0), Constrain(d2, 0.0, 1.0);
    ConstrainMonotone(d1, d2, 0.0, 1.0);
    PowMonotone(1.0 - c2, 1.0 - c1, lens.falloff);
    ScaledOrder(lens.maxSize, Pow(1.0 - c1, lens.falloff), Pow(1.0 - c2, lens.falloff), Falloff(d1, lens), Falloff(d2, lens));
  }

  /**
   * The weight for a normalised distance: the distance is clamped to [0, 1],
   * the weight is maxSize * (1 - d)^falloff, clamped to [minSize, maxSize].
   */
  function Weight(normDist: real, lens: Lens): (w: real)
    ensures lens.minSize <= w
    ensures lens.minSize <= lens.maxSize ==> w <= lens.maxSize
    ensures normDist <= 0.0 && lens.minSize <= lens.maxSize ==> w == lens.maxSize
    ensures normDist >= 1.0 && lens.falloff > 0 && 0.0 <= lens.minSize ==> w == lens.minSize
  {
    Constrain(Falloff(normDist, lens), lens.minSize, lens.maxSize)
  }

  /** Weights never increase with distance when the maximum size is not negative. */
  lemma WeightMonotone(d1: real, d2: real, lens: Lens)
    requires d1 <= d2 && lens.maxSize >= 0.0
    ensures Weight(d2, lens) <= Weight(d1, lens)
  {
    FalloffMonotone(d1, d2, lens);
    ConstrainMonotone(Falloff(d2, lens), Falloff(d1, lens), lens.minSize, lens.maxSize);
  }

  /** The weights of all n cells of an axis for one focal coordinate. */
  function Weights(n: nat, extent: real, focal: real, lens: Lens): (w: seq<real>)
    requires n > 0 && extent != 0.0
    ensures |w| == n
    ensures forall i :: 0 <= i < n ==> w[i] >= lens.minSize
  {
    seq(n, c requires 0 <= c < n => Weight(NormDistance(c, n, extent, focal), lens))
  }

  /** The weights sum to at least n * minSize. */
  lemma TotalWeightBound(n: nat, extent: real, focal: real, lens: Lens)
    requires n > 0 && extent != 0.0
    ensures Sum(Weights(n, extent, focal, lens)) >= (n as real) * lens.minSize
  {
    SumAtLeast(Weights(n, extent, focal, lens), n, lens.minSize);
  }

  /** With a positive minimum size the total the sketch divides by is never zero. */
  lemma TotalWeightPositive(n: nat, extent: real, focal: real, lens: Lens)
    requires n > 0 && extent != 0.0 && lens.minSize > 0.0
    ensures Sum(Weights(n, extent, focal, lens)) > 0.0
  {
    SumAtLeast(Weights(n, extent, focal, lens), n, lens.minSize);
  }
}
