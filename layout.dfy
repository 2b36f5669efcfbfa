/**
 * The grid distortion engine: the column widths and row heights of the
 * fisheye grid, kept as a partition of the canvas width and height, and the
 * per-frame step that recomputes each axis's target sizes from the focal
 * point and eases the current sizes toward them.
 */
module Layout {
  import opened Numeric
  import opened Fisheye

  /** Sizes that are all positive and add up to the axis extent. */
  predicate Partition(s: seq<real>, extent: real)
  {
    (forall i :: 0 <= i < |s| ==> s[i] > 0.0) && Sum(s) == extent
  }

  /** The sizes `setup()` starts from: every cell extent / n. */
  function Uniform(n: nat, extent: real): (u: seq<real>)
    requires n > 0
    ensures |u| == n
    ensures forall i :: 0 <= i < n ==> u[i] * n as real == extent
  {
    MulDivCancel(n as real, extent);
    seq(n, _ => extent / n as real)
  }

  /** The uniform start is a partition of the extent. */
  lemma UniformPartition(n: nat, extent: real)
    requires n > 0 && extent > 0.0
    ensures Partition(Uniform(n, extent), extent)
  {
    SumConstant(n, extent / n as real);
  }

  /** Weights rescaled so that they add up to the extent. */
  function Normalize(w: seq<real>, extent: real): (t: seq<real>)
    requires Sum(w) != 0.0
    ensures |t| == |w|
  {
    Scaled(w, extent / Sum(w))
  }

  /** A total rescaled by extent / total is the extent. */
  lemma RescaledTotal(total: real, extent: real, rescaled: real)
    requires total != 0.0 && rescaled == (extent / total) * total
    ensures rescaled == extent
  {
  }

  /** Normalised weights add up to exactly the extent. */
  lemma NormalizeSum(w: seq<real>, extent: real)
    requires Sum(w) != 0.0
    ensures Sum(Normalize(w, extent)) == extent
  {
    var scale := extent / Sum(w);
    SumScaled(w, scale);
    RescaledTotal(Sum(w), extent, Sum(Scaled(w, scale)));
  }

  /** Positive weights with a positive total stay positive when normalised to a positive extent. */
  lemma NormalizePositive(w: seq<real>, extent: real)
    requires Sum(w) > 0.0 && extent > 0.0
    requires forall i :: 0 <= i < |w| ==> w[i] > 0.0
    ensures forall i :: 0 <= i < |w| ==> Normalize(w, extent)[i] > 0.0
  {
    var scale := extent / Sum(w);
    DivPositive(extent, Sum(w));
    forall i | 0 <= i < |w|
      ensures Scaled(w, scale)[i] > 0.0
    {
      MulPositive(w[i], scale);
    }
  }

  /** Positive weights normalise to a partition of a positive extent. */
  lemma NormalizePartition(w: seq<real>, extent: real)
    requires |w| > 0 && extent > 0.0
    requires forall i :: 0 <= i < |w| ==> w[i] > 0.0
    ensures Sum(w) > 0.0
    ensures Partition(Normalize(w, extent), extent)
  {
    SumPositive(w);
    NormalizePositive(w, extent);
    NormalizeSum(w, extent);
  }

  /** Normalising positive weights keeps their order. */
  lemma NormalizeOrder(w: seq<real>, extent: real, i: nat, j: nat)
    requires extent > 0.0 && Sum(w) > 0.0 && i < |w| && j < |w| && w[i] <= w[j]
    ensures Normalize(w, extent)[i] <= Normalize(w, extent)[j]
  {
    var scale := extent / Sum(w);
    DivPositive(extent, Sum(w));
    MulMonotone(scale, w[i], w[j]);
  }

  /** A single weight normalises to the whole extent. */
  lemma NormalizeSingle(w: seq<real>, extent: real)
    requires |w| == 1 && w[0] != 0.0
    ensures Sum(w) == w[0]
    ensures Normalize(w, extent) == [extent]
  {
    assert w[..0] == [];
    MulDivCancel(w[0], extent);
  }

  /**
   * The target sizes of one frame: every cell's fisheye weight, rescaled by
   * extent / (sum of the weights).
   */
  function Targets(n: nat, extent: real, focal: real, lens: Lens): (t: seq<real>)
    requires n > 0 && extent != 0.0 && lens.minSize > 0.0
    ensures |t| == n
  {
    TotalWeightPositive(n, extent, focal, lens);
    Normalize(Weights(n, extent, focal, lens), extent)
  }

  /**
   * The targets sum to exactly the extent, whatever the focal point, and on
   * a positive extent every target is positive.
   */
  lemma TargetsPartition(n: nat, extent: real, focal: real, lens: Lens)
    requires n > 0 && extent > 0.0 && lens.minSize > 0.0
    ensures Partition(Targets(n, extent, focal, lens), extent)
  {
    var w := Weights(n, extent, focal, lens);
    assert forall i :: 0 <= i < n ==> w[i] >= lens.minSize;
    NormalizePartition(w, extent);
  }

  /**
   * A cell whose centre is no further from the focal point than another
   * cell's gets at least as large a target.
   */
  lemma TargetsOrder(n: nat, extent: real, focal: real, lens: Lens, i: nat, j: nat)
    requires n > 0 && extent > 0.0 && lens.minSize > 0.0 && lens.maxSize >= 0.0 && i < n && j < n
    requires NormDistance(i, n, extent, focal) <= NormDistance(j, n, extent, focal)
    ensures Targets(n, extent, focal, lens)[j] <= Targets(n, extent, focal, lens)[i]
  {
    WeightMonotone(NormDistance(i, n, extent, focal), NormDistance(j, n, extent, focal), lens);
    TotalWeightPositive(n, extent, focal, lens);
    NormalizeOrder(Weights(n, extent, focal, lens), extent, j, i);
  }

  /** A one-cell axis always targets the whole extent, wherever the focal point is. */
  lemma SingleCellTarget(extent: real, focal: real, lens: Lens)
    requires extent != 0.0 && lens.minSize > 0.0
    ensures Targets(1, extent, focal, lens) == [extent]
  {
    var w := Weights(1, extent, focal, lens);
    assert w[0] >= lens.minSize;
    NormalizeSingle(w, extent);
  }

  /**
   * One easing step keeps a partition a partition when the targets are one:
   * lerp is linear, so the sum stays the extent, and every new size lies
   * between its old value and its target, so it stays positive.
   */
  lemma EasePreservesPartition(sizes: seq<real>, targets: seq<real>, easing: real, extent: real)
    requires |sizes| == |targets| && 0.0 <= easing <= 1.0
    requires Partition(sizes, extent) && Partition(targets, extent)
    ensures Partition(LerpAll(sizes, targets, easing), extent)
  {
    SumLerpAll(sizes, targets, easing);
    forall i | 0 <= i < |sizes|
      ensures LerpAll(sizes, targets, easing)[i] > 0.0
    {
      LerpBetween(sizes[i], targets[i], easing);
    }
  }

  /** An axis already at its targets stays there: easing does not oscillate. */
  lemma TargetsAreFixed(targets: seq<real>, easing: real)
    ensures LerpAll(targets, targets, easing) == targets
  {
  }

  /**
   * The first half of one axis's share of a frame: each cell's weight,
   * accumulated in order, and their running total.
   */
  method AxisWeights(n: nat, extent: real, focal: real, lens: Lens) returns (weights: seq<real>, total: real)
    requires n > 0 && extent != 0.0
    ensures weights == Weights(n, extent, focal, lens)
    ensures total == Sum(weights)
  {
    weights, total := [], 0.0;
    var c := 0;
    while c < n
      invariant 0 <= c <= n
      invariant weights == Weights(n, extent, focal, lens)[..c]
      invariant total == Sum(weights)
    {
      var normDist := NormDistance(c, n, extent, focal);
      var weight := Weight(normDist, lens);
      PrefixSumStep(Weights(n, extent, focal, lens), c);
      assert weights + [weight] == Weights(n, extent, focal, lens)[..c + 1];
      weights := weights + [weight];
      total := total + weight;
      c := c + 1;
    }
  }

  /** The targets are the accumulated weights, each multiplied by extent / total. */
  lemma TargetsFromWeights(n: nat, extent: real, focal: real, lens: Lens, weights: seq<real>, total: real)
    requires n > 0 && extent != 0.0 && lens.minSize > 0.0
    requires weights == Weights(n, extent, focal, lens) && total == Sum(weights)
    ensures total > 0.0
    ensures Targets(n, extent, focal, lens) == Scaled(weights, extent / total)
  {
    TotalWeightPositive(n, extent, focal, lens);
  }

  /**
   * One axis's share of a frame: accumulate each cell's weight and their
   * total, rescale so the targets sum to the extent, and ease every size
   * toward its target.
   */
  method EaseAxis(sizes: array<real>, extent: real, focal: real, lens: Lens, easing: real)
    requires sizes.Length > 0 && extent != 0.0 && lens.minSize > 0.0
    modifies sizes
    ensures sizes[..] == LerpAll(old(sizes[..]), Targets(sizes.Length, extent, focal, lens), easing)
  {
    var n := sizes.Length;
    var weights, total := AxisWeights(n, extent, focal, lens);
    TargetsFromWeights(n, extent, focal, lens, weights, total);
    var scale := extent / total;
    ghost var targets := Scaled(weights, scale);
    var c := 0;
    while c < n
      invariant 0 <= c <= n
      invariant forall i :: 0 <= i < c ==> sizes[i] == Lerp(old(sizes[i]), targets[i], easing)
      invariant forall i :: c <= i < n ==> sizes[i] == old(sizes[i])
    {
      var target := weights[c] * scale;
      ScaledAt(weights, scale, c);
      sizes[c] := Lerp(sizes[c], target, easing);
      c := c + 1;
    }
    assert forall i :: 0 <= i < n ==> sizes[..][i] == LerpAll(old(sizes[..]), targets, easing)[i];
  }

  /** A fresh array holding the uniform sizes, filled cell by cell as `setup()` does. */
  method UniformArray(n: nat, extent: real) returns (a: array<real>)
    requires n > 0
    ensures fresh(a) && a[..] == Uniform(n, extent)
  {
    a := new real[n];
    for i := 0 to n
      invariant forall j :: 0 <= j < i ==> a[j] == extent / n as real
    {
      a[i] := extent / n as real;
    }
    assert forall j :: 0 <= j < n ==> a[..][j] == Uniform(n, extent)[j];
  }

  /** The two axes of the fisheye grid, owned by the sketch for its whole run. */
  class Grid {
    const cols: nat
    const rows: nat
    const width: real
    const height: real
    const colWidths: array<real>
    const rowHeights: array<real>

    /** Both axes are partitions of the canvas: positive sizes that fill it. */
    ghost predicate Valid()
      reads this, colWidths, rowHeights
    {
      cols > 0 && rows > 0 && width > 0.0 && height > 0.0 &&
      colWidths != rowHeights &&
      colWidths.Length == cols && rowHeights.Length == rows &&
      Partition(colWidths[..], width) && Partition(rowHeights[..], height)
    }

    /** `setup()`: every column width / cols wide, every row height / rows high. */
    constructor (cols: nat, rows: nat, width: real, height: real)
      requires cols > 0 && rows > 0 && width > 0.0 && height > 0.0
      ensures Valid() && fresh(colWidths) && fresh(rowHeights)
      ensures this.cols == cols && this.rows == rows && this.width == width && this.height == height
      ensures colWidths[..] == Uniform(cols, width) && rowHeights[..] == Uniform(rows, height)
    {
      var cw := UniformArray(cols, width);
      var rh := UniformArray(rows, height);
      this.cols, this.rows, this.width, this.height := cols, rows, width, height;
      colWidths, rowHeights := cw, rh;
      new;
      UniformPartition(cols, width);
      UniformPartition(rows, height);
    }

    /**
     * The layout part of `draw()` for a focal point on the canvas: columns
     * ease toward the targets for its x coordinate, rows toward those for its
     * y coordinate, and both axes still fill the canvas afterwards.
     */
    method Relayout(focalX: real, focalY: real, lens: Lens, easing: real)
      requires Valid() && lens.minSize > 0.0 && 0.0 <= easing <= 1.0
      modifies colWidths, rowHeights
      ensures Valid()
      ensures colWidths[..] == LerpAll(old(colWidths[..]), Targets(cols, width, focalX, lens), easing)
      ensures rowHeights[..] == LerpAll(old(rowHeights[..]), Targets(rows, height, focalY, lens), easing)
    {
      EaseAxis(colWidths, width, focalX, lens, easing);
      EaseAxis(rowHeights, height, focalY, lens, easing);
      TargetsPartition(cols, width, focalX, lens);
      TargetsPartition(rows, height, focalY, lens);
      EasePreservesPartition(old(colWidths[..]), Targets(cols, width, focalX, lens), easing, width);
      EasePreservesPartition(old(rowHeights[..]), Targets(rows, height, focalY, lens), easing, height);
    }
  }
}
