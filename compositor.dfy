/**
 * The compositor: each frame the canvas is cut into the grid's cells, and
 * every cell shows the matching slice of the webcam picture, taken from the
 * mirrored column so that the picture reads like a mirror.
 */
module Compositor {
  import opened Numeric
  import opened Layout

  /** A rectangle: its top-left corner, width and height. */
  datatype Rect = Rect(x: real, y: real, w: real, h: real)

  /** One `image(capture, dx, dy, dWidth, dHeight, sx, sy, sWidth, sHeight)` call. */
  datatype Blit = Blit(dst: Rect, src: Rect)

  /** The webcam column shown in canvas column c: counted from the other end. */
  function SourceColumn(c: nat, cols: nat): (s: nat)
    requires c < cols
    ensures s < cols && c + s == cols - 1
  {
    cols - 1 - c
  }

  /**
   * The mirror is a bijection on the columns that swaps the two ends:
   * mirroring twice gives the column back, and two canvas columns never
   * show the same webcam column.
   */
  lemma MirrorBijection(cols: nat, c: nat, d: nat)
    requires c < cols && d < cols
    ensures SourceColumn(SourceColumn(c, cols), cols) == c
    ensures SourceColumn(c, cols) == SourceColumn(d, cols) ==> c == d
    ensures SourceColumn(0, cols) == cols - 1 && SourceColumn(cols - 1, cols) == 0
  {
  }

  /**
   * The webcam slice for cell (r, c): the webcam picture cut into the same
   * number of equal columns and rows, column mirrored.
   */
  function SourceSlice(r: nat, c: nat, rows: nat, cols: nat, videoW: real, videoH: real): (s: Rect)
    requires r < rows && c < cols
    ensures s.w * cols as real == videoW && s.h * rows as real == videoH
  {
    var sWidth := videoW / cols as real;
    var sHeight := videoH / rows as real;
    MulDivCancel(cols as real, videoW);
    MulDivCancel(rows as real, videoH);
    Rect(SourceColumn(c, cols) as real * sWidth, r as real * sHeight, sWidth, sHeight)
  }

  /** Index arithmetic: (n - 1 - c) slices of width u and one more reach c slices short of n * u. */
  lemma SliceEnd(n: nat, c: nat, u: real)
    requires c < n
    ensures (n - 1 - c) as real * u + u == (n as real) * u - (c as real) * u
  {
  }

  /**
   * Canvas column c shows the webcam slice whose right edge lies c slice
   * widths from the webcam picture's right edge; canvas row r shows the
   * slice whose top lies r slice heights below the picture's top.
   */
  lemma SliceMirrored(r: nat, c: nat, rows: nat, cols: nat, videoW: real, videoH: real)
    requires r < rows && c < cols
    ensures SourceSlice(r, c, rows, cols, videoW, videoH).x + SourceSlice(r, c, rows, cols, videoW, videoH).w
         == videoW - (c as real) * (videoW / cols as real)
    ensures SourceSlice(r, c, rows, cols, videoW, videoH).y == (r as real) * (videoH / rows as real)
  {
    var u := videoW / cols as real;
    SliceEnd(cols, c, u);
    MulDivCancel(cols as real, videoW);
  }

  /**
   * The call drawn for cell (r, c): on the canvas, at the sums of the
   * widths of the columns before it and the heights of the rows above it,
   * as wide as its column and as high as its row.
   */
  function Cell(colWidths: seq<real>, rowHeights: seq<real>, r: nat, c: nat, videoW: real, videoH: real): (b: Blit)
    requires r < |rowHeights| && c < |colWidths|
    ensures b.dst.x == Sum(colWidths[..c]) && b.dst.x + b.dst.w == Sum(colWidths[..c + 1])
    ensures b.dst.y == Sum(rowHeights[..r]) && b.dst.y + b.dst.h == Sum(rowHeights[..r + 1])
    ensures b.src == SourceSlice(r, c, |rowHeights|, |colWidths|, videoW, videoH)
  {
    PrefixSumStep(colWidths, c);
    PrefixSumStep(rowHeights, r);
    Blit(Rect(Sum(colWidths[..c]), Sum(rowHeights[..r]), colWidths[c], rowHeights[r]),
         SourceSlice(r, c, |rowHeights|, |colWidths|, videoW, videoH))
  }

  /** The calls for the first k cells of row r, left to right. */
  function RowCalls(colWidths: seq<real>, rowHeights: seq<real>, r: nat, k: nat, videoW: real, videoH: real): (calls: seq<Blit>)
    requires r < |rowHeights| && k <= |colWidths|
    ensures |calls| == k
  {
    seq(k, c requires 0 <= c < k => Cell(colWidths, rowHeights, r, c, videoW, videoH))
  }

  /** The calls for the first k rows, top to bottom, each row left to right. */
  function Frame(colWidths: seq<real>, rowHeights: seq<real>, k: nat, videoW: real, videoH: real): (calls: seq<Blit>)
    requires k <= |rowHeights|
    ensures |calls| == k * |colWidths|
  {
    if k == 0 then []
    else Frame(colWidths, rowHeights, k - 1, videoW, videoH) + RowCalls(colWidths, rowHeights, k - 1, |colWidths|, videoW, videoH)
  }

  /** Cell (r, c) sits at index r * cols + c of the frame: r full rows come before it. */
  lemma {:induction false} FrameIndex(colWidths: seq<real>, rowHeights: seq<real>, k: nat, r: nat, c: nat, videoW: real, videoH: real)
    requires k <= |rowHeights| && r < k && c < |colWidths|
    ensures r * |colWidths| + c < |Frame(colWidths, rowHeights, k, videoW, videoH)|
    ensures Frame(colWidths, rowHeights, k, videoW, videoH)[r * |colWidths| + c] == Cell(colWidths, rowHeights, r, c, videoW, videoH)
  {
    var n := |colWidths|;
    var before := Frame(colWidths, rowHeights, k - 1, videoW, videoH);
    RowsBefore(r, k, n);
    if r < k - 1 {
      RowsBefore(r, k - 1, n);
      FrameIndex(colWidths, rowHeights, k - 1, r, c, videoW, videoH);
    } else {
      assert |before| == r * n;
    }
  }

  /** Index arithmetic: a row that starts before row k ends by the start of row k. */
  lemma {:induction false} RowsBefore(r: nat, k: nat, n: nat)
    requires r < k
    ensures r * n + n <= k * n
  {
    if k > r + 1 {
      RowsBefore(r, k - 1, n);
    }
    assert k * n == (k - 1) * n + n;
  }

  /**
   * The inner grid-drawing loop of `draw()` for row r, whose top edge is y:
   * run across the columns keeping the running x, one slice per cell.
   */
  method ComposeRow(colWidths: array<real>, rowHeights: array<real>, r: nat, y: real, videoW: real, videoH: real)
      returns (row: seq<Blit>)
    requires r < rowHeights.Length && y == Sum(rowHeights[..r])
    ensures row == RowCalls(colWidths[..], rowHeights[..], r, colWidths.Length, videoW, videoH)
  {
    var cols, rows := colWidths.Length, rowHeights.Length;
    assert rowHeights[..][..r] == rowHeights[..r];
    row := [];
    var x := 0.0;
    var c := 0;
    while c < cols
      invariant 0 <= c <= cols
      invariant row == RowCalls(colWidths[..], rowHeights[..], r, c, videoW, videoH)
      invariant x == Sum(colWidths[..c])
    {
      var sx := (cols - 1 - c) as real * (videoW / cols as real);
      var sy := r as real * (videoH / rows as real);
      var sWidth := videoW / cols as real;
      var sHeight := videoH / rows as real;
      assert colWidths[..][..c] == colWidths[..c];
      assert Blit(Rect(x, y, colWidths[c], rowHeights[r]), Rect(sx, sy, sWidth, sHeight))
          == Cell(colWidths[..], rowHeights[..], r, c, videoW, videoH);
      row := row + [Blit(Rect(x, y, colWidths[c], rowHeights[r]), Rect(sx, sy, sWidth, sHeight))];
      PrefixSumStep(colWidths[..], c);
      assert colWidths[..][..c + 1] == colWidths[..c + 1];
      x := x + colWidths[c];
      c := c + 1;
    }
  }

  /**
   * The outer grid-drawing loop of `draw()`: run down the rows keeping the
   * running y, drawing each row left to right.
   */
  method Compose(colWidths: array<real>, rowHeights: array<real>, videoW: real, videoH: real) returns (calls: seq<Blit>)
    ensures calls == Frame(colWidths[..], rowHeights[..], rowHeights.Length, videoW, videoH)
  {
    var rows := rowHeights.Length;
    calls := [];
    var y := 0.0;
    var r := 0;
    while r < rows
      invariant 0 <= r <= rows
      invariant calls == Frame(colWidths[..], rowHeights[..], r, videoW, videoH)
      invariant y == Sum(rowHeights[..r])
    {
      var row := ComposeRow(colWidths, rowHeights, r, y, videoW, videoH);
      calls := calls + row;
      PrefixSumStep(rowHeights[..], r);
      assert rowHeights[..][..r] == rowHeights[..r] && rowHeights[..][..r + 1] == rowHeights[..r + 1];
      y := y + rowHeights[r];
      r := r + 1;
    }
  }

  /** Whether a point lies in a rectangle (left and top edges inclusive). */
  predicate Inside(rect: Rect, px: real, py: real)
  {
    rect.x <= px < rect.x + rect.w && rect.y <= py < rect.y + rect.h
  }

  /**
   * Neighbouring cells abut: a cell's right edge is the next column's left
   * edge and its bottom edge the next row's top edge; the first cell starts
   * at the origin and the last column and row end at the axis totals.
   */
  lemma CellsAbut(colWidths: seq<real>, rowHeights: seq<real>, r: nat, c: nat, videoW: real, videoH: real)
    requires r < |rowHeights| && c < |colWidths|
    ensures Cell(colWidths, rowHeights, 0, 0, videoW, videoH).dst.x == 0.0
    ensures Cell(colWidths, rowHeights, 0, 0, videoW, videoH).dst.y == 0.0
    ensures c + 1 < |colWidths| ==>
      Cell(colWidths, rowHeights, r, c, videoW, videoH).dst.x + Cell(colWidths, rowHeights, r, c, videoW, videoH).dst.w
      == Cell(colWidths, rowHeights, r, c + 1, videoW, videoH).dst.x
    ensures r + 1 < |rowHeights| ==>
      Cell(colWidths, rowHeights, r, c, videoW, videoH).dst.y + Cell(colWidths, rowHeights, r, c, videoW, videoH).dst.h
      == Cell(colWidths, rowHeights, r + 1, c, videoW, videoH).dst.y
    ensures c + 1 == |colWidths| ==>
      Cell(colWidths, rowHeights, r, c, videoW, videoH).dst.x + Cell(colWidths, rowHeights, r, c, videoW, videoH).dst.w == Sum(colWidths)
    ensures r + 1 == |rowHeights| ==>
      Cell(colWidths, rowHeights, r, c, videoW, videoH).dst.y + Cell(colWidths, rowHeights, r, c, videoW, videoH).dst.h == Sum(rowHeights)
  {
    assert colWidths[..0] == [] && rowHeights[..0] == [];
    PrefixSumStep(colWidths, c);
    PrefixSumStep(rowHeights, r);
    assert colWidths[..|colWidths|] == colWidths;
    assert rowHeights[..|rowHeights|] == rowHeights;
  }

  /** With positive sizes the prefix sums never decrease. */
  lemma {:induction false} PrefixMonotone(s: seq<real>, i: nat, j: nat)
    requires forall k :: 0 <= k < |s| ==> s[k] > 0.0
    requires i <= j <= |s|
    ensures Sum(s[..i]) <= Sum(s[..j])
    decreases j
  {
    if i < j {
      PrefixMonotone(s, i, j - 1);
      PrefixSumStep(s, j - 1);
    }
  }

  /** Every coordinate in [0, Sum(s)) lies in the span of some cell. */
  lemma {:induction false} SomeCell(s: seq<real>, p: real) returns (c: nat)
    requires 0.0 <= p < Sum(s)
    ensures c < |s| && Sum(s[..c]) <= p < Sum(s[..c + 1])
  {
    var last := |s| - 1;
    var shorter := s[..last];
    assert s[..last + 1] == s;
    if p >= Sum(shorter) {
      c := last;
    } else {
      c := SomeCell(shorter, p);
      assert shorter[..c] == s[..c] && shorter[..c + 1] == s[..c + 1];
    }
  }

  /** With positive sizes no coordinate lies in the spans of two cells. */
  lemma OnlyCell(s: seq<real>, p: real, c: nat, d: nat)
    requires forall k :: 0 <= k < |s| ==> s[k] > 0.0
    requires c < |s| && Sum(s[..c]) <= p < Sum(s[..c + 1])
    requires d < |s| && Sum(s[..d]) <= p < Sum(s[..d + 1])
    ensures c == d
  {
    if c < d {
      PrefixMonotone(s, c + 1, d);
    } else if d < c {
      PrefixMonotone(s, d + 1, c);
    }
  }

  /**
   * The cells tile the canvas: when both axes are partitions of the
   * canvas, every point of the canvas lies in exactly one cell.
   */
  lemma CellsTile(colWidths: seq<real>, rowHeights: seq<real>, width: real, height: real, videoW: real, videoH: real, px: real, py: real)
      returns (r: nat, c: nat)
    requires Partition(colWidths, width) && Partition(rowHeights, height)
    requires 0.0 <= px < width && 0.0 <= py < height
    ensures r < |rowHeights| && c < |colWidths|
    ensures Inside(Cell(colWidths, rowHeights, r, c, videoW, videoH).dst, px, py)
    ensures forall r': nat, c': nat :: r' < |rowHeights| && c' < |colWidths| && Inside(Cell(colWidths, rowHeights, r', c', videoW, videoH).dst, px, py) ==> r' == r && c' == c
  {
    c := SomeCell(colWidths, px);
    r := SomeCell(rowHeights, py);
    PrefixSumStep(colWidths, c);
    PrefixSumStep(rowHeights, r);
    forall r': nat, c': nat | r' < |rowHeights| && c' < |colWidths| && Inside(Cell(colWidths, rowHeights, r', c', videoW, videoH).dst, px, py)
      ensures r' == r && c' == c
    {
      PrefixSumStep(colWidths, c');
      PrefixSumStep(rowHeights, r');
      OnlyCell(colWidths, px, c, c');
      OnlyCell(rowHeights, py, r, r');
    }
  }
}
