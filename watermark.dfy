/**
  The watermark mask (`create_mask` in
  app/scripts/video_remove_watermark/remove_image_watermark.py): a fresh
  height-by-width `uint8` array that is 255 on the detected box, widened by
  two pixels on each side and clipped to the frame, and 0 elsewhere.
 */
module Watermark {
  /** numpy's `uint8`. */
  newtype Byte = b: int | 0 <= b < 256

  /** A detected box `[x1, y1, x2, y2]`. */
  datatype BBox = BBox(x1: int, y1: int, x2: int, y2: int)

  /** Where a Python slice bound `e` lands on an axis of length `n`: negative bounds count from the end. */
  function SliceBound(e: int, n: nat): (b: nat)
    ensures b <= n
    ensures 0 <= e <= n ==> b == e
    ensures e > n ==> b == n
    ensures e < 0 ==> b == if n + e < 0 then 0 else n + e
  {
    if e < 0 then (if n + e < 0 then 0 else n + e)
    else if e > n then n
    else e
  }

  /** The half-open row and column ranges `mask[y1:y2, x1:x2]` covers, after widening and clamping. */
  datatype Region = Region(top: nat, bottom: nat, left: nat, right: nat)

  function Max(a: int, b: int): int { if a >= b then a else b }
  function Min(a: int, b: int): int { if a <= b then a else b }

  /** The widened, clamped box and the cells the slice assignment reaches. */
  function MaskRegion(height: nat, width: nat, box: BBox): (r: Region)
    ensures r.top <= height && r.bottom <= height && r.left <= width && r.right <= width
    ensures r.top == Min(Max(0, box.y1 - 2), height) && r.left == Min(Max(0, box.x1 - 2), width)
    ensures r.bottom == SliceBound(Min(height, box.y2 + 2), height)
    ensures r.right == SliceBound(Min(width, box.x2 + 2), width)
  {
    var x1 := Max(0, box.x1 - 2);
    var y1 := Max(0, box.y1 - 2);
    var x2 := Min(width, box.x2 + 2);
    var y2 := Min(height, box.y2 + 2);
    Region(SliceBound(y1, height), SliceBound(y2, height), SliceBound(x1, width), SliceBound(x2, width))
  }

  predicate InRegion(r: Region, y: int, x: int) {
    r.top <= y < r.bottom && r.left <= x < r.right
  }

  /** The value of mask cell `(y, x)`. */
  function MaskCell(height: nat, width: nat, box: BBox, y: int, x: int): Byte {
    if InRegion(MaskRegion(height, width, box), y, x) then 255 else 0
  }

  /** `create_mask(frame_shape, bbox)` with `frame_shape[:2] == (height, width)`. */
  method CreateMask(height: nat, width: nat, box: BBox) returns (mask: array2<Byte>)
    ensures fresh(mask)
    ensures mask.Length0 == height && mask.Length1 == width
    ensures forall y, x :: 0 <= y < height && 0 <= x < width ==> mask[y, x] == MaskCell(height, width, box, y, x)
  {
    mask := new Byte[height, width]((y, x) => 0);
    var r := MaskRegion(height, width, box);
    var y := r.top;
    while y < r.bottom
      invariant r.top <= y <= r.bottom || (y == r.top && r.bottom < r.top)
      invariant forall i, j :: 0 <= i < height && 0 <= j < width ==>
                  mask[i, j] == if r.top <= i < y && r.left <= j < r.right then 255 else 0
    {
      FillRow(mask, y, r.left, r.right);
      y := y + 1;
    }
  }

  /** `mask[y, left:right] = 255` for one row. */
  method FillRow(mask: array2<Byte>, y: nat, left: nat, right: nat)
    requires y < mask.Length0 && left <= mask.Length1 && right <= mask.Length1
    modifies mask
    ensures forall i, j :: 0 <= i < mask.Length0 && 0 <= j < mask.Length1 ==>
              mask[i, j] == if i == y && left <= j < right then 255 else old(mask[i, j])
  {
    var x := left;
    while x < right
      invariant left <= x <= right || (x == left && right < left)
      invariant forall i, j :: 0 <= i < mask.Length0 && 0 <= j < mask.Length1 ==>
                  mask[i, j] == if i == y && left <= j < x then 255 else old(mask[i, j])
    {
      mask[y, x] := 255;
      x := x + 1;
    }
  }

  /** Every cell is 0 or 255. */
  lemma CellsBinary(height: nat, width: nat, box: BBox, y: int, x: int)
    ensures MaskCell(height, width, box, y, x) == 0 || MaskCell(height, width, box, y, x) == 255
  {
  }

  /**
    For a box with non-negative coordinates, cell `(y, x)` of the frame is 255
    exactly when it lies in the box widened by 2 and clipped to the frame.
   */
  lemma NonNegativeBoxCells(height: nat, width: nat, box: BBox, y: nat, x: nat)
    requires box.x1 >= 0 && box.y1 >= 0 && box.x2 >= 0 && box.y2 >= 0
    requires y < height && x < width
    ensures MaskCell(height, width, box, y, x) == 255 <==>
              box.y1 - 2 <= y < box.y2 + 2 && box.x1 - 2 <= x < box.x2 + 2
  {
  }

  /** The widening covers the whole detected box, as far as it lies inside the frame. */
  lemma BoxCovered(height: nat, width: nat, box: BBox, y: nat, x: nat)
    requires box.x1 >= 0 && box.y1 >= 0 && box.x2 >= 0 && box.y2 >= 0
    requires box.y1 <= y < box.y2 && box.x1 <= x < box.x2 && y < height && x < width
    ensures MaskCell(height, width, box, y, x) == 255
  {
    NonNegativeBoxCells(height, width, box, y, x);
  }

  /** An inverted box (the right edge at least four left of the left edge, or the bottom edge at least four above the top edge) masks nothing. */
  lemma InvertedBoxMasksNothing(height: nat, width: nat, box: BBox, y: int, x: int)
    requires box.x1 >= 0 && box.y1 >= 0 && box.x2 >= 0 && box.y2 >= 0
    requires box.x2 + 4 <= box.x1 || box.y2 + 4 <= box.y1
    ensures MaskCell(height, width, box, y, x) == 0
  {
  }

  /**
    A right edge below -2 becomes a negative slice bound, which Python counts
    from the end of the row: on a frame wider than 3, `x2 == -3` masks every
    column from the widened left edge up to the last, not none.
   */
  lemma NegativeRightEdgeCountsFromEnd(height: nat, width: nat, y1: nat, y2: nat)
    requires width > 3 && y1 + 2 <= y2 && y1 < height
    ensures MaskCell(height, width, BBox(0, y1, -3, y2), y1, width - 2) == 255
    ensures MaskCell(height, width, BBox(0, y1, -3, y2), y1, width - 1) == 0
  {
  }
}
