/** The per-cell "used" flags of the detector (`processedBitmap`): bit 1 marks
    a cell consumed by a horizontal run, bit 2 one consumed by a vertical
    run. Bits are only ever set, never cleared. */
module Bitmap {

  datatype Axis = Horizontal | Vertical

  /** Rows of cells, each cell a 2-bit flag word. */
  type Bits = seq<seq<bv2>>

  /** The flag of an orientation: 1 horizontal, 2 vertical. */
  function Bit(axis: Axis): bv2
  {
    if axis == Horizontal then 1 else 2
  }

  function Other(axis: Axis): Axis
  {
    if axis == Horizontal then Vertical else Horizontal
  }

  /** `isUsedHorizontal` / `isUsedVertical` on one flag word. */
  predicate Used(b: bv2, axis: Axis): (r: bool)
    ensures r <==> if axis == Horizontal then b == 1 || b == 3 else b == 2 || b == 3
  {
    b & Bit(axis) != 0
  }

  function Width(bits: Bits): nat
  {
    if bits == [] then 0 else |bits[0]|
  }

  /** Every row has the same number of cells. */
  predicate IsBitmap(bits: Bits)
  {
    forall i :: 0 <= i < |bits| ==> |bits[i]| == Width(bits)
  }

  /** The bitmap before any run is marked. */
  function Blank(h: nat, w: nat): (bits: Bits)
    ensures IsBitmap(bits) && |bits| == h && (h > 0 ==> Width(bits) == w)
    ensures forall i, j :: 0 <= i < h && 0 <= j < |bits[i]| ==> bits[i][j] == 0
  {
    seq(h, _ => seq(w, _ => 0))
  }

  /** Number of cells along a run of the orientation, and number of runs across. */
  function Along(axis: Axis, bits: Bits): nat
  {
    if axis == Horizontal then Width(bits) else |bits|
  }

  function Across(axis: Axis, bits: Bits): nat
  {
    if axis == Horizontal then |bits| else Width(bits)
  }

  /** Cell `p` of row `fixed` (horizontal) or of column `fixed` (vertical). */
  function Get(bits: Bits, axis: Axis, fixed: nat, p: nat): bv2
    requires IsBitmap(bits) && fixed < Across(axis, bits) && p < Along(axis, bits)
  {
    if axis == Horizontal then bits[fixed][p] else bits[p][fixed]
  }

  /** Cell `(i, j)` (row, column) lies on cells `lo..hi` of row or column `fixed`. */
  predicate OnSpan(axis: Axis, fixed: nat, lo: int, hi: int, i: int, j: int)
  {
    if axis == Horizontal then i == fixed && lo <= j <= hi else j == fixed && lo <= i <= hi
  }

  /** `setUsedHorizontal` / `setUsedVertical`: the orientation's bit or-ed into one cell. */
  function SetCell(bits: Bits, axis: Axis, fixed: nat, p: nat): (r: Bits)
    requires IsBitmap(bits) && fixed < Across(axis, bits) && p < Along(axis, bits)
    ensures IsBitmap(r) && |r| == |bits| && Width(r) == Width(bits)
  {
    if axis == Horizontal then bits[fixed := bits[fixed][p := bits[fixed][p] | 1]]
    else bits[p := bits[p][fixed := bits[p][fixed] | 2]]
  }

  /** Setting a cell ors the orientation's bit into that cell only. */
  lemma SetCellAt(bits: Bits, axis: Axis, fixed: nat, p: nat)
    requires IsBitmap(bits) && fixed < Across(axis, bits) && p < Along(axis, bits)
    ensures forall i, j :: 0 <= i < |bits| && 0 <= j < Width(bits) ==>
      SetCell(bits, axis, fixed, p)[i][j] == if OnSpan(axis, fixed, p, p, i, j) then bits[i][j] | Bit(axis) else bits[i][j]
  {
  }

  /** The marking loop of a run: cells `lo..hi` of row or column `fixed`
      marked one after the other. */
  function Mark(bits: Bits, axis: Axis, fixed: nat, lo: nat, hi: int): (r: Bits)
    requires IsBitmap(bits) && fixed < Across(axis, bits) && hi < Along(axis, bits)
    ensures IsBitmap(r) && |r| == |bits| && Width(r) == Width(bits)
    decreases if hi < lo then 0 else hi - lo + 1
  {
    if hi < lo then bits else SetCell(Mark(bits, axis, fixed, lo, hi - 1), axis, fixed, hi)
  }

  /** Marking sets the orientation's bit on exactly the cells of the span. */
  lemma {:induction false} MarkAt(bits: Bits, axis: Axis, fixed: nat, lo: nat, hi: int)
    requires IsBitmap(bits) && fixed < Across(axis, bits) && hi < Along(axis, bits)
    ensures forall i, j :: 0 <= i < |bits| && 0 <= j < Width(bits) ==>
      Mark(bits, axis, fixed, lo, hi)[i][j]
        == if OnSpan(axis, fixed, lo, hi, i, j) then bits[i][j] | Bit(axis) else bits[i][j]
    decreases if hi < lo then 0 else hi - lo + 1
  {
    if lo <= hi {
      MarkAt(bits, axis, fixed, lo, hi - 1);
      SetCellAt(Mark(bits, axis, fixed, lo, hi - 1), axis, fixed, hi);
    }
  }

  /** `b` holds every bit `a` holds, cell by cell, on the same shape. */
  predicate Grows(a: Bits, b: Bits)
  {
    |a| == |b| &&
    (forall i :: 0 <= i < |a| ==> |a[i]| == |b[i]|) &&
    forall i, j :: 0 <= i < |a| && 0 <= j < |a[i]| ==> a[i][j] | b[i][j] == b[i][j]
  }

  lemma GrowsTransitive(a: Bits, b: Bits, c: Bits)
    requires Grows(a, b) && Grows(b, c)
    ensures Grows(a, c)
  {
    forall i, j | 0 <= i < |a| && 0 <= j < |a[i]|
      ensures a[i][j] | c[i][j] == c[i][j]
    {
      assert a[i][j] | b[i][j] == b[i][j];
      assert b[i][j] | c[i][j] == c[i][j];
    }
  }

  /** Marking only adds bits, and only bits of its own orientation. */
  lemma MarkGrows(bits: Bits, axis: Axis, fixed: nat, lo: nat, hi: int)
    requires IsBitmap(bits) && fixed < Across(axis, bits) && hi < Along(axis, bits)
    ensures Grows(bits, Mark(bits, axis, fixed, lo, hi))
    ensures forall i, j :: 0 <= i < |bits| && 0 <= j < Width(bits) ==>
      Mark(bits, axis, fixed, lo, hi)[i][j] & Bit(Other(axis)) == bits[i][j] & Bit(Other(axis))
  {
    MarkAt(bits, axis, fixed, lo, hi);
  }
}
