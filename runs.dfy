/** Detection of one horizontal or vertical run (`tryDrawHorizontal`,
    `tryDrawVertical`), stated on values. A horizontal run is read along a
    row of the grid, a vertical run along a column of its transpose; `fixed`
    is the row (horizontal) or column (vertical) the run lies on. */
module Runs {
  import opened Commands
  import opened Bitmap

  /** Characters a run passes through: `-`/`+` across, `|`/`+` down. */
  predicate IsBody(axis: Axis, c: char)
  {
    c == '+' || (if axis == Horizontal then c == '-' else c == '|')
  }

  /** The arrowhead that lengthens a run at its start. */
  function HeadArrow(axis: Axis): char
  {
    if axis == Horizontal then '<' else '^'
  }

  /** The arrowhead that lengthens a run at its end. */
  function TailArrow(axis: Axis): char
  {
    if axis == Horizontal then '>' else 'v'
  }

  /** A character the scan absorbs as the last cell of a run: the tail
      arrowhead or a dot. */
  predicate IsCap(axis: Axis, c: char)
  {
    c == TailArrow(axis) || c == '*'
  }

  /** The value of `right` (or `bottom`) when the scanning loop that starts
      at `p` stops: past the last body cell, or past an absorbed cap. */
  function RunEnd(axis: Axis, s: string, p: nat): (e: nat)
    requires p <= |s|
    ensures p <= e <= |s|
    ensures forall i :: p <= i < e - 1 ==> IsBody(axis, s[i])
    ensures e > p ==> IsBody(axis, s[e - 1]) || IsCap(axis, s[e - 1])
    ensures (e > p && IsCap(axis, s[e - 1])) || e == |s| || !(IsBody(axis, s[e]) || IsCap(axis, s[e]))
    decreases |s| - p
  {
    if p == |s| then p
    else if IsBody(axis, s[p]) then RunEnd(axis, s, p + 1)
    else if IsCap(axis, s[p]) then p + 1
    else p
  }

  /** The conditions `RunEnd` promises single out its value. */
  lemma {:induction false} RunEndUnique(axis: Axis, s: string, p: nat, e: nat)
    requires p <= e <= |s|
    requires forall i :: p <= i < e - 1 ==> IsBody(axis, s[i])
    requires e > p ==> IsBody(axis, s[e - 1]) || IsCap(axis, s[e - 1])
    requires (e > p && IsCap(axis, s[e - 1])) || e == |s| || !(IsBody(axis, s[e]) || IsCap(axis, s[e]))
    ensures RunEnd(axis, s, p) == e
    decreases |s| - p
  {
    if p < |s| && e > p && !IsCap(axis, s[p]) {
      assert IsBody(axis, s[p]);
      RunEndUnique(axis, s, p + 1, e);
    }
  }

  /** The last cell of the run that starts at `left`, after the source's
      `right--`: the cells strictly inside are body cells, the last one is a
      body cell or an absorbed cap, and the scan could not go further. */
  function RunRight(axis: Axis, s: string, left: nat): (right: int)
    requires left < |s|
    ensures left <= right < |s|
    ensures forall i :: left < i < right ==> IsBody(axis, s[i])
    ensures left < right ==> IsBody(axis, s[right]) || IsCap(axis, s[right])
    ensures (left < right && IsCap(axis, s[right])) || right + 1 == |s|
         || !(IsBody(axis, s[right + 1]) || IsCap(axis, s[right + 1]))
  {
    RunEnd(axis, s, left + 1) - 1
  }

  /** The run that starts at `left` is long enough to be drawn: it has at
      least one cell strictly between its two ends (`left + 1 >= right` rejects). */
  predicate Accepts(axis: Axis, s: string, left: nat): (r: bool)
    requires left < |s|
    ensures r ==> left + 2 < |s| && IsBody(axis, s[left + 1])
  {
    left + 1 < RunRight(axis, s, left)
  }

  /** Commands at position `p` of the row or column `fixed`. */
  function ArrowAt(axis: Axis, fixed: nat, p: int, d: real): Command
  {
    if axis == Horizontal then Arrow(p, fixed, d, 0.0) else Arrow(fixed, p, 0.0, d)
  }

  function DotAt(axis: Axis, fixed: nat, p: int): Command
  {
    if axis == Horizontal then Dot(p, fixed) else Dot(fixed, p)
  }

  function LineAt(axis: Axis, fixed: nat, a: int, b: int): Command
  {
    if axis == Horizontal then Line(a, fixed, b, fixed) else Line(fixed, a, fixed, b)
  }

  /** What an accepted run from `lo` to `hi` draws, in the source's order:
      an arrowhead or a dot at the head, one at the tail, then the line. An
      arrowhead end lengthens the line by one cell. */
  function RunCommands(axis: Axis, s: string, fixed: nat, lo: nat, hi: nat): (r: seq<Command>)
    requires lo < hi < |s|
    ensures 1 <= |r| <= 3 && r[|r| - 1].Line?
  {
    var head, tail := s[lo], s[hi];
    var a := if head == HeadArrow(axis) then lo - 1 else lo;
    var b := if tail == TailArrow(axis) then hi + 1 else hi;
    (if head == HeadArrow(axis) then [ArrowAt(axis, fixed, a, -0.5)] else []) +
    (if head == '*' then [DotAt(axis, fixed, a)] else []) +
    (if tail == TailArrow(axis) then [ArrowAt(axis, fixed, b, 0.5)] else []) +
    (if tail == '*' then [DotAt(axis, fixed, b)] else []) +
    [LineAt(axis, fixed, a, b)]
  }

  /** `(x, y)` is one of the two end points of a line command. */
  predicate AtLineEnd(line: Command, x: int, y: int)
    requires line.Line?
  {
    (x == line.x1 && y == line.y1) || (x == line.x2 && y == line.y2)
  }

  /** The decoration of an accepted run: exactly one line, the last command,
      lengthened by one cell at an arrowhead end; an arrowhead iff an end is
      an arrowhead, pointing outwards; a dot iff an end is `*`; every
      arrowhead and dot sits at an end of the line; no text. */
  lemma RunDecoration(axis: Axis, s: string, fixed: nat, lo: nat, hi: nat)
    requires lo < hi < |s|
    ensures var cmds := RunCommands(axis, s, fixed, lo, hi);
      var a := if s[lo] == HeadArrow(axis) then lo - 1 else lo;
      var b := if s[hi] == TailArrow(axis) then hi + 1 else hi;
      && LineCount(cmds) == 1
      && cmds[|cmds| - 1] == LineAt(axis, fixed, a, b)
      && ((exists k :: 0 <= k < |cmds| && cmds[k].Arrow?) <==> (s[lo] == HeadArrow(axis) || s[hi] == TailArrow(axis)))
      && ((exists k :: 0 <= k < |cmds| && cmds[k].Dot?) <==> (s[lo] == '*' || s[hi] == '*'))
      && (forall k :: 0 <= k < |cmds| && cmds[k].Arrow? ==>
            cmds[k] == ArrowAt(axis, fixed, lo - 1, -0.5) || cmds[k] == ArrowAt(axis, fixed, hi + 1, 0.5))
      && (forall k :: 0 <= k < |cmds| && (cmds[k].Arrow? || cmds[k].Dot?) ==>
            AtLineEnd(cmds[|cmds| - 1], cmds[k].x, cmds[k].y))
      && (forall k :: 0 <= k < |cmds| ==> !cmds[k].Text?)
  {
    var head, tail := s[lo], s[hi];
    var a := if head == HeadArrow(axis) then lo - 1 else lo;
    var b := if tail == TailArrow(axis) then hi + 1 else hi;
    var decorations :=
      (if head == HeadArrow(axis) then [ArrowAt(axis, fixed, a, -0.5)] else []) +
      (if head == '*' then [DotAt(axis, fixed, a)] else []) +
      (if tail == TailArrow(axis) then [ArrowAt(axis, fixed, b, 0.5)] else []) +
      (if tail == '*' then [DotAt(axis, fixed, b)] else []);
    var cmds := RunCommands(axis, s, fixed, lo, hi);
    assert cmds == decorations + [LineAt(axis, fixed, a, b)];
    LineCountNone(decorations);
    LineCountAppend(decorations, [LineAt(axis, fixed, a, b)]);
    assert LineCount([LineAt(axis, fixed, a, b)]) == 1;
  }

  /** Each end of an accepted run has its own decoration: an outward
      arrowhead at the head iff the head is the head arrowhead, likewise at
      the tail, a dot on the head cell iff the head is `*`, likewise at the
      tail, and besides the line one command for each decorated end. */
  lemma RunEndDecorations(axis: Axis, s: string, fixed: nat, lo: nat, hi: nat)
    requires lo < hi < |s|
    ensures var cmds := RunCommands(axis, s, fixed, lo, hi);
      && (ArrowAt(axis, fixed, lo - 1, -0.5) in cmds <==> s[lo] == HeadArrow(axis))
      && (ArrowAt(axis, fixed, hi + 1, 0.5) in cmds <==> s[hi] == TailArrow(axis))
      && (DotAt(axis, fixed, lo) in cmds <==> s[lo] == '*')
      && (DotAt(axis, fixed, hi) in cmds <==> s[hi] == '*')
      && |cmds| == 1 + (if s[lo] == HeadArrow(axis) || s[lo] == '*' then 1 else 0)
                     + (if s[hi] == TailArrow(axis) || s[hi] == '*' then 1 else 0)
  {
  }

  /** The result of one detection attempt: its return value, the bitmap
      after it, and the commands it appended. */
  datatype Attempt = Attempt(ok: bool, bits: Bits, cmds: seq<Command>)

  /** `s` is row or column `fixed` of a grid shaped like `bits`. */
  predicate Fits(axis: Axis, s: string, bits: Bits, fixed: nat)
  {
    IsBitmap(bits) && |s| == Along(axis, bits) && fixed < Across(axis, bits)
  }

  /** `tryDrawHorizontal(x, y)` (with `s` row `y`, `fixed == y`, `start == x`)
      and `tryDrawVertical(x, y)` (with `s` column `x`, `fixed == x`,
      `start == y`). */
  function Try(axis: Axis, s: string, bits: Bits, fixed: nat, start: nat): (a: Attempt)
    requires Fits(axis, s, bits, fixed) && start < |s|
    ensures IsBitmap(a.bits) && |a.bits| == |bits| && Width(a.bits) == Width(bits)
  {
    if Used(Get(bits, axis, fixed, start), axis) then Attempt(true, bits, [])
    else
      var right := RunRight(axis, s, start);
      if start + 1 >= right then Attempt(false, bits, [])
      else Attempt(true, Mark(bits, axis, fixed, start, right), RunCommands(axis, s, fixed, start, right))
  }

  /** An attempt succeeds iff its first cell is already used in its
      orientation or the run is long enough; a used first cell or a rejected
      run leaves the bitmap alone and draws nothing. */
  lemma TryVerdict(axis: Axis, s: string, bits: Bits, fixed: nat, start: nat)
    requires Fits(axis, s, bits, fixed) && start < |s|
    ensures var a := Try(axis, s, bits, fixed, start);
      && (a.ok <==> Used(Get(bits, axis, fixed, start), axis) || Accepts(axis, s, start))
      && (Used(Get(bits, axis, fixed, start), axis) || !a.ok ==> a.bits == bits && a.cmds == [])
  {
  }

  /** An accepted run marks exactly its own cells `start..right`, all inside
      the grid, with the bit of its orientation. */
  lemma TryMarksRun(axis: Axis, s: string, bits: Bits, fixed: nat, start: nat)
    requires Fits(axis, s, bits, fixed) && start < |s|
    requires !Used(Get(bits, axis, fixed, start), axis) && Accepts(axis, s, start)
    ensures var a := Try(axis, s, bits, fixed, start);
      var right := RunRight(axis, s, start);
      && right < |s|
      && (forall i, j :: 0 <= i < |bits| && 0 <= j < Width(bits) ==>
            a.bits[i][j] == if OnSpan(axis, fixed, start, right, i, j) then bits[i][j] | Bit(axis) else bits[i][j])
  {
    MarkAt(bits, axis, fixed, start, RunRight(axis, s, start));
  }

  /** An attempt never clears a bit and never touches the other orientation's bits. */
  lemma TryGrows(axis: Axis, s: string, bits: Bits, fixed: nat, start: nat)
    requires Fits(axis, s, bits, fixed) && start < |s|
    ensures var a := Try(axis, s, bits, fixed, start);
      && Grows(bits, a.bits)
      && forall i, j :: 0 <= i < |bits| && 0 <= j < Width(bits) ==>
           a.bits[i][j] & Bit(Other(axis)) == bits[i][j] & Bit(Other(axis))
  {
    var a := Try(axis, s, bits, fixed, start);
    if a.bits != bits {
      MarkGrows(bits, axis, fixed, start, RunRight(axis, s, start));
    }
  }

  /** After an attempt its first cell is used in its orientation, unless the
      run there is too short. */
  lemma TryConsumes(axis: Axis, s: string, bits: Bits, fixed: nat, start: nat)
    requires Fits(axis, s, bits, fixed) && start < |s|
    ensures Used(Get(Try(axis, s, bits, fixed, start).bits, axis, fixed, start), axis) || !Accepts(axis, s, start)
  {
    if !Used(Get(bits, axis, fixed, start), axis) && Accepts(axis, s, start) {
      TryMarksRun(axis, s, bits, fixed, start);
      if axis == Horizontal {
        assert OnSpan(axis, fixed, start, RunRight(axis, s, start), fixed, start);
      } else {
        assert OnSpan(axis, fixed, start, RunRight(axis, s, start), start, fixed);
      }
    }
  }
}
