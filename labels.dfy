/** The text-extraction loop of `convertToSVG`: in each row, the characters
    the line detectors left over are grouped into labels. A word is a run of
    cells that are neither a space nor used; words separated by single
    spaces join into one label, which ends at a used cell, at a double
    space, or at the end of the row. `row` holds the row's bitmap cells;
    a cell is used when any of its bits is set. */
module Labels {
  import opened Commands

  /** `getWord(x)`: the first cell from `x` on that is past the row, a space
      or used. */
  function WordEnd(l: string, row: seq<bv2>, x: nat): (e: nat)
    requires |row| == |l|
    ensures x <= e && (x <= |l| ==> e <= |l|) && (x >= |l| ==> e == x)
    decreases |l| - x
  {
    if x < |l| && l[x] != ' ' && row[x] == 0 then WordEnd(l, row, x + 1) else x
  }

  /** The cells `getWord` passes are neither spaces nor used, and it stops
      at the row's end, a space or a used cell. */
  lemma {:induction false} WordEndSpec(l: string, row: seq<bv2>, x: nat)
    requires |row| == |l|
    ensures var e := WordEnd(l, row, x);
      && (forall k :: x <= k < e ==> l[k] != ' ' && row[k] == 0)
      && (e >= |l| || l[e] == ' ' || row[e] != 0)
    decreases |l| - x
  {
    if x < |l| && l[x] != ' ' && row[x] == 0 {
      WordEndSpec(l, row, x + 1);
    }
  }

  /** The `while (true)` loop that accumulates words from `start`, with `end`
      the end of the words accumulated so far. Reading the bitmap one cell
      past the row yields `undefined` in the source, which does not stop
      the loop. */
  function LabelEnd(l: string, row: seq<bv2>, start: nat, end: nat): (r: nat)
    requires |row| == |l| && end <= start <= |l| + 1 && end <= |l|
    ensures end <= r <= |l|
    decreases |l| + 1 - start
  {
    var e := WordEnd(l, row, start);
    if e == start then end
    else if e < |l| && row[e] != 0 then e
    else LabelEnd(l, row, e + 1, e)
  }

  /** Cells `a..b-1` form a label: no used cell, no leading or trailing
      space, no two spaces in a row. */
  predicate Clean(l: string, row: seq<bv2>, a: nat, b: nat)
    requires a < b <= |l| == |row|
  {
    l[a] != ' ' && l[b - 1] != ' ' &&
    (forall k :: a <= k < b ==> row[k] == 0) &&
    (forall k :: a <= k < b - 1 ==> !(l[k] == ' ' && l[k + 1] == ' '))
  }

  /** A label ending before cell `b` cannot be extended: `b` is past the row,
      used, or a space followed by the row's end, a space or a used cell. */
  predicate Stops(l: string, row: seq<bv2>, b: nat)
    requires b <= |l| == |row|
  {
    b == |l| || row[b] != 0 || (l[b] == ' ' && (b + 1 == |l| || l[b + 1] == ' ' || row[b + 1] != 0))
  }

  /** The accumulation loop started at `x` either finds no word there or
      ends a clean label that cannot be extended. */
  lemma {:induction false} LabelEndSpec(l: string, row: seq<bv2>, x: nat, start: nat, end: nat)
    requires |row| == |l| && x < |l|
    requires (start == end == x) ||
             (x < end <= |l| && start == end + 1 && Clean(l, row, x, end) &&
              (end < |l| ==> l[end] == ' ' && row[end] == 0))
    ensures var r := LabelEnd(l, row, start, end);
      (r == x && WordEnd(l, row, x) == x) || (x < r && Clean(l, row, x, r) && Stops(l, row, r))
    decreases |l| + 1 - start
  {
    var e := WordEnd(l, row, start);
    WordEndSpec(l, row, start);
    if e != start {
      assert e <= |l|;
      if start > x {
        assert l[end + 1] != ' ';
      }
      assert Clean(l, row, x, e);
      if !(e < |l| && row[e] != 0) {
        LabelEndSpec(l, row, x, e + 1, e);
      }
    }
  }

  /** The labels of row `y` from column `x` on, as the source's `for` loop
      emits them: a label is emitted at its first cell and the loop resumes
      after the cell that stopped it. */
  function RowLabels(l: string, row: seq<bv2>, y: nat, x: nat): (r: seq<Command>)
    requires |row| == |l|
    ensures forall k :: 0 <= k < |r| ==> r[k].Text? && r[k].y == y && x <= r[k].x < |l|
    decreases |l| - x
  {
    if x >= |l| then []
    else
      var end := LabelEnd(l, row, x, x);
      if end != x then [Text(x, y, l[x..end])] + RowLabels(l, row, y, end + 1)
      else RowLabels(l, row, y, x + 1)
  }

  /** `c` is a label of row `y`: its text is `l.substr(c.x, |c.text|)`, a
      clean label that cannot be extended. */
  predicate GoodLabel(l: string, row: seq<bv2>, y: int, c: Command)
    requires |row| == |l|
  {
    c.Text? && c.y == y && 0 <= c.x && 0 < |c.text| && c.x + |c.text| <= |l| &&
    c.text == l[c.x..c.x + |c.text|] &&
    Clean(l, row, c.x, c.x + |c.text|) && Stops(l, row, c.x + |c.text|)
  }

  /** Every command of `ls` is a good label of row `y` starting at or after
      `x`, and the labels are disjoint and in left-to-right order with at
      least one cell between neighbours. */
  predicate GoodRow(l: string, row: seq<bv2>, y: nat, x: nat, ls: seq<Command>)
    requires |row| == |l|
  {
    (forall k :: 0 <= k < |ls| ==> GoodLabel(l, row, y, ls[k]) && ls[k].x >= x) &&
    (forall k1, k2 :: 0 <= k1 < k2 < |ls| ==> ls[k1].x + |ls[k1].text| < ls[k2].x)
  }

  /** A label found at `x` is good. */
  lemma FirstLabelGood(l: string, row: seq<bv2>, y: nat, x: nat)
    requires |row| == |l| && x < |l| && LabelEnd(l, row, x, x) != x
    ensures GoodLabel(l, row, y, Text(x, y, l[x..LabelEnd(l, row, x, x)]))
  {
    var end := LabelEnd(l, row, x, x);
    LabelEndSpec(l, row, x, x, x);
    var t := l[x..end];
    assert |t| == end - x;
    assert x + |t| == end;
  }

  /** A good label followed by the good labels after the cell that stops it. */
  lemma GoodRowCons(l: string, row: seq<bv2>, y: nat, x: nat, head: Command, rest: seq<Command>)
    requires |row| == |l| && GoodLabel(l, row, y, head) && head.x == x
    requires GoodRow(l, row, y, x + |head.text| + 1, rest)
    ensures GoodRow(l, row, y, x, [head] + rest)
  {
    var ls := [head] + rest;
    forall k | 0 <= k < |ls|
      ensures GoodLabel(l, row, y, ls[k]) && ls[k].x >= x
    {
      if k > 0 {
        assert ls[k] == rest[k - 1];
      }
    }
    forall k1, k2 | 0 <= k1 < k2 < |ls|
      ensures ls[k1].x + |ls[k1].text| < ls[k2].x
    {
      assert ls[k2] == rest[k2 - 1];
      if k1 > 0 {
        assert ls[k1] == rest[k1 - 1];
      }
    }
  }

  /** A label found at `x`, followed by good labels after the cell that
      stops it, makes the labels from `x` on good. */
  lemma RowLabelsCons(l: string, row: seq<bv2>, y: nat, x: nat)
    requires |row| == |l| && x < |l| && LabelEnd(l, row, x, x) != x
    requires GoodRow(l, row, y, LabelEnd(l, row, x, x) + 1, RowLabels(l, row, y, LabelEnd(l, row, x, x) + 1))
    ensures GoodRow(l, row, y, x, RowLabels(l, row, y, x))
  {
    var end := LabelEnd(l, row, x, x);
    var rest := RowLabels(l, row, y, end + 1);
    var head := Text(x, y, l[x..end]);
    assert RowLabels(l, row, y, x) == [head] + rest;
    FirstLabelGood(l, row, y, x);
    GoodRowCons(l, row, y, x, head, rest);
  }

  /** The labels the loop emits for a row are good, disjoint and ordered. */
  lemma {:induction false} RowLabelsGood(l: string, row: seq<bv2>, y: nat, x: nat)
    requires |row| == |l|
    ensures GoodRow(l, row, y, x, RowLabels(l, row, y, x))
    decreases |l| - x
  {
    if x < |l| {
      var end := LabelEnd(l, row, x, x);
      if end != x {
        RowLabelsGood(l, row, y, end + 1);
        RowLabelsCons(l, row, y, x);
      } else {
        RowLabelsGood(l, row, y, x + 1);
      }
    }
  }

  /** Cell `k` lies in one of the labels of `ls`. */
  predicate Covered(ls: seq<Command>, k: int)
  {
    exists i :: 0 <= i < |ls| && ls[i].Text? && ls[i].x <= k < ls[i].x + |ls[i].text|
  }

  /** Every cell from `x` on that is neither a space nor used lies in some label. */
  lemma {:induction false} RowLabelsCover(l: string, row: seq<bv2>, y: nat, x: nat, k: nat)
    requires |row| == |l| && x <= k < |l| && l[k] != ' ' && row[k] == 0
    ensures Covered(RowLabels(l, row, y, x), k)
    decreases |l| - x
  {
    var ls := RowLabels(l, row, y, x);
    var end := LabelEnd(l, row, x, x);
    LabelEndSpec(l, row, x, x, x);
    if end != x {
      if k < end {
        assert ls[0] == Text(x, y, l[x..end]) && |ls[0].text| == end - x;
      } else {
        var rest := RowLabels(l, row, y, end + 1);
        RowLabelsCover(l, row, y, end + 1, k);
        var i :| 0 <= i < |rest| && rest[i].Text? && rest[i].x <= k < rest[i].x + |rest[i].text|;
        assert ls[i + 1] == rest[i];
      }
    } else {
      RowLabelsCover(l, row, y, x + 1, k);
    }
  }

  /** The labels of rows `y..` in row-major order. */
  function TextRows(lines: seq<string>, bits: seq<seq<bv2>>, y: nat): (r: seq<Command>)
    requires |bits| == |lines| && forall i :: 0 <= i < |lines| ==> |bits[i]| == |lines[i]|
    ensures forall k :: 0 <= k < |r| ==> r[k].Text? && y <= r[k].y < |lines|
    decreases |lines| - y
  {
    if y >= |lines| then []
    else RowLabels(lines[y], bits[y], y, 0) + TextRows(lines, bits, y + 1)
  }

  /** Every command of `ts` is a good label of its own row, one of rows
      `y..`, and the labels come row by row, left to right within a row. */
  predicate GoodText(lines: seq<string>, bits: seq<seq<bv2>>, y: nat, ts: seq<Command>)
    requires |bits| == |lines| && forall i :: 0 <= i < |lines| ==> |bits[i]| == |lines[i]|
  {
    GoodLabels(lines, bits, y, ts) && RowMajor(ts)
  }

  /** Every command of `ts` is a good label of its own row, one of rows `y..`. */
  predicate GoodLabels(lines: seq<string>, bits: seq<seq<bv2>>, y: nat, ts: seq<Command>)
    requires |bits| == |lines| && forall i :: 0 <= i < |lines| ==> |bits[i]| == |lines[i]|
  {
    forall k :: 0 <= k < |ts| ==>
      ts[k].Text? && y <= ts[k].y < |lines| && GoodLabel(lines[ts[k].y], bits[ts[k].y], ts[k].y, ts[k])
  }

  /** The labels of `ts` come row by row, left to right within a row, with
      at least one cell between neighbours. */
  predicate RowMajor(ts: seq<Command>)
    requires forall k :: 0 <= k < |ts| ==> ts[k].Text?
  {
    forall k1, k2 :: 0 <= k1 < k2 < |ts| ==>
      ts[k1].y < ts[k2].y || (ts[k1].y == ts[k2].y && ts[k1].x + |ts[k1].text| < ts[k2].x)
  }

  /** The text pass emits good labels only, in row-major order. */
  lemma {:induction false} TextRowsGood(lines: seq<string>, bits: seq<seq<bv2>>, y: nat)
    requires |bits| == |lines| && forall i :: 0 <= i < |lines| ==> |bits[i]| == |lines[i]|
    ensures GoodText(lines, bits, y, TextRows(lines, bits, y))
    decreases |lines| - y
  {
    if y < |lines| {
      var here := RowLabels(lines[y], bits[y], y, 0);
      var later := TextRows(lines, bits, y + 1);
      RowLabelsGood(lines[y], bits[y], y, 0);
      TextRowsGood(lines, bits, y + 1);
      var ts := here + later;
      assert TextRows(lines, bits, y) == ts;
      forall k | 0 <= k < |ts|
        ensures ts[k].Text? && y <= ts[k].y < |lines| && GoodLabel(lines[ts[k].y], bits[ts[k].y], ts[k].y, ts[k])
      {
        if k < |here| {
          assert ts[k] == here[k];
          assert GoodLabel(lines[y], bits[y], y, here[k]);
        } else {
          assert ts[k] == later[k - |here|];
        }
      }
      forall k1, k2 | 0 <= k1 < k2 < |ts|
        ensures ts[k1].y < ts[k2].y || (ts[k1].y == ts[k2].y && ts[k1].x + |ts[k1].text| < ts[k2].x)
      {
        if k2 < |here| {
          assert ts[k1] == here[k1] && ts[k2] == here[k2];
        } else if k1 < |here| {
          assert ts[k1] == here[k1] && ts[k2] == later[k2 - |here|];
          assert GoodLabel(lines[y], bits[y], y, here[k1]);
        } else {
          assert ts[k1] == later[k1 - |here|] && ts[k2] == later[k2 - |here|];
        }
      }
    }
  }
}
