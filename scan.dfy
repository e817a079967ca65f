/** The line-scan loop of `convertToSVG`: every cell visited in row-major
    order, and the detectors its character calls for tried in turn. */
module Scan {
  import opened Grid
  import opened Commands
  import opened Bitmap
  import opened Runs

  /** The detectors a character triggers, in the order they are tried:
      `+` and `*` both (horizontal first), `<` and `-` horizontal only,
      `^` and `|` vertical only, anything else none. */
  function Attempts(c: char): (r: seq<Axis>)
    ensures Horizontal in r <==> c in "+*<-"
    ensures Vertical in r <==> c in "+*^|"
    ensures |r| <= 2 && (|r| == 2 ==> r == [Horizontal, Vertical])
  {
    if c == '+' || c == '*' then [Horizontal, Vertical]
    else if c == '<' || c == '-' then [Horizontal]
    else if c == '^' || c == '|' then [Vertical]
    else []
  }

  /** The detector's bitmap and the commands emitted so far. */
  datatype State = State(bits: Bits, out: seq<Command>)

  /** A non-empty rectangular grid of width `w` and a bitmap of its shape. */
  predicate Shaped(lines: seq<string>, w: nat, bits: Bits)
  {
    |lines| > 0 && Rectangular(lines, w) && IsBitmap(bits) && |bits| == |lines| && Width(bits) == w
  }

  /** One detector tried on cell `(x, y)`: the horizontal one on row `y`, the
      vertical one on column `x`. */
  function TryAt(lines: seq<string>, w: nat, st: State, axis: Axis, x: nat, y: nat): (r: State)
    requires Shaped(lines, w, st.bits) && x < w && y < |lines|
    ensures Shaped(lines, w, r.bits)
  {
    var a := if axis == Horizontal then Try(Horizontal, lines[y], st.bits, y, x)
             else Try(Vertical, Column(lines, x), st.bits, x, y);
    State(a.bits, st.out + a.cmds)
  }

  /** The detectors of `axes` tried on cell `(x, y)` one after the other. */
  function TryAll(lines: seq<string>, w: nat, st: State, axes: seq<Axis>, x: nat, y: nat): (r: State)
    requires Shaped(lines, w, st.bits) && x < w && y < |lines|
    ensures Shaped(lines, w, r.bits)
    decreases |axes|
  {
    if axes == [] then st
    else TryAll(lines, w, TryAt(lines, w, st, axes[0], x, y), axes[1..], x, y)
  }

  /** The body of the scan loop for cell `(x, y)`. */
  function ScanCell(lines: seq<string>, w: nat, st: State, x: nat, y: nat): (r: State)
    requires Shaped(lines, w, st.bits) && x < w && y < |lines|
    ensures Shaped(lines, w, r.bits)
  {
    TryAll(lines, w, st, Attempts(lines[y][x]), x, y)
  }

  /** `ScanCell` unfolded into the source's `if` chain. */
  lemma ScanCellSteps(lines: seq<string>, w: nat, st: State, x: nat, y: nat)
    requires Shaped(lines, w, st.bits) && x < w && y < |lines|
    ensures var c := lines[y][x];
      ScanCell(lines, w, st, x, y) ==
        if c == '+' || c == '*' then TryAt(lines, w, TryAt(lines, w, st, Horizontal, x, y), Vertical, x, y)
        else if c == '<' || c == '-' then TryAt(lines, w, st, Horizontal, x, y)
        else if c == '^' || c == '|' then TryAt(lines, w, st, Vertical, x, y)
        else st
  {
    var axes := Attempts(lines[y][x]);
    if |axes| == 2 {
      var mid := TryAt(lines, w, st, Horizontal, x, y);
      assert axes[1..] == [Vertical] && [Vertical][1..] == [];
      assert TryAll(lines, w, mid, [Vertical], x, y) == TryAll(lines, w, TryAt(lines, w, mid, Vertical, x, y), [], x, y);
    } else if |axes| == 1 {
      var r := TryAt(lines, w, st, axes[0], x, y);
      assert axes[1..] == [];
      assert TryAll(lines, w, st, axes, x, y) == TryAll(lines, w, r, [], x, y) == r;
    }
  }

  /** The inner loop of the scan: cells `x..` of row `y`. */
  function ScanRowFrom(lines: seq<string>, w: nat, st: State, y: nat, x: nat): (r: State)
    requires Shaped(lines, w, st.bits) && y < |lines| && x <= w
    ensures Shaped(lines, w, r.bits)
    decreases w - x
  {
    if x == w then st
    else ScanRowFrom(lines, w, ScanCell(lines, w, st, x, y), y, x + 1)
  }

  /** The outer loop of the scan after its first `y` rows. */
  function ScanRows(lines: seq<string>, w: nat, st: State, y: nat): (r: State)
    requires Shaped(lines, w, st.bits) && y <= |lines|
    ensures Shaped(lines, w, r.bits)
  {
    if y == 0 then st
    else ScanRowFrom(lines, w, ScanRows(lines, w, st, y - 1), y - 1, 0)
  }

  /** `b` is `a` followed by line, arrowhead and dot commands only. */
  predicate ExtendsWithoutText(a: seq<Command>, b: seq<Command>)
  {
    |a| <= |b| && b[..|a|] == a && forall k :: |a| <= k < |b| ==> !b[k].Text?
  }

  /** `b` is `a` with bits added and drawing commands appended. */
  predicate Advances(a: State, b: State)
  {
    Grows(a.bits, b.bits) && ExtendsWithoutText(a.out, b.out)
  }

  lemma AdvancesTransitive(a: State, b: State, c: State)
    requires Advances(a, b) && Advances(b, c)
    ensures Advances(a, c)
  {
    GrowsTransitive(a.bits, b.bits, c.bits);
    assert c.out[..|a.out|] == c.out[..|b.out|][..|a.out|];
  }

  lemma AdvancesReflexive(a: State)
    requires IsBitmap(a.bits)
    ensures Advances(a, a)
  {
    assert a.out[..|a.out|] == a.out;
  }

  /** One detector only adds bits and appends drawing commands. */
  lemma TryAtGrows(lines: seq<string>, w: nat, st: State, axis: Axis, x: nat, y: nat)
    requires Shaped(lines, w, st.bits) && x < w && y < |lines|
    ensures var r := TryAt(lines, w, st, axis, x, y);
      Advances(st, r)
  {
    var s := if axis == Horizontal then lines[y] else Column(lines, x);
    var fixed, start := if axis == Horizontal then y else x, if axis == Horizontal then x else y;
    var a := Try(axis, s, st.bits, fixed, start);
    assert TryAt(lines, w, st, axis, x, y) == State(a.bits, st.out + a.cmds);
    TryGrows(axis, s, st.bits, fixed, start);
    if a.cmds != [] {
      RunDecoration(axis, s, fixed, start, RunRight(axis, s, start));
    }
    assert (st.out + a.cmds)[..|st.out|] == st.out;
  }

  lemma {:induction false} TryAllGrows(lines: seq<string>, w: nat, st: State, axes: seq<Axis>, x: nat, y: nat)
    requires Shaped(lines, w, st.bits) && x < w && y < |lines|
    ensures var r := TryAll(lines, w, st, axes, x, y);
      Advances(st, r)
    decreases |axes|
  {
    if axes != [] {
      var mid := TryAt(lines, w, st, axes[0], x, y);
      var r := TryAll(lines, w, mid, axes[1..], x, y);
      TryAtGrows(lines, w, st, axes[0], x, y);
      TryAllGrows(lines, w, mid, axes[1..], x, y);
      AdvancesTransitive(st, mid, r);
    } else {
      AdvancesReflexive(st);
    }
  }

  /** A row of the scan only adds bits, and appends lines, arrowheads and
      dots. */
  lemma {:induction false} RowGrows(lines: seq<string>, w: nat, st: State, y: nat, x: nat)
    requires Shaped(lines, w, st.bits) && y < |lines| && x <= w
    ensures var r := ScanRowFrom(lines, w, st, y, x);
      Advances(st, r)
    decreases w - x
  {
    if x == w {
      AdvancesReflexive(st);
    } else {
      var mid := ScanCell(lines, w, st, x, y);
      var r := ScanRowFrom(lines, w, mid, y, x + 1);
      TryAllGrows(lines, w, st, Attempts(lines[y][x]), x, y);
      RowGrows(lines, w, mid, y, x + 1);
      AdvancesTransitive(st, mid, r);
    }
  }

  /** Scanning row `y - 1` after the rows before it advances the state. */
  lemma RowsStepAdvances(lines: seq<string>, w: nat, st: State, y: nat)
    requires Shaped(lines, w, st.bits) && 0 < y <= |lines|
    ensures Advances(ScanRows(lines, w, st, y - 1), ScanRows(lines, w, st, y))
  {
    RowGrows(lines, w, ScanRows(lines, w, st, y - 1), y - 1, 0);
  }

  /** The scan only adds bits, and the commands it emits are lines,
      arrowheads and dots appended after what was there. */
  lemma {:induction false} ScanGrows(lines: seq<string>, w: nat, st: State, y: nat)
    requires Shaped(lines, w, st.bits) && y <= |lines|
    ensures Advances(st, ScanRows(lines, w, st, y))
  {
    if y == 0 {
      AdvancesReflexive(st);
    } else {
      ScanGrows(lines, w, st, y - 1);
      RowsStepAdvances(lines, w, st, y);
      AdvancesTransitive(st, ScanRows(lines, w, st, y - 1), ScanRows(lines, w, st, y));
    }
  }

  /** Cell `(x, y)` is used in every orientation its character triggers,
      unless the run starting there in that orientation is too short. */
  predicate Consumed(lines: seq<string>, w: nat, bits: Bits, x: nat, y: nat)
    requires Shaped(lines, w, bits) && x < w && y < |lines|
  {
    (Horizontal in Attempts(lines[y][x]) ==>
       Used(bits[y][x], Horizontal) || !Accepts(Horizontal, lines[y], x)) &&
    (Vertical in Attempts(lines[y][x]) ==>
       Used(bits[y][x], Vertical) || !Accepts(Vertical, Column(lines, x), y))
  }

  lemma ConsumedGrows(lines: seq<string>, w: nat, a: Bits, b: Bits, x: nat, y: nat)
    requires Shaped(lines, w, a) && Shaped(lines, w, b) && x < w && y < |lines|
    requires Consumed(lines, w, a, x, y) && Grows(a, b)
    ensures Consumed(lines, w, b, x, y)
  {
    assert a[y][x] | b[y][x] == b[y][x];
  }

  /** After the body of the scan loop, its own cell is consumed. */
  lemma ScanCellConsumes(lines: seq<string>, w: nat, st: State, x: nat, y: nat)
    requires Shaped(lines, w, st.bits) && x < w && y < |lines|
    ensures Consumed(lines, w, ScanCell(lines, w, st, x, y).bits, x, y)
  {
    var axes := Attempts(lines[y][x]);
    var col := Column(lines, x);
    if |axes| == 2 {
      var mid := TryAt(lines, w, st, Horizontal, x, y);
      TryConsumes(Horizontal, lines[y], st.bits, y, x);
      TryConsumes(Vertical, col, mid.bits, x, y);
      TryGrows(Vertical, col, mid.bits, x, y);
      var r := TryAt(lines, w, mid, Vertical, x, y);
      assert mid.bits[y][x] & 1 == r.bits[y][x] & 1;
      assert axes[1..] == [Vertical] && [Vertical][1..] == [];
      assert TryAll(lines, w, mid, [Vertical], x, y) == TryAll(lines, w, r, [], x, y) == r;
    } else if axes == [Horizontal] {
      TryConsumes(Horizontal, lines[y], st.bits, y, x);
      var r := TryAt(lines, w, st, Horizontal, x, y);
      assert axes[1..] == [];
      assert TryAll(lines, w, st, axes, x, y) == TryAll(lines, w, r, [], x, y) == r;
    } else if axes == [Vertical] {
      TryConsumes(Vertical, col, st.bits, x, y);
      var r := TryAt(lines, w, st, Vertical, x, y);
      assert axes[1..] == [];
      assert TryAll(lines, w, st, axes, x, y) == TryAll(lines, w, r, [], x, y) == r;
    }
  }

  /** A cell of row `y` at or after `x` is consumed once the row is scanned. */
  lemma {:induction false} RowConsumes(lines: seq<string>, w: nat, st: State, y: nat, x: nat, j: nat)
    requires Shaped(lines, w, st.bits) && y < |lines| && x <= j < w
    ensures Consumed(lines, w, ScanRowFrom(lines, w, st, y, x).bits, j, y)
    decreases w - x
  {
    var mid := ScanCell(lines, w, st, x, y);
    var r := ScanRowFrom(lines, w, mid, y, x + 1);
    if j == x {
      ScanCellConsumes(lines, w, st, x, y);
      RowGrows(lines, w, mid, y, x + 1);
      ConsumedGrows(lines, w, mid.bits, r.bits, x, y);
    } else {
      RowConsumes(lines, w, mid, y, x + 1, j);
    }
  }

  /** Once row `y - 1` is scanned, its cells are consumed. */
  lemma LastRowConsumed(lines: seq<string>, w: nat, st: State, y: nat, j: nat)
    requires Shaped(lines, w, st.bits) && 0 < y <= |lines| && j < w
    ensures Consumed(lines, w, ScanRows(lines, w, st, y).bits, j, y - 1)
  {
    RowConsumes(lines, w, ScanRows(lines, w, st, y - 1), y - 1, 0, j);
  }

  /** Scanning row `y - 1` keeps every consumed cell consumed. */
  lemma RowKeepsConsumed(lines: seq<string>, w: nat, st: State, y: nat, i: nat, j: nat)
    requires Shaped(lines, w, st.bits) && 0 < y <= |lines| && i < |lines| && j < w
    requires Consumed(lines, w, ScanRows(lines, w, st, y - 1).bits, j, i)
    ensures Consumed(lines, w, ScanRows(lines, w, st, y).bits, j, i)
  {
    RowsStepAdvances(lines, w, st, y);
    ConsumedGrows(lines, w, ScanRows(lines, w, st, y - 1).bits, ScanRows(lines, w, st, y).bits, j, i);
  }

  /** A cell of one of the first `y` rows is consumed once those rows are scanned. */
  lemma {:induction false} ScanRowsConsume(lines: seq<string>, w: nat, st: State, y: nat, i: nat, j: nat)
    requires Shaped(lines, w, st.bits) && i < y <= |lines| && j < w
    ensures Consumed(lines, w, ScanRows(lines, w, st, y).bits, j, i)
  {
    if i == y - 1 {
      LastRowConsumed(lines, w, st, y, j);
    } else {
      ScanRowsConsume(lines, w, st, y - 1, i, j);
      RowKeepsConsumed(lines, w, st, y, i, j);
    }
  }

  /** After the whole scan, every cell whose character starts a detector is
      used in that orientation unless its run there is too short: no run the
      detectors accept is left unmarked. */
  lemma ScanConsumesRuns(lines: seq<string>, w: nat, st: State)
    requires Shaped(lines, w, st.bits)
    ensures var r := ScanRows(lines, w, st, |lines|);
      forall i, j :: 0 <= i < |lines| && 0 <= j < w ==> Consumed(lines, w, r.bits, j, i)
  {
    forall i, j | 0 <= i < |lines| && 0 <= j < w
      ensures Consumed(lines, w, ScanRows(lines, w, st, |lines|).bits, j, i)
    {
      ScanRowsConsume(lines, w, st, |lines|, i, j);
    }
  }
}
