/** `convertToSVG`: the state it keeps while converting one diagram (the
    padded rows, their transpose, the used-cell bitmap and the command
    list it appends to), the line and arrow detectors, the line-scan loop and
    the text-extraction loop, each proved against its specification on
    values. */
module Diagram {
  import opened Grid
  import opened Commands
  import opened Bitmap
  import opened Runs
  import opened Scan
  import opened Labels

  class Converter {
    const lines: seq<string>     // the padded rows
    const columns: seq<string>   // their transpose
    const height: nat
    const width: nat
    const bitmap: array2<bv2>    // `processedBitmap`, indexed [y, x]
    var out: seq<Command>        // the output `s`, as commands
    ghost var bits: Bits         // the bitmap's contents as a value

    /** The fixed part: a non-empty rectangular grid, its columns, and a
        bitmap of its size. */
    ghost predicate Shape()
    {
      height == |lines| > 0 && width == |columns| && Rectangular(lines, width) &&
      columns == Columns(lines, width) && bitmap.Length0 == height && bitmap.Length1 == width
    }

    /** The fixed part, and `bits` mirrors the bitmap cell by cell. */
    ghost predicate Valid()
      reads this`bits, bitmap
    {
      Shape() && Shaped(lines, width, bits) &&
      forall i, j :: 0 <= i < height && 0 <= j < width ==> bitmap[i, j] == bits[i][j]
    }

    /** The set-up of `convertToSVG`: rows split, padded and transposed, the
        bitmap all clear (the source grows it lazily; a missing entry reads
        as clear), the output empty. */
    constructor (contents: string)
      ensures Valid() && fresh(bitmap)
      ensures lines == PadLinesToMax(Split(contents)) && width == MaxLen(Split(contents))
      ensures bits == Blank(height, width) && out == []
    {
      var padded := PadLinesToMax(Split(contents));
      var cols := Transpose(padded);
      TransposedIsColumns(padded, |cols|, cols);
      lines := padded;
      columns := cols;
      height := |padded|;
      width := |cols|;
      bitmap := new bv2[|padded|, |cols|]((i, j) => 0);
      out := [];
      bits := Blank(|padded|, |cols|);
    }

    function IsUsedHorizontal(x: nat, y: nat): (r: bool)
      reads this`bits, bitmap
      requires Valid() && x < width && y < height
      ensures r == Used(bits[y][x], Horizontal)
    {
      bitmap[y, x] & 1 != 0
    }

    method SetUsedHorizontal(x: nat, y: nat)
      requires Valid() && x < width && y < height
      modifies this`bits, bitmap
      ensures Valid() && bits == SetCell(old(bits), Horizontal, y, x) && out == old(out)
    {
      SetCellAt(bits, Horizontal, y, x);
      bitmap[y, x] := bitmap[y, x] | 1;
      bits := SetCell(bits, Horizontal, y, x);
    }

    function IsUsedVertical(x: nat, y: nat): (r: bool)
      reads this`bits, bitmap
      requires Valid() && x < width && y < height
      ensures r == Used(bits[y][x], Vertical)
    {
      bitmap[y, x] & 2 != 0
    }

    method SetUsedVertical(x: nat, y: nat)
      requires Valid() && x < width && y < height
      modifies this`bits, bitmap
      ensures Valid() && bits == SetCell(old(bits), Vertical, x, y) && out == old(out)
    {
      SetCellAt(bits, Vertical, x, y);
      bitmap[y, x] := bitmap[y, x] | 2;
      bits := SetCell(bits, Vertical, x, y);
    }

    method AddLine(x1: int, y1: int, x2: int, y2: int)
      modifies this`out
      ensures out == old(out) + [Line(x1, y1, x2, y2)]
    {
      out := out + [Line(x1, y1, x2, y2)];
    }

    method AddText(x: int, y: int, t: string)
      modifies this`out
      ensures out == old(out) + [Text(x, y, t)]
    {
      out := out + [Text(x, y, t)];
    }

    method DrawDot(x: int, y: int)
      modifies this`out
      ensures out == old(out) + [Dot(x, y)]
    {
      out := out + [Dot(x, y)];
    }

    /** `drawArrow`: one `Arrow` command, standing for its two strokes
        `ArrowStrokes(x, y, dx, dy)`. */
    method DrawArrow(x: int, y: int, dx: real, dy: real)
      modifies this`out
      ensures out == old(out) + [Arrow(x, y, dx, dy)]
    {
      out := out + [Arrow(x, y, dx, dy)];
    }

    /** The marking loop of `tryDrawHorizontal`: cells `left..right` of row
        `y` set used horizontally. */
    method MarkHorizontal(y: nat, left: nat, right: nat)
      requires Valid() && y < height && left <= right < width
      modifies this`bits, bitmap
      ensures Valid() && bits == Mark(old(bits), Horizontal, y, left, right)
    {
      var i := left;
      while i < right + 1
        invariant left <= i <= right + 1 && Valid()
        invariant bits == Mark(old(bits), Horizontal, y, left, i - 1)
      {
        SetUsedHorizontal(i, y);
        i := i + 1;
      }
    }

    /** The marking loop of `tryDrawVertical`: cells `top..bottom` of column
        `x` set used vertically. */
    method MarkVertical(x: nat, top: nat, bottom: nat)
      requires Valid() && x < width && top <= bottom < height
      modifies this`bits, bitmap
      ensures Valid() && bits == Mark(old(bits), Vertical, x, top, bottom)
    {
      var i := top;
      while i < bottom + 1
        invariant top <= i <= bottom + 1 && Valid()
        invariant bits == Mark(old(bits), Vertical, x, top, i - 1)
      {
        SetUsedVertical(x, i);
        i := i + 1;
      }
    }

    /** The end of `tryDrawHorizontal` for an accepted run on cells
        `left..right` of row `y`: the arrowheads and dots of its ends, then
        the line, lengthened by one cell at an arrowhead. */
    method DecorateHorizontal(line: string, y: nat, left: int, right: int)
      requires 0 <= left < right < |line|
      modifies this`out
      ensures out == old(out) + RunCommands(Horizontal, line, y, left, right)
    {
      var head := line[left];
      var tail := line[right];
      var a, b := left, right;
      // Arrows are lengthened.
      if head == '<' { a := a - 1; }
      if tail == '>' { b := b + 1; }

      ghost var base := out;
      if head == '<' { DrawArrow(a, y, -0.5, 0.0); }
      if head == '*' { DrawDot(a, y); }
      assert out == base + (if head == '<' then [Arrow(a, y, -0.5, 0.0)] else [])
                         + (if head == '*' then [Dot(a, y)] else []);
      ghost var mid := out;
      if tail == '>' { DrawArrow(b, y, 0.5, 0.0); }
      if tail == '*' { DrawDot(b, y); }
      assert out == mid + (if tail == '>' then [Arrow(b, y, 0.5, 0.0)] else [])
                        + (if tail == '*' then [Dot(b, y)] else []);
      AddLine(a, y, b, y);
    }

    /** The end of `tryDrawVertical` for an accepted run on cells
        `top..bottom` of column `x`. */
    method DecorateVertical(column: string, x: nat, top: int, bottom: int)
      requires 0 <= top < bottom < |column|
      modifies this`out
      ensures out == old(out) + RunCommands(Vertical, column, x, top, bottom)
    {
      var head := column[top];
      var tail := column[bottom];
      var a, b := top, bottom;
      // Arrows are lengthened.
      if head == '^' { a := a - 1; }
      if tail == 'v' { b := b + 1; }

      ghost var base := out;
      if head == '^' { DrawArrow(x, a, 0.0, -0.5); }
      if head == '*' { DrawDot(x, a); }
      assert out == base + (if head == '^' then [Arrow(x, a, 0.0, -0.5)] else [])
                         + (if head == '*' then [Dot(x, a)] else []);
      ghost var mid := out;
      if tail == 'v' { DrawArrow(x, b, 0.0, 0.5); }
      if tail == '*' { DrawDot(x, b); }
      assert out == mid + (if tail == 'v' then [Arrow(x, b, 0.0, 0.5)] else [])
                        + (if tail == '*' then [Dot(x, b)] else []);
      AddLine(x, a, x, b);
    }

    /** `tryDrawHorizontal(x, y)` */
    method TryDrawHorizontal(x: nat, y: nat) returns (ok: bool)
      requires Valid() && x < width && y < height
      modifies this, bitmap
      ensures Valid()
      ensures var a := Try(Horizontal, lines[y], old(bits), y, x);
        ok == a.ok && bits == a.bits && out == old(out) + a.cmds
    {
      if IsUsedHorizontal(x, y) {
        return true;
      }
      var left: int := x;
      var line := lines[y];
      var right := left + 1;
      while right < width
        invariant left + 1 <= right <= width
        invariant RunEnd(Horizontal, line, x + 1) == RunEnd(Horizontal, line, right)
      {
        var c := line[right];
        if c != '-' && c != '+' {
          if c == '>' || c == '*' {
            right := right + 1;
          }
          break;
        }
        right := right + 1;
      }
      assert right == RunEnd(Horizontal, line, x + 1);
      right := right - 1;
      assert right == RunRight(Horizontal, line, x);

      if left + 1 >= right {
        return false;
      }

      MarkHorizontal(y, left, right);

      DecorateHorizontal(line, y, left, right);
      ok := true;
    }

    /** `tryDrawVertical(x, y)` */
    method TryDrawVertical(x: nat, y: nat) returns (ok: bool)
      requires Valid() && x < width && y < height
      modifies this, bitmap
      ensures Valid()
      ensures var a := Try(Vertical, columns[x], old(bits), x, y);
        ok == a.ok && bits == a.bits && out == old(out) + a.cmds
    {
      if IsUsedVertical(x, y) {
        return true;
      }
      var top: int := y;
      var column := columns[x];
      assert |column| == height;
      var bottom := top + 1;
      while bottom < height
        invariant top + 1 <= bottom <= height
        invariant RunEnd(Vertical, column, y + 1) == RunEnd(Vertical, column, bottom)
      {
        var c := column[bottom];
        if c != '|' && c != '+' {
          if c == 'v' || c == '*' {
            bottom := bottom + 1;
          }
          break;
        }
        bottom := bottom + 1;
      }
      assert bottom == RunEnd(Vertical, column, y + 1);
      bottom := bottom - 1;
      assert bottom == RunRight(Vertical, column, y);

      if top + 1 >= bottom {
        return false;
      }

      MarkVertical(x, top, bottom);

      DecorateVertical(column, x, top, bottom);
      ok := true;
    }

    /** The body of the line-scan loop for cell `(x, y)`: the detectors its
        character calls for, horizontal first. */
    method ScanCellAt(x: nat, y: nat)
      requires Valid() && x < width && y < height
      modifies this, bitmap
      ensures Valid()
      ensures State(bits, out) == ScanCell(lines, width, State(old(bits), old(out)), x, y)
    {
      ghost var before := State(bits, out);
      ScanCellSteps(lines, width, before, x, y);
      var c := lines[y][x];
      if c == '+' || c == '*' {
        var across := TryDrawHorizontal(x, y);
        ghost var mid := State(bits, out);
        assert mid == TryAt(lines, width, before, Horizontal, x, y);
        var down := TryDrawVertical(x, y);
        assert State(bits, out) == TryAt(lines, width, mid, Vertical, x, y);
      } else if c == '<' || c == '-' {
        var across := TryDrawHorizontal(x, y);
      } else if c == '^' || c == '|' {
        var down := TryDrawVertical(x, y);
      }
    }

    /** One row of the line-scan loop: its cells left to right. */
    method ScanRow(y: nat)
      requires Valid() && y < height
      modifies this, bitmap
      ensures Valid()
      ensures State(bits, out) == ScanRowFrom(lines, width, State(old(bits), old(out)), y, 0)
    {
      ghost var total := ScanRowFrom(lines, width, State(bits, out), y, 0);
      var l := lines[y];
      var x := 0;
      while x < |l|
        invariant x <= |l| == width && Valid()
        invariant total == ScanRowFrom(lines, width, State(bits, out), y, x)
      {
        ScanCellAt(x, y);
        x := x + 1;
      }
    }

    /** The line-scan loop: every cell in row-major order, with the
        detectors its character calls for. */
    method ScanLines()
      requires Valid()
      modifies this, bitmap
      ensures Valid()
      ensures State(bits, out) == ScanRows(lines, width, State(old(bits), old(out)), height)
    {
      var y := 0;
      while y < height
        invariant y <= height && Valid()
        invariant State(bits, out) == ScanRows(lines, width, State(old(bits), old(out)), y)
      {
        ScanRow(y);
        y := y + 1;
      }
    }

    /** `getWord(x)` for row `y`. */
    method GetWord(y: nat, x: nat) returns (e: nat)
      requires Valid() && y < height
      ensures e == WordEnd(lines[y], bits[y], x)
    {
      var l := lines[y];
      e := x;
      while e < |l| && l[e] != ' ' && bitmap[y, e] == 0
        invariant x <= e
        invariant WordEnd(l, bits[y], x) == WordEnd(l, bits[y], e)
        decreases |l| - e
      {
        e := e + 1;
      }
    }

    /** The `while (true)` loop of the text pass, started at cell `x` of row
        `y`: words separated by single spaces accumulated into one label;
        `end` is where the label stops (`x` when there is no word at `x`). */
    method AccumulateLabel(y: nat, x: nat) returns (end: nat)
      requires Valid() && y < height && x < width
      ensures end == LabelEnd(lines[y], bits[y], x, x)
    {
      var l := lines[y];
      ghost var row := bits[y];
      var start := x;
      end := start;
      while true
        invariant x <= end <= start <= |l| + 1 && end <= |l|
        invariant LabelEnd(l, row, x, x) == LabelEnd(l, row, start, end)
        decreases |l| + 1 - start
      {
        var endWord := GetWord(y, start);
        if endWord == start {
          break;
        }
        end := endWord;
        if end < width && bitmap[y, end] != 0 {
          break;
        }
        start := end + 1;
      }
    }

    /** One row of the text pass: a label emitted at its first cell, and the
        scan resumed after the cell that stopped it. */
    method ExtractRow(y: nat)
      requires Valid() && y < height
      modifies this`out
      ensures out == old(out) + RowLabels(lines[y], bits[y], y, 0)
    {
      var l := lines[y];
      ghost var row := bits[y];
      assert |l| == width == |row|;
      var x := 0;
      while x < |l|
        invariant x <= |l| + 1 && Valid() && row == bits[y]
        invariant old(out) + RowLabels(l, row, y, 0) == out + RowLabels(l, row, y, x)
      {
        var end := AccumulateLabel(y, x);
        if x != end {
          ghost var rest := RowLabels(l, row, y, end + 1);
          assert RowLabels(l, row, y, x) == [Text(x, y, l[x..end])] + rest;
          AddText(x, y, l[x..end]);
          assert out + rest == old(out) + RowLabels(l, row, y, 0);
          x := end;
        } else {
          assert RowLabels(l, row, y, x) == RowLabels(l, row, y, x + 1);
        }
        x := x + 1;
      }
    }

    /** The text-extraction loop: the labels of every row, row by row. */
    method ExtractText()
      requires Valid()
      modifies this`out
      ensures Valid() && out == old(out) + TextRows(lines, bits, 0)
    {
      var y := 0;
      while y < height
        invariant y <= height
        invariant old(out) + TextRows(lines, bits, 0) == out + TextRows(lines, bits, y)
      {
        ghost var here := RowLabels(lines[y], bits[y], y, 0);
        ghost var later := TextRows(lines, bits, y + 1);
        assert TextRows(lines, bits, y) == here + later;
        ExtractRow(y);
        assert out + later == old(out) + TextRows(lines, bits, 0);
        y := y + 1;
      }
    }
  }

  /** What `convertToSVG` draws for `contents`: the commands of the line
      scan (lines, arrowheads, dots), then the text labels. Every label
      belongs to a row of the input. */
  function Convert(contents: string): (r: seq<Command>)
    ensures forall k :: 0 <= k < |r| && r[k].Text? ==> 0 <= r[k].y < |Split(contents)|
  {
    var lines := PadLinesToMax(Split(contents));
    var w := MaxLen(Split(contents));
    var scanned := ScanRows(lines, w, State(Blank(|lines|, w), []), |lines|);
    ScanGrows(lines, w, State(Blank(|lines|, w), []), |lines|);
    scanned.out + TextRows(lines, scanned.bits, 0)
  }

  /** `c` is a label taken from the text `orig`: a piece starting at column
      `c.x`, neither starting nor ending with a space, and without two spaces
      in a row. */
  predicate PieceOf(orig: string, c: Command)
  {
    c.Text? && 0 <= c.x && 0 < |c.text| && c.x + |c.text| <= |orig| &&
    c.text == orig[c.x..c.x + |c.text|] &&
    c.text[0] != ' ' && c.text[|c.text| - 1] != ' ' &&
    forall i :: 0 <= i < |c.text| - 1 ==> !(c.text[i] == ' ' && c.text[i + 1] == ' ')
  }

  /** A label of a row padded with spaces never reaches into the padding,
      so it is a piece of the row as written. */
  lemma PaddedLabel(orig: string, row: string, cells: seq<bv2>, y: nat, c: Command)
    requires |row| == |cells| && PaddedFrom(orig, row) && GoodLabel(row, cells, y, c)
    ensures PieceOf(orig, c)
  {
    var a, b := c.x, c.x + |c.text|;
    assert row[a..b] == row[..|orig|][a..b];
    var t := c.text;
    forall i | 0 <= i < |t| - 1
      ensures !(t[i] == ' ' && t[i + 1] == ' ')
    {
      assert t[i] == row[a + i] && t[i + 1] == row[a + i + 1];
    }
  }

  /** The output of the two passes: no text from the scan, then good
      labels of the padded rows. */
  predicate TwoPasses(rows: seq<string>, lines: seq<string>, bits: Bits, out: seq<Command>, ts: seq<Command>)
  {
    |lines| == |rows| && |bits| == |lines| && (forall i :: 0 <= i < |lines| ==> |bits[i]| == |lines[i]|) &&
    (forall i :: 0 <= i < |rows| ==> PaddedFrom(rows[i], lines[i])) &&
    (forall j :: 0 <= j < |out| ==> !out[j].Text?) &&
    GoodLabels(lines, bits, 0, ts)
  }

  /** The scan emits no text, and the text pass emits good labels of the
      padded rows. */
  lemma ConvertParts(contents: string)
    ensures var rows := Split(contents);
      var lines := PadLinesToMax(rows);
      var w := MaxLen(rows);
      var scanned := ScanRows(lines, w, State(Blank(|lines|, w), []), |lines|);
      var ts := TextRows(lines, scanned.bits, 0);
      Convert(contents) == scanned.out + ts && TwoPasses(rows, lines, scanned.bits, scanned.out, ts)
  {
    var rows := Split(contents);
    var lines := PadLinesToMax(rows);
    var w := MaxLen(rows);
    var st := State(Blank(|lines|, w), []);
    ScanGrows(lines, w, st, |lines|);
    TextRowsGood(lines, ScanRows(lines, w, st, |lines|).bits, 0);
    PadKeepsRows(rows);
  }

  /** Text after drawing, and each label a piece of its input row. */
  lemma TwoPassesLabels(rows: seq<string>, lines: seq<string>, bits: Bits, out: seq<Command>, ts: seq<Command>)
    requires TwoPasses(rows, lines, bits, out, ts)
    ensures forall k1, k2 :: 0 <= k1 < k2 < |out + ts| && (out + ts)[k1].Text? ==> (out + ts)[k2].Text?
    ensures forall k :: 0 <= k < |out + ts| && (out + ts)[k].Text? ==>
      0 <= (out + ts)[k].y < |rows| && PieceOf(rows[(out + ts)[k].y], (out + ts)[k])
  {
    var cmds := out + ts;
    forall k | 0 <= k < |cmds| && cmds[k].Text?
      ensures 0 <= cmds[k].y < |rows| && PieceOf(rows[cmds[k].y], cmds[k])
    {
      var c := ts[k - |out|];
      assert cmds[k] == c;
      PaddedLabel(rows[c.y], lines[c.y], bits[c.y], c.y, c);
    }
    forall k1, k2 | 0 <= k1 < k2 < |cmds| && cmds[k1].Text?
      ensures cmds[k2].Text?
    {
      assert cmds[k2] == ts[k2 - |out|];
    }
  }

  /** Lines, arrowheads and dots are all drawn before the first label, so
      labels are painted on top of the drawing; and every label is a piece
      of the input: it starts at its own cell of the row it belongs to,
      neither starts nor ends with a space, and holds no two spaces in a row. */
  lemma ConvertLabels(contents: string)
    ensures forall k1, k2 :: 0 <= k1 < k2 < |Convert(contents)| && Convert(contents)[k1].Text? ==>
      Convert(contents)[k2].Text?
    ensures forall k :: 0 <= k < |Convert(contents)| && Convert(contents)[k].Text? ==>
      0 <= Convert(contents)[k].y < |Split(contents)| &&
      PieceOf(Split(contents)[Convert(contents)[k].y], Convert(contents)[k])
  {
    var rows := Split(contents);
    var lines := PadLinesToMax(rows);
    var w := MaxLen(rows);
    var scanned := ScanRows(lines, w, State(Blank(|lines|, w), []), |lines|);
    ConvertParts(contents);
    TwoPassesLabels(rows, lines, scanned.bits, scanned.out, TextRows(lines, scanned.bits, 0));
  }

  /** `convertToSVG(contents)` with the output as commands. */
  method ConvertToSVG(contents: string) returns (cmds: seq<Command>)
    ensures cmds == Convert(contents)
  {
    var c := new Converter(contents);
    c.ScanLines();
    c.ExtractText();
    cmds := c.out;
  }
}
