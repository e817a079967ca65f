/** Preparation of the character grid: the input split into rows, the rows
    right-padded to a common width, and the column-major view of the grid. */
module Grid {

  /** Every row has length `w`. */
  predicate Rectangular(lines: seq<string>, w: nat)
  {
    forall i :: 0 <= i < |lines| ==> |lines[i]| == w
  }

  /** `contents.split("\n")`: the text between line breaks, in order. A
      trailing line break yields a trailing empty row, and the empty text
      yields one empty row. */
  function Split(s: string): (rows: seq<string>)
    ensures |rows| >= 1
    ensures forall i :: 0 <= i < |rows| ==> '\n' !in rows[i]
  {
    if s == [] then [""]
    else
      var rest := Split(s[1..]);
      if s[0] == '\n' then [""] + rest
      else [[s[0]] + rest[0]] + rest[1..]
  }

  /** The rows written back out with one line break between neighbours. */
  function Join(rows: seq<string>): string
  {
    if rows == [] then ""
    else if |rows| == 1 then rows[0]
    else rows[0] + "\n" + Join(rows[1..])
  }

  /** Splitting loses no text: joining the rows gives back the input. */
  lemma {:induction false} JoinSplit(s: string)
    ensures Join(Split(s)) == s
  {
    if s != [] {
      var rest := Split(s[1..]);
      JoinSplit(s[1..]);
      if s[0] == '\n' {
        assert Split(s)[1..] == rest;
        assert Join(Split(s)) == "" + "\n" + Join(rest);
      } else if |rest| == 1 {
        assert Join(Split(s)) == [s[0]] + rest[0];
      } else {
        var r := Split(s);
        assert r[1..] == rest[1..];
        assert Join(rest) == rest[0] + "\n" + Join(rest[1..]);
        calc {
          Join(r);
          r[0] + "\n" + Join(r[1..]);
          ([s[0]] + rest[0]) + "\n" + Join(rest[1..]);
          [s[0]] + (rest[0] + "\n" + Join(rest[1..]));
          [s[0]] + s[1..];
        }
      }
    }
  }

  /** `lines.reduce((m, l) => Math.max(m, l.length), 0)`: the length of the
      longest row, or 0 when there are no rows. */
  function MaxLen(lines: seq<string>): (m: nat)
    ensures forall i :: 0 <= i < |lines| ==> |lines[i]| <= m
    ensures m == 0 || exists i :: 0 <= i < |lines| && |lines[i]| == m
  {
    if lines == [] then 0
    else
      var front := lines[..|lines| - 1];
      var m := MaxLen(front);
      var n := |lines[|lines| - 1]|;
      assert forall i :: 0 <= i < |front| ==> front[i] == lines[i];
      if m < n then n else m
  }

  /** `" ".repeat(n)` */
  function Spaces(n: nat): (r: string)
    ensures |r| == n
    ensures forall k :: 0 <= k < n ==> r[k] == ' '
  {
    seq(n, _ => ' ')
  }

  /** `padLinesToMax`: every row followed by as many spaces as it takes to
      reach the length of the longest row. */
  function PadLinesToMax(lines: seq<string>): (padded: seq<string>)
    ensures |padded| == |lines|
    ensures Rectangular(padded, MaxLen(lines))
    ensures forall i :: 0 <= i < |lines| ==> padded[i][..|lines[i]|] == lines[i]
    ensures forall i, k :: 0 <= i < |lines| && |lines[i]| <= k < MaxLen(lines) ==> padded[i][k] == ' '
  {
    var w := MaxLen(lines);
    seq(|lines|, i requires 0 <= i < |lines| => lines[i] + Spaces(w - |lines[i]|))
  }

  /** `row` is `orig` followed by spaces. */
  predicate PaddedFrom(orig: string, row: string)
  {
    |orig| <= |row| && row[..|orig|] == orig && forall k :: |orig| <= k < |row| ==> row[k] == ' '
  }

  /** Every padded row is its row as written followed by spaces. */
  lemma PadKeepsRows(lines: seq<string>)
    ensures forall i :: 0 <= i < |lines| ==> PaddedFrom(lines[i], PadLinesToMax(lines)[i])
  {
  }

  /** Padding a grid that is already rectangular changes nothing. */
  lemma PadRectangularIsIdentity(lines: seq<string>, w: nat)
    requires Rectangular(lines, w)
    ensures PadLinesToMax(lines) == lines
  {
    var padded := PadLinesToMax(lines);
    if lines != [] {
      assert |lines[0]| == w;
      assert MaxLen(lines) == w;
      forall i | 0 <= i < |lines|
        ensures padded[i] == lines[i]
      {
        assert padded[i] == padded[i][..|lines[i]|];
      }
    }
  }

  /** Padding is idempotent. */
  lemma PadIdempotent(lines: seq<string>)
    ensures PadLinesToMax(PadLinesToMax(lines)) == PadLinesToMax(lines)
  {
    PadRectangularIsIdentity(PadLinesToMax(lines), MaxLen(lines));
  }

  /** Column `j` of a grid, read top to bottom. */
  function Column(lines: seq<string>, j: nat): (col: string)
    requires forall i :: 0 <= i < |lines| ==> j < |lines[i]|
    ensures |col| == |lines|
    ensures forall i :: 0 <= i < |lines| ==> col[i] == lines[i][j]
  {
    seq(|lines|, i requires 0 <= i < |lines| => lines[i][j])
  }

  /** The column-major view of a rectangular grid of width `w`. */
  function Columns(lines: seq<string>, w: nat): (cols: seq<string>)
    requires Rectangular(lines, w)
    ensures |cols| == w
    ensures forall j :: 0 <= j < w ==> cols[j] == Column(lines, j)
  {
    seq(w, j requires 0 <= j < w => Column(lines, j))
  }

  /** `transpose`: one empty column per character of the first row, then
      each row's characters appended to the columns in turn. */
  method Transpose(lines: seq<string>) returns (rows: seq<string>)
    requires |lines| > 0 && Rectangular(lines, |lines[0]|)
    ensures |rows| == |lines[0]|
    ensures forall j :: 0 <= j < |rows| ==> |rows[j]| == |lines|
    ensures forall j, i :: 0 <= j < |rows| && 0 <= i < |lines| ==> rows[j][i] == lines[i][j]
  {
    var w := |lines[0]|;
    rows := [];
    var k := 0;
    while k < w
      invariant k <= w
      invariant |rows| == k
      invariant forall j :: 0 <= j < k ==> rows[j] == ""
    {
      rows := rows + [""];
      k := k + 1;
    }
    var i := 0;
    while i < |lines|
      invariant i <= |lines|
      invariant |rows| == w
      invariant forall j :: 0 <= j < w ==> |rows[j]| == i
      invariant forall j, i' :: 0 <= j < w && 0 <= i' < i ==> rows[j][i'] == lines[i'][j]
    {
      var l := lines[i];
      var j := 0;
      while j < |l|
        invariant j <= |l| == w
        invariant |rows| == w
        invariant forall j' :: 0 <= j' < j ==> |rows[j']| == i + 1 && rows[j'][i] == l[j']
        invariant forall j' :: j <= j' < w ==> |rows[j']| == i
        invariant forall j', i' :: 0 <= j' < w && 0 <= i' < i ==> rows[j'][i'] == lines[i'][j']
      {
        rows := rows[j := rows[j] + [l[j]]];
        j := j + 1;
      }
      i := i + 1;
    }
  }

  /** The characterisation `Transpose` promises determines the columns. */
  lemma TransposedIsColumns(lines: seq<string>, w: nat, rows: seq<string>)
    requires Rectangular(lines, w)
    requires |rows| == w
    requires forall j :: 0 <= j < w ==> |rows[j]| == |lines|
    requires forall j, i :: 0 <= j < w && 0 <= i < |lines| ==> rows[j][i] == lines[i][j]
    ensures rows == Columns(lines, w)
  {
    var cols := Columns(lines, w);
    forall j | 0 <= j < w
      ensures rows[j] == cols[j]
    {
      assert rows[j] == Column(lines, j);
    }
  }
}
