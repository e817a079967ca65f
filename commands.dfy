/** The drawing commands the detector emits, in grid coordinates (column x,
    row y). Pixel scaling, the hand-drawn jitter and the SVG text of each
    command belong to the renderer and are not modelled. */
module Commands {

  datatype Command =
    | Line(x1: int, y1: int, x2: int, y2: int)   // `addLine`
    | Arrow(x: int, y: int, dx: real, dy: real)  // `drawArrow`: anchor and direction
    | Dot(x: int, y: int)                        // `drawDot`
    | Text(x: int, y: int, text: string)         // `addText`

  /** A straight stroke with rational end points. */
  datatype Stroke = Stroke(x1: real, y1: real, x2: real, y2: real)

  /** The two strokes `drawArrow(x, y, dx, dy)` draws: from the anchor back
      by 1.4 times the direction and sideways by the perpendicular
      `(-dy, dx)`, once to each side. */
  function ArrowStrokes(x: int, y: int, dx: real, dy: real): (r: seq<Stroke>)
    ensures |r| == 2
    // both strokes start at the anchor
    ensures forall k :: 0 <= k < 2 ==> r[k].x1 == x as real && r[k].y1 == y as real
    // the chevron is centred on the line through the anchor, 1.4 directions back
    ensures r[0].x2 + r[1].x2 == 2.0 * (x as real - 1.4 * dx)
    ensures r[0].y2 + r[1].y2 == 2.0 * (y as real - 1.4 * dy)
    // its two tips lie on a perpendicular of the direction
    ensures (r[1].x2 - r[0].x2) * dx + (r[1].y2 - r[0].y2) * dy == 0.0
    // one tip on each side of the line, one perpendicular `(-dy, dx)` away from the centre
    ensures r[1].x2 - r[0].x2 == -2.0 * dy && r[1].y2 - r[0].y2 == 2.0 * dx
    // and both strokes have the same length
    ensures (r[0].x2 - r[0].x1) * (r[0].x2 - r[0].x1) + (r[0].y2 - r[0].y1) * (r[0].y2 - r[0].y1)
         == (r[1].x2 - r[1].x1) * (r[1].x2 - r[1].x1) + (r[1].y2 - r[1].y1) * (r[1].y2 - r[1].y1)
  {
    var pdx := -dy;
    var pdy := dx;
    var ax, ay := x as real, y as real;
    [ Stroke(ax, ay, ax - 1.4 * dx - 1.0 * pdx, ay - 1.4 * dy - 1.0 * pdy),
      Stroke(ax, ay, ax - 1.4 * dx + 1.0 * pdx, ay - 1.4 * dy + 1.0 * pdy) ]
  }

  /** Number of `Line` commands in `cmds`. */
  function LineCount(cmds: seq<Command>): nat
  {
    if cmds == [] then 0
    else (if cmds[0].Line? then 1 else 0) + LineCount(cmds[1..])
  }

  lemma {:induction false} LineCountAppend(a: seq<Command>, b: seq<Command>)
    ensures LineCount(a + b) == LineCount(a) + LineCount(b)
  {
    if a == [] {
      assert a + b == b;
    } else {
      assert (a + b)[1..] == a[1..] + b;
      LineCountAppend(a[1..], b);
    }
  }

  /** No command of `cmds` is a `Line`. */
  lemma {:induction false} LineCountNone(cmds: seq<Command>)
    requires forall k :: 0 <= k < |cmds| ==> !cmds[k].Line?
    ensures LineCount(cmds) == 0
  {
    if cmds != [] {
      LineCountNone(cmds[1..]);
    }
  }
}
