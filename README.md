# shaky-diagram: the line and text detector

shaky-diagram turns an ASCII-art diagram into a hand-drawn-looking SVG. Its
core is `convertToSVG` in `src/index.ts`. This project models that function
and proves properties of the model.

`convertToSVG` works in four steps:

1. It splits the input into rows and pads every row with spaces to the
   length of the longest one.
2. It transposes the grid, so that vertical runs can be read along a column.
3. It scans every cell in row-major order. A cell's character decides
   which line detectors are tried on it:
   - `+` and `*` try the horizontal detector, then the vertical one;
   - `<` and `-` try the horizontal detector only;
   - `^` and `|` try the vertical detector only.

   A detector (`tryDrawHorizontal`, `tryDrawVertical`) follows the run of
   line characters from the cell. It rejects runs with nothing between
   their two ends. For an accepted run it:
   - marks the run's cells used in its orientation, in a two-bit-per-cell
     bitmap;
   - emits an arrowhead for each arrowhead end, pointing outwards, and a
     dot for each `*` end;
   - emits the line, lengthened by one cell at each arrowhead end.
4. It makes a text pass. In each row, the cells that are neither spaces nor
   used are grouped into labels. A label is made of words separated by
   single spaces, and it stops at a used cell, at a double space, or at the
   end of the row.

The output SVG is modelled as a list of drawing commands in grid
coordinates: `Line`, `Arrow`, `Dot` and `Text`. An `Arrow(x, y, dx, dy)`
command stands for the two strokes `drawArrow(x, y, dx, dy)` draws, which
`Commands.ArrowStrokes(x, y, dx, dy)` gives.

The model is split into these modules:

- `Grid` (`grid.dfy`): splitting, padding and transposing the grid.
- `Commands` (`commands.dfy`): the commands, and the two strokes of an
  arrowhead.
- `Bitmap` (`bitmap.dfy`): the used-cell flags as values.
- `Runs` (`runs.dfy`): one detector attempt as a function on values.
- `Scan` (`scan.dfy`): the row-major scan as a fold, and what it
  guarantees.
- `Labels` (`labels.dfy`): the text pass as functions, and what it
  guarantees.
- `Diagram` (`diagram.dfy`): the imperative converter. Class `Converter`
  holds the padded rows, their columns, the bitmap (an `array2<bv2>`) and
  the output. Its methods follow the source's loops and are proved equal
  to the functions above. `ConvertToSVG` runs the whole conversion.

The main results:

- `Runs.TryVerdict`: an attempt succeeds iff its cell was already used or
  its run is long enough. A used cell or a rejected run changes nothing.
- `Runs.TryMarksRun` and `Runs.TryGrows`: an accepted run marks exactly its
  own span, only with its own orientation's bit, and never clears a bit.
- `Runs.RunDecoration` and `Runs.RunEndDecorations`: an accepted run draws
  exactly one line, last. Each end gets its own decoration: an outward
  arrowhead iff that end is an arrowhead, a dot iff that end is a `*`, and
  one command per decorated end.
- `Scan.ScanConsumesRuns`: after the scan, each cell that triggers a
  detector is used in that orientation, unless its run there is too short.
- `Labels.RowLabelsGood`, `Labels.RowLabelsCover` and `Labels.TextRowsGood`:
  - every label is a clean, maximal piece of its row;
  - labels are disjoint and in row-major order;
  - every unused non-space cell lies in a label.
- `Diagram.ConvertLabels`: in the whole output, every label comes after
  every line, arrowhead and dot. Every label is a piece of the input row as
  written, never reaching into the padding.

## Model

| member | source | states |
|---|---|---|
| `Grid.Split` | src/index.ts:70 | `contents.split("\n")` gives at least one row, and no row holds a line break |
| `Grid.JoinSplit` | src/index.ts:70 | Splitting loses nothing: the rows joined with line breaks give back the input |
| `Grid.MaxLen` | src/index.ts:53 | The reduce gives a bound on every row's length, reached by some row (or 0 when there are no rows) |
| `Grid.Spaces` | src/index.ts:54 | `" ".repeat(n)` is `n` characters, all spaces |
| `Grid.PadLinesToMax` | src/index.ts:52-55 | Padding keeps the number of rows and gives a rectangular grid of the maximal width. Each row keeps its text as a prefix and is followed by spaces only |
| `Grid.PadKeepsRows` | src/index.ts:52-55 | Every padded row is its original row followed by spaces |
| `Grid.PadRectangularIsIdentity` | src/index.ts:52-55 | Padding an already rectangular grid changes nothing |
| `Grid.PadIdempotent` | src/index.ts:52-55 | Padding twice equals padding once |
| `Grid.Column` | src/index.ts:57-66 | Column `j` has one character per row, row `i`'s character `j` |
| `Grid.Columns` | src/index.ts:57-66 | The column view of a width-`w` grid has `w` columns, each the grid's column |
| `Grid.Transpose` | src/index.ts:57-66 | The loops build as many rows as the first line has characters. Each has one character per line, with `rows[j][i] == lines[i][j]` |
| `Grid.TransposedIsColumns` | src/index.ts:57-66 | That characterisation determines the result: it equals `Columns` |
| `Commands.ArrowStrokes` | src/index.ts:154-159 | `drawArrow`'s two strokes both start at the anchor and are equally long. Their tips are symmetric about the point 1.4 directions back, on a perpendicular of the direction. They lie one perpendicular `(-dy, dx)` to either side of that point, so the tips are `2 * (-dy, dx)` apart |
| `Bitmap.Blank` | src/index.ts:74 | The bitmap before the scan has the grid's shape with every cell clear |
| `Bitmap.Used` | src/index.ts:102-104 | A flag word is used horizontally iff it is 1 or 3, and vertically iff it is 2 or 3, the `& 1` and `& 2` tests of the source (lines 113-115 for the vertical one) |
| `Bitmap.SetCell` | src/index.ts:106-122 | Setting a cell keeps the bitmap's shape |
| `Bitmap.SetCellAt` | src/index.ts:106-122 | `setUsedHorizontal`/`setUsedVertical` or the orientation's bit into that one cell and change no other cell |
| `Bitmap.Mark` | src/index.ts:177-179 | Marking a run's cells keeps the bitmap's shape |
| `Bitmap.MarkAt` | src/index.ts:177-179 | The marking loop ors the orientation's bit into exactly the cells of its span |
| `Bitmap.MarkGrows` | src/index.ts:212-214 | Marking only adds bits, and leaves the other orientation's bit of every cell as it was |
| `Diagram.Converter.IsUsedHorizontal` | src/index.ts:102-104 | The result is whether the cell has the horizontal bit |
| `Diagram.Converter.IsUsedVertical` | src/index.ts:113-115 | The result is whether the cell has the vertical bit |
| `Diagram.Converter.SetUsedHorizontal` | src/index.ts:106-111 | The array cell and its value mirror get the horizontal bit or-ed in, and the output is unchanged |
| `Diagram.Converter.SetUsedVertical` | src/index.ts:117-122 | The array cell and its value mirror get the vertical bit or-ed in, and the output is unchanged |
| `Diagram.Converter.AddLine` | src/index.ts:79-95 | Appends one `Line` command with the given end points |
| `Diagram.Converter.AddText` | src/index.ts:97-100 | Appends one `Text` command at the given cell |
| `Diagram.Converter.DrawDot` | src/index.ts:124-152 | Appends one `Dot` command at the given cell |
| `Diagram.Converter.DrawArrow` | src/index.ts:154-159 | Appends one `Arrow` command with the given anchor and direction |
| `Runs.RunEnd` | src/index.ts:165-172 | Where the scanning loop stops: every cell before the last is a body character, and the last is a body character or an absorbed cap. The loop could go no further |
| `Runs.RunEndUnique` | src/index.ts:165-172 | Those conditions single out the stopping point |
| `Runs.RunRight` | src/index.ts:165-173 | After `right--`: the run's inner cells are body characters and its last cell is a body character or a cap. The run cannot be extended |
| `Runs.RunCommands` | src/index.ts:181-192 | The decoration tail of an accepted run, in the source's order: head decoration, tail decoration, then the line (lines 216-227 for the vertical detector). One to three commands, the last one a line |
| `Runs.Accepts` | src/index.ts:175 | The negation of `left + 1 >= right` (line 210 for the vertical detector). An accepted run lies inside the row and its second cell is a body character |
| `Runs.RunDecoration` | src/index.ts:181-192 | An accepted run draws exactly one line, last, lengthened at arrowhead ends. It draws an arrowhead iff an end is an arrowhead (pointing outwards) and a dot iff an end is `*`, each at an end of the line, and no text |
| `Runs.RunEndDecorations` | src/index.ts:184-191 | An outward arrowhead one cell before the head iff the head is the head arrowhead, one after the tail iff the tail is the tail arrowhead. A dot on the head cell iff the head is `*`, on the tail cell iff the tail is `*`. Besides the line, exactly one command per decorated end |
| `Runs.Try` | src/index.ts:161-229 | An attempt keeps the bitmap's shape |
| `Runs.TryVerdict` | src/index.ts:161-175 | `true` iff the first cell was used in the orientation or the run is long enough. A used first cell or a rejected run leaves the bitmap alone and draws nothing |
| `Runs.TryMarksRun` | src/index.ts:175-179 | An accepted run marks exactly its cells from the start to `right` with its orientation's bit |
| `Runs.TryGrows` | src/index.ts:161-229 | An attempt never clears a bit and never changes the other orientation's bit |
| `Runs.TryConsumes` | src/index.ts:161-179 | After an attempt its first cell is used in its orientation, unless the run there is too short |
| `Diagram.Converter.MarkHorizontal` | src/index.ts:177-179 | The loop leaves the bitmap as `Mark` of the old one over `left..right` of the row |
| `Diagram.Converter.MarkVertical` | src/index.ts:212-214 | The loop leaves the bitmap as `Mark` of the old one over `top..bottom` of the column |
| `Diagram.Converter.DecorateHorizontal` | src/index.ts:181-192 | Appends exactly `RunCommands` of the run: arrowheads, dots, then the lengthened line |
| `Diagram.Converter.DecorateVertical` | src/index.ts:216-227 | Appends exactly `RunCommands` of the run in the column |
| `Diagram.Converter.TryDrawHorizontal` | src/index.ts:161-194 | The return value, the new bitmap and the appended commands are those of `Try` on the row, so `TryVerdict`, `TryMarksRun`, `TryGrows` and `RunDecoration` hold of the method |
| `Diagram.Converter.TryDrawVertical` | src/index.ts:196-229 | As for the horizontal detector, on the cell's column |
| `Scan.Attempts` | src/index.ts:238-245 | The horizontal detector is tried iff the character is one of `+*<-`, and the vertical one iff it is `+`, `*`, `^` or a vertical bar. When both are tried, the horizontal one goes first |
| `Scan.TryAt` | src/index.ts:239-244 | One detector on a cell keeps the bitmap's shape |
| `Scan.TryAll` | src/index.ts:239-244 | The detectors of a cell in turn keep the bitmap's shape |
| `Scan.ScanCell` | src/index.ts:237-245 | The loop body keeps the bitmap's shape |
| `Scan.ScanCellSteps` | src/index.ts:237-245 | The loop body is the source's `if` chain over the character |
| `Scan.ScanRowFrom` | src/index.ts:235-246 | Scanning the rest of a row keeps the bitmap's shape |
| `Scan.ScanRows` | src/index.ts:232-247 | Scanning the first `y` rows keeps the bitmap's shape |
| `Scan.TryAtGrows` | src/index.ts:239-244 | One detector only adds bits and appends non-text commands |
| `Scan.TryAllGrows` | src/index.ts:239-244 | The detectors of a cell only add bits and append non-text commands |
| `Scan.RowGrows` | src/index.ts:235-246 | A row of the scan only adds bits and appends non-text commands |
| `Scan.RowsStepAdvances` | src/index.ts:232-247 | Each row of the outer loop only adds bits and appends non-text commands |
| `Scan.ScanGrows` | src/index.ts:232-247 | The whole scan only adds bits. Its commands are lines, arrowheads and dots appended after the earlier output |
| `Scan.ScanCellConsumes` | src/index.ts:237-245 | After the loop body, its cell is used in every orientation its character triggers, unless that run is too short |
| `Scan.ConsumedGrows` | src/index.ts:232-247 | A consumed cell stays consumed as bits are added |
| `Scan.RowConsumes` | src/index.ts:235-246 | Once a row is scanned, each of its cells from the start column on is consumed |
| `Scan.LastRowConsumed` | src/index.ts:232-247 | After row `y - 1` is scanned, its cells are consumed |
| `Scan.RowKeepsConsumed` | src/index.ts:232-247 | Scanning a later row keeps earlier cells consumed |
| `Scan.ScanRowsConsume` | src/index.ts:232-247 | Every cell of the rows scanned so far is consumed |
| `Scan.ScanConsumesRuns` | src/index.ts:232-247 | After the scan, no run a detector would accept is left unmarked at a cell that triggers it |
| `Diagram.Converter.ScanCellAt` | src/index.ts:237-245 | The new bitmap and output are `ScanCell` of the old ones |
| `Diagram.Converter.ScanRow` | src/index.ts:233-246 | The new bitmap and output are the fold of `ScanCell` over the row, left to right |
| `Diagram.Converter.ScanLines` | src/index.ts:232-247 | The new bitmap and output are the fold over all rows, top to bottom |
| `Labels.WordEnd` | src/index.ts:253-258 | `getWord` returns a position at or after `x`, within the row when `x` is |
| `Labels.WordEndSpec` | src/index.ts:253-258 | The cells `getWord` passes are neither spaces nor used. It stops at the row's end, a space or a used cell |
| `Diagram.Converter.GetWord` | src/index.ts:253-258 | The loop returns `WordEnd` of the row |
| `Labels.LabelEnd` | src/index.ts:262-273 | The accumulation loop ends within the row, not before the end it started with |
| `Labels.LabelEndSpec` | src/index.ts:262-273 | Started at `x`, the loop either finds no word there or ends a clean label, one that cannot be extended |
| `Diagram.Converter.AccumulateLabel` | src/index.ts:262-273 | The `while (true)` loop returns `LabelEnd` from `x` |
| `Labels.FirstLabelGood` | src/index.ts:274-278 | A label found at `x` is the row's text from `x` to its end, clean and not extendable |
| `Labels.RowLabelsCons` | src/index.ts:274-278 | A label emitted at `x`, followed by good labels after its stop cell, makes the labels from `x` on good |
| `Labels.GoodRowCons` | src/index.ts:260-279 | A good label followed by good labels after its stop cell gives good, ordered labels |
| `Labels.RowLabels` | src/index.ts:260-279 | The per-row `for` loop, a label emitted at its first cell and the loop resumed after the cell that stopped it (`x = end`, then `x++`). Every command is a `Text` on row `y`, starting at a cell from `x` on inside the row |
| `Labels.RowLabelsGood` | src/index.ts:260-279 | A row's labels are each clean and not extendable, with the text of their cells. They are disjoint, left to right, with at least one cell between neighbours |
| `Labels.RowLabelsCover` | src/index.ts:260-279 | Every non-space, unused cell lies in some label of its row |
| `Labels.TextRowsGood` | src/index.ts:250-280 | The text pass emits good labels of their own rows only, in row-major order |
| `Labels.TextRows` | src/index.ts:250-280 | The text pass, the rows' labels top to bottom. Every command is a `Text` on one of the rows from `y` on |
| `Diagram.Converter.ExtractRow` | src/index.ts:260-279 | Appends exactly `RowLabels` of the row |
| `Diagram.Converter.ExtractText` | src/index.ts:250-280 | Appends exactly `TextRows` of the grid, leaving the bitmap alone |
| `Diagram.Converter.constructor` | src/index.ts:69-74 | The rows are split and padded, the width is the longest row's, the columns are their transpose, the bitmap is clear and the output empty |
| `Diagram.Convert` | src/index.ts:68-283 | `convertToSVG`'s output: the scan's commands, then the text pass over the bitmap the scan left. Every label belongs to a row of the input |
| `Diagram.PaddedLabel` | src/index.ts:70 | A label of a padded row never reaches into the padding, so it is a piece of the row as written |
| `Diagram.ConvertParts` | src/index.ts:68-283 | The output is the scan's commands, which hold no text, followed by good labels of the padded rows |
| `Diagram.TwoPassesLabels` | src/index.ts:68-283 | In such an output every label comes after every drawing command, and each label is a piece of its input row |
| `Diagram.ConvertLabels` | src/index.ts:68-283 | Every label of `Convert(contents)` comes after every line, arrowhead and dot, and is a piece of its row as written. No leading or trailing space, no double space |
| `Diagram.ConvertToSVG` | src/index.ts:68-283 | The constructor, the scan and the text pass together produce `Convert(contents)` |

## Left out

- Output text: the header, the footer and `processFile` are I/O. So are the
  stdin reading and the `process.exit` on a read error, both in
  `src/index.ts` (lines 5-12) and in `src/run.ts`. The SVG strings are
  replaced by drawing commands.
- Geometry: pixel scaling and the random jitter of `addLine` and `drawDot`
  are dropped, because they are floating point and randomness.
  `Commands.ArrowStrokes` keeps `drawArrow`'s stroke arithmetic in grid
  units, on exact reals.
- Bitmap growth: the source grows `processedBitmap` lazily and reads a
  missing entry as clear. The model allocates the full grid up front with
  every cell clear. Every read and or-update then gives the same value.
- Characters: strings are sequences of characters. The source iterates the
  first row by code point in `transpose` but indexes by UTF-16 code unit
  elsewhere. The model does not tell the two apart.
- `Grid.Transpose`: requires a non-empty rectangular grid. The source only
  ever calls it on the padded rows, which always satisfy this. It throws on
  an empty list. On ragged rows, a row longer than the first appends to a
  column that does not exist, which creates a column whose text starts
  with "undefined".
- Label grouping: a description of the program speaks of one label per
  word. The code joins words separated by single spaces into one label
  (src/index.ts:264-273), and the model follows the code.
- Helpers: the marking loops, the decoration tails, the per-cell and
  per-row scan bodies, the word accumulation and the per-row text loop are
  inline code in the source. The model makes them separate methods, each
  proved against its own function.
