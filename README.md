# svg2cutplotter in Dafny

This project is a model of the core of svg2cutplotter, a script that drives a
cutting plotter from an SVG file. It models three pieces of the script:

- **Path-data parser `parse_svg_data`.** It tokenizes an SVG `d` attribute
  and runs the commands `M/m`, `L/l`, `H/h`, `V/v` and `Z/z` on a small state:
  - `last_point`;
  - `last_end_point`;
  - the open subpath;
  - the list of finished subpaths.

  The parser is an imperative method, `PathData.ParseSvgData`. Its outer loop,
  its number-scanning loop and its per-command loops are kept. The method is
  proved to compute the step function `PathData.ParseFrom` (through
  `PathData.Parse`). The lemmas in `PathDataProps` state what the parser
  promises, in terms of that function.
- **Plot order.** This is the stable sort of the parsed subpaths by their
  largest x-coordinate, shapely's `bounds[2]`, at line 139. It is a pure
  function, `PlotOrder.SortByMaxX`: an insertion sort that puts each subpath
  in front of equal keys. There are lemmas that it:
  - sorts;
  - permutes;
  - is stable;
  - is characterised uniquely by those three properties.

  `PlotOrder.OrderPaths` adds the two ways line 139 fails:
  - a subpath shapely cannot make into a LineString;
  - no subpath at all.
- **Command encoder `plot_data`.** It produces HPGL: `IN;SP1;`, one
  `PU`/`PD` move per point in units of 1/40 mm, then a pen-up move to the
  rounded offsets and `IN;`. DPML is derived from the HPGL by six string
  replacements.
  - The encoder is an imperative method, `Plotter.PlotData`, with the two
    nested loops and the `first` flag. It is proved to produce
    `Plotter.PlotOutput`.
  - `PlotterProps.DpmlOfHpgl` proves that the replacement chain yields the
    DPML text built directly: header ` ;:H A L0 EC1`, then ` D`/` U` moves,
    then ` U` to the offsets, then ` @ `.

Supporting modules:
- `Wrappers`: `Option` and `Result`.
- `Geometry`: points with exact `real` coordinates.
- `Text`: Python's `isspace`/`lstrip`, `%d` formatting, `str.find` and both
  forms of `str.replace`.

The model follows the code as written, also where it departs from the SVG
path grammar:
- Every coordinate pair of a moveto opens a subpath of its own. An `M` with
  four numbers gives two one-point subpaths.
- The leading-moveto check never fires (see Findings):
  `PathDataProps.ParseNeverMustStart` proves that no path data is rejected
  for not starting with a moveto.
- With `pen_down` false every point is a `PU` move.
- The trailer offsets are rounded but neither multiplied by 40 nor clamped at 0.
- The sort happens before any scaling, on the coordinates as parsed.

## Model

| member | source | states |
|---|---|---|
| PathData.Parse | svg2cutplotter.py:42-130 | the parser as written: ParseFrom from the origin, no last end point and no subpaths, with `first` false as line 43 sets it; ParseSvgData computes it |
| PathData.ParseIntended | svg2cutplotter.py:43-54 | the parser with `first` starting true, so the moveto check of lines 53-54 applies to the first command; see ParseIntendedPoints |
| PathData.ParseFrom | svg2cutplotter.py:50-126 | the outer `while data` loop as a recursion on the remaining data: one tokenizer step, the moveto check, the command, then the rest from the new state; ParsePathText, ParseFromPoints and ParseFromNeverMustStart state what it computes |
| PathData.Execute | svg2cutplotter.py:66-126 | the dispatch on the command letter to the arity checks and the five command handlers; ExecuteErrors gives each error's exact condition |
| PathData.Moveto | svg2cutplotter.py:70-79 | each pair flushes a non-empty open subpath and opens a new one at its target; MovetoEffect states the resulting state in closed form |
| PathData.Lineto | svg2cutplotter.py:84-91 | each pair appends its target to the open subpath, or to one seeded with the last end point; LinetoEffect states the result in closed form |
| PathData.Horizontal | svg2cutplotter.py:96-103 | each value is an x coordinate at the y held from before the loop; HorizontalIsLineto proves it is a lineto of those pairs |
| PathData.Vertical | svg2cutplotter.py:108-115 | each value is a y coordinate at the x held from before the loop; VerticalIsLineto proves it is a lineto of those pairs |
| PathData.Closepath | svg2cutplotter.py:117-123 | the open subpath gets its first vertex appended and is flushed; last_point is kept; CloseThenLineto states the new state |
| PathData.ScanNumbers | svg2cutplotter.py:58-64 | the numbers the inner loop reads and the data left after them, never longer than the data it started with; ScanArgsText proves printed arguments read back exactly |
| PathData.MatchNumber | svg2cutplotter.py:60 | the length of the prefix that `-?[0-9]+(\.[0-9]+)?` matches, 0 when none, never more than the data; MatchNumberIsNumeral and MatchNumberLongest prove it is the greedy match |
| PathData.NumeralValue | svg2cutplotter.py:60-63 | `float()` of a matched numeral, exactly; DecimalValue and MatchFormatInt state its value |
| PathData.ParseSvgData | svg2cutplotter.py:42-130 | the parser method returns exactly Parse(input): the same subpaths, or the same error, as the step-by-step specification |
| PathData.ExecuteCommand | svg2cutplotter.py:66-126 | one pass of the command dispatch, done on mutable locals, yields Execute of the old state: the same new state, or the same error |
| PathData.ScanNumberList | svg2cutplotter.py:58-64 | the inner `while True` loop returns the numbers and the remaining data that ScanNumbers specifies |
| PathData.ScanNumbersStep | svg2cutplotter.py:59-64 | proof step of ScanNumberList: taking one matched number off the front appends its value, then continues on the lstripped rest |
| PathData.MovetoLoop | svg2cutplotter.py:70-79 | the moveto loop over the pairs produces the state Moveto specifies |
| PathData.LinetoLoop | svg2cutplotter.py:84-91 | the lineto loop changes only last_point and the subpath, as Lineto specifies; done list and last end point are untouched |
| PathData.HorizontalLoop | svg2cutplotter.py:96-103 | the horizontal loop, with y read once before it, produces Horizontal's state |
| PathData.VerticalLoop | svg2cutplotter.py:108-115 | the vertical loop, with x read once before it, produces Vertical's state |
| PathData.LinetoStep | svg2cutplotter.py:85-91 | proof step of LinetoLoop: one pair of a lineto appends its target to the open or seeded subpath and moves last_point there |
| PathData.HorizontalStep | svg2cutplotter.py:97-103 | proof step of HorizontalLoop: one value of a horizontal lineto appends (x, held y) and moves last_point there |
| PathData.VerticalStep | svg2cutplotter.py:109-115 | proof step of VerticalLoop: one value of a vertical lineto appends (held x, y) and moves last_point there |
| PathData.ExecuteErrors | svg2cutplotter.py:66-126 | each error happens if and only if its condition holds: moveto/lineto with zero or an odd number of values; H/V with none; Z with any; Z with no open subpath; a letter outside MmLlHhVvZz, which is reported with the letter |
| PathData.DigitRun | svg2cutplotter.py:60 | the digit run is all digits and is maximal: it ends at the end or at a non-digit |
| PathData.NextCommand | svg2cutplotter.py:51-64 | one tokenizer step strictly shortens the data, so the outer loop ends |
| PathData.Finish | svg2cutplotter.py:128-130 | an open subpath is appended as it is, with no implicit close |
| PathDataProps.DigitRunLongest | svg2cutplotter.py:60 | no longer all-digit prefix exists than the digit run |
| PathDataProps.DigitRunStops | svg2cutplotter.py:60 | the digit run stops at or before the first non-digit |
| PathDataProps.UnsignedMatchIsNumeral | svg2cutplotter.py:60 | a non-empty unsigned match is a word of [0-9]+(\.[0-9]+)? |
| PathDataProps.UnsignedMatchLongest | svg2cutplotter.py:60 | the unsigned match is at least as long as every prefix in that language |
| PathDataProps.MatchNumberIsNumeral | svg2cutplotter.py:60 | a non-empty match of the number pattern is a word of -?[0-9]+(\.[0-9]+)? |
| PathDataProps.MatchNumberLongest | svg2cutplotter.py:60 | the match is the longest prefix in that language (greedy re.match) |
| PathDataProps.MatchFormatInt | svg2cutplotter.py:60-63 | a printed integer followed by a non-digit, non-point character is matched in full and read back as its own value |
| PathDataProps.FractionValueDigits | svg2cutplotter.py:60-63 | the digits after the point are worth their integer value over 10 to the power of their count |
| PathDataProps.DecimalValue | svg2cutplotter.py:60-63 | a numeral d.f with digits on both sides of the point is worth d + f / 10^len(f), and its negation after a minus sign |
| PathDataProps.MatchDecimal | svg2cutplotter.py:60 | d.f followed by anything but a digit is matched in full, with or without a minus sign |
| PathDataProps.NumberThenSpace | svg2cutplotter.py:60-64 | after a printed integer and a space, the match is the integer and lstrip leaves the rest |
| PathDataProps.ScanArgsText | svg2cutplotter.py:58-64 | scanning printed arguments returns exactly their values, and leaves the text after them |
| PathDataProps.NextCommandOfPathText | svg2cutplotter.py:51-64 | on a printed path, one step reads the first letter and its arguments and leaves the other commands' text |
| PathDataProps.ParsePathText | svg2cutplotter.py:50-126 | parsing a printed command list is running the commands in order: the tokenizer and the state machine agree |
| PathDataProps.ParseFromToken | svg2cutplotter.py:50-126 | proof step for the examples: one outer-loop step: the moveto check, then the command's error or the parse of the rest from the new state |
| PathDataProps.ParseFromOk | svg2cutplotter.py:50-126 | proof step for the inductions over ParseFrom: a successful parse of non-empty data passed the moveto check, executed its first command without error and parsed the rest |
| PathDataProps.PointsMeaning | svg2cutplotter.py:72-73 | relative pairs are offsets from the previous point of the same command, so they accumulate; absolute pairs are the points themselves |
| PathDataProps.LinetoEffect | svg2cutplotter.py:84-91 | a lineto appends all its points in order to the open subpath, or to one seeded with the last end point, and ends at its last point |
| PathDataProps.MovetoEffect | svg2cutplotter.py:70-79 | a moveto flushes the open subpath and then one subpath per pair; every pair but the last becomes a finished one-point subpath; the last pair is the open subpath; last_end_point is the next-to-last pair, or the flushed subpath's end when there is one pair |
| PathDataProps.HorizontalIsLineto | svg2cutplotter.py:96-103 | H x1..xn is a lineto of the pairs (xi, y) with y held from before the command; for h, the y offsets are 0 |
| PathDataProps.VerticalIsLineto | svg2cutplotter.py:108-115 | V y1..yn is a lineto of the pairs (x, yi) with x held from before the command; for v, the x offsets are 0 |
| PathDataProps.CloseThenLineto | svg2cutplotter.py:117-123 | Z appends the first vertex and flushes; last_end_point becomes that vertex and last_point is kept; the next lineto starts its subpath there |
| PathDataProps.LinetoKeepsDone | svg2cutplotter.py:84-91 | a lineto changes neither the finished subpaths nor the last end point |
| PathDataProps.ExecuteKeepsNonEmpty | svg2cutplotter.py:66-126 | no command adds an empty subpath to the finished list |
| PathDataProps.ParseNonEmptySubpaths | svg2cutplotter.py:128-130 | every subpath the parser returns holds at least one vertex |
| PathDataProps.MovetoAnchors | svg2cutplotter.py:70-79 | after a moveto, a later line command with no open subpath has a point to start from |
| PathDataProps.ExecuteKeepsAnchored | svg2cutplotter.py:66-126 | once all vertices are points and a start point exists, every command keeps it so |
| PathDataProps.ParseFromPoints | svg2cutplotter.py:50-130 | a parse from a state with a start point, or one that starts with the moveto check in force, returns only points |
| PathDataProps.ExecuteNeverMustStart | svg2cutplotter.py:66-126 | no command handler reports the missing leading moveto |
| PathDataProps.ParseFromNeverMustStart | svg2cutplotter.py:43-56 | with `first` false, ParseFrom never reports the missing leading moveto, whatever the data and the state |
| PathDataProps.ParseNeverMustStart | svg2cutplotter.py:43-56 | as written, no path data is rejected for not starting with a moveto |
| PathDataProps.ParseIntendedPoints | svg2cutplotter.py:43-54 | with `first` starting true, as intended, no subpath ever holds the missing last end point |
| PathDataProps.ExampleMovetoPairs | svg2cutplotter.py:71-79 | "M 1 1 2 2 " parses to two one-point subpaths |
| PathDataProps.ExampleCloseThenLineto | svg2cutplotter.py:117-123 | "M 0 0 L 4 0 Z L 2 2 " parses to the closed triangle edge, then a subpath from (0,0) to (2,2) |
| PathDataProps.ExampleRelative | svg2cutplotter.py:72-91 | "m 1 1 l 2 0 0 2 z " accumulates relative offsets and closes back to (1,1) |
| PathDataProps.ExampleFraction | svg2cutplotter.py:51-79 | "M1.5,-2 " reads the comma as a space, the fraction and the minus sign, and parses to the one point (1.5, -2) |
| PathDataProps.ExampleCloseFirst | svg2cutplotter.py:120 | "Z " fails because no subpath is open |
| PathDataProps.ExampleBlank | svg2cutplotter.py:50-52 | data that is only whitespace fails at data[0] |
| PathDataProps.ExampleOddMoveto | svg2cutplotter.py:68-69 | a moveto with three numbers is rejected |
| PathDataProps.LeadingLinetoAccepted | svg2cutplotter.py:43-56 | as written, "L 5 5 " is accepted and seeds its subpath with the missing point; with `first` true it is rejected |
| Text.LStrip | svg2cutplotter.py:51 | lstrip removes exactly the longest whitespace prefix |
| Text.FormatNat | svg2cutplotter.py:188-189 | '%d' of a natural number is digits with no leading zero |
| Text.FormatNatValue | svg2cutplotter.py:188-189 | the digits read back as the number |
| Text.FormatInt | svg2cutplotter.py:188-192 | '%d' of an integer has a minus sign exactly when it is negative, then digits with no leading zero |
| Text.FormatIntValue | svg2cutplotter.py:188-192 | the digits read back as the absolute value |
| Text.FindSpec | svg2cutplotter.py:195-198 | find returns the leftmost occurrence, or none when the pattern occurs nowhere |
| Text.ReplaceFirstAt | svg2cutplotter.py:195-198 | proof step for ReplaceFirstAfter: replace(p, r, 1) splices r in place of the leftmost occurrence |
| Text.ReplaceFirstAbsent | svg2cutplotter.py:196 | replace(p, r, 1) of a pattern that cannot occur leaves the text unchanged (the `;VS` step) |
| Text.ReplaceFirstAfter | svg2cutplotter.py:195-198 | replace(p, r, 1) acts on the first occurrence and leaves the text before and after it alone |
| Text.ReplaceAllConcat | svg2cutplotter.py:199-200 | a global replace distributes over a seam that no occurrence straddles |
| Text.ReplaceAllAbsent | svg2cutplotter.py:199-200 | a global replace of a pattern that cannot occur is the identity |
| PlotOrder.IsLineString | svg2cutplotter.py:139 | what `LineString(path)` accepts: at least two vertices, every one a point |
| PlotOrder.SortByMaxX | svg2cutplotter.py:139 | `sorted(..., key=itemgetter(1))` on max-x keeps the length and every subpath non-empty; SortSorted, SortPermutation and SortStable state the rest |
| PlotOrder.FirstBad | svg2cutplotter.py:139 | the first subpath that is not a LineString, with every one before it a LineString; none exactly when all are |
| PlotOrder.Coordinates | svg2cutplotter.py:139 | a LineString's coordinates are its vertices, in order |
| PlotOrder.MaxX | svg2cutplotter.py:139 | bounds[2] is an upper bound of the x-coordinates |
| PlotOrder.MaxXAttained | svg2cutplotter.py:139 | bounds[2] is one of the x-coordinates, so it is the maximum |
| PlotOrder.OrderPaths | svg2cutplotter.py:139 | fails on the first non-LineString, fails on no subpaths, and otherwise returns a permutation of the inputs' polylines |
| PlotOrder.SortPermutation | svg2cutplotter.py:139 | the sorted list has the same subpaths, as a multiset |
| PlotOrder.SortSorted | svg2cutplotter.py:139 | the sorted list is non-decreasing in max-x |
| PlotOrder.SortStable | svg2cutplotter.py:139 | for each key, the subpaths with that key keep their input order |
| PlotOrder.SortedUnique | svg2cutplotter.py:139 | two sorted lists with the same subsequence for every key are equal |
| PlotOrder.SortCharacterised | svg2cutplotter.py:139 | any sorted list with the input's keyed subsequences is the sort's result |
| PlotOrder.SortIdentity | svg2cutplotter.py:139 | a list already sorted is left as it is |
| PlotOrder.SortIdempotent | svg2cutplotter.py:139 | sorting twice is sorting once |
| PlotOrder.OrderPathsMeaning | svg2cutplotter.py:139 | a successful ordering is sorted, and stable with respect to the parsed subpaths |
| PlotOrder.ExampleOrder | svg2cutplotter.py:139 | right edges 5, 1, 3 come out as 1, 3, 5 |
| PlotOrder.ExampleTie | svg2cutplotter.py:139 | two subpaths tied at 2 keep their input order around the one at 1 |
| PlotOrder.ExampleSinglePoint | svg2cutplotter.py:139 | a one-point subpath is not a LineString, so ordering fails on it |
| PlotOrder.ParsedPathsOrder | svg2cutplotter.py:42-139 | with the intended parser, subpaths of two or more vertices always order successfully |
| PlotOrder.LeadingLinetoFailsOrder | svg2cutplotter.py:43-139 | as written, "L 5 5 " parses, and its missing first point then fails at line 139 |
| Plotter.RoundHalfEven | svg2cutplotter.py:189 | round(r) is within one half of r, and a tie goes to the even integer |
| Plotter.DeviceUnit | svg2cutplotter.py:189 | max(0, round(40 c)) is within one half of 40 c for c >= 0, and 0 for c <= 0 |
| Plotter.PathMoves | svg2cutplotter.py:185-191 | the moves of one subpath: one per point, pen-up first, pen-down after it when pen_down; MovesAt states it per position |
| Plotter.Moves | svg2cutplotter.py:185-191 | the moves of all subpaths in plot order; MoveCount and MovesAppend state its length and how it grows |
| Plotter.Trailer | svg2cutplotter.py:192 | `PU%d,%d;IN;` with the offsets rounded half to even, neither scaled nor clamped |
| Plotter.Hpgl | svg2cutplotter.py:184-192 | the HPGL text: `IN;SP1;`, the moves' text, the trailer |
| Plotter.Dpml | svg2cutplotter.py:195-200 | the six replacements in their order; DpmlOfHpgl proves the result is the DPML text built directly |
| Plotter.PlotOutput | svg2cutplotter.py:174-202 | the HPGL text, or its DPML translation when dpml is set; PlotData computes it and DpmlFrame states its frame |
| Plotter.PlotData | svg2cutplotter.py:174-202 | the encoder's output is PlotOutput: the HPGL text, or its DPML translation when dpml is set |
| Plotter.AppendPath | svg2cutplotter.py:185-191 | the inner loop appends one move per point, the first with the pen up, the others down when pen_down |
| Plotter.MovesTextConcat | svg2cutplotter.py:184-191 | the text of consecutive moves is the concatenation of their texts |
| Plotter.MovesAppend | svg2cutplotter.py:185-187 | one more subpath appends its moves after the others |
| PlotterProps.RoundNearest | svg2cutplotter.py:189 | no integer is nearer to r than round(r) |
| PlotterProps.RoundUnique | svg2cutplotter.py:189 | the nearest integer, taking the even one on ties, is unique: it is round(r) |
| PlotterProps.RoundExamples | svg2cutplotter.py:189-192 | round(0.5) = 0, round(1.5) = 2, round(2.5) = 2, round(-1.5) = -2 |
| PlotterProps.DeviceUnitExamples | svg2cutplotter.py:189 | negative coordinates clamp to 0; 2.5 mm is 100 units |
| PlotterProps.MoveCount | svg2cutplotter.py:185-191 | there is exactly one move per point |
| PlotterProps.MovesAt | svg2cutplotter.py:185-191 | the move for point j of subpath i is at position (points before i) + j, is down only when j > 0 and pen_down, and goes to that point's device units |
| PlotterProps.FirstMoveUp | svg2cutplotter.py:186-191 | the first move is always pen-up |
| PlotterProps.PenUpOnly | svg2cutplotter.py:188 | with pen_down false, every move is pen-up |
| PlotterProps.ShiftMoves | svg2cutplotter.py:188 | a `;` followed by the moves' text equals the moves written as `;PU x,y` / `;PD x,y` pieces followed by one `;` |
| PlotterProps.ReplacePenDown | svg2cutplotter.py:199 | replacing every `;PD` turns exactly the pen-down pieces into ` D` |
| PlotterProps.ReplacePenUp | svg2cutplotter.py:200 | replacing every `;PU` turns exactly the pen-up pieces into ` U` |
| PlotterProps.DpmlSteps12 | svg2cutplotter.py:195-196 | the first `IN;` becomes the DPML header, and `;VS` is never found |
| PlotterProps.DpmlStep3 | svg2cutplotter.py:197 | the first ` SP1` becomes ` EC1` |
| PlotterProps.DpmlStep4 | svg2cutplotter.py:198 | the first `;IN;` is the trailer's, and becomes ` @ ` |
| PlotterProps.DpmlOfHpgl | svg2cutplotter.py:184-200 | the replacement chain applied to the HPGL is the DPML text: header, ` U`/` D` moves, ` U` to the rounded offsets, ` @ ` |
| PlotterProps.DpmlFrame | svg2cutplotter.py:184-200 | DPML output starts with ` ;:H A L0 EC1 U` and ends with ` @ ` |
| PlotterProps.ExampleBox | svg2cutplotter.py:185-189 | a box of corners (0,0), (1,0), (1,2) without pen_down gives PU moves to (0,0), (40,0), (40,80) |

## Left out

- Argument parsing, reading the SVG with defusedxml, removing clipPath
  elements, collecting the `d` attributes of all paths (lines 17-30 and
  132-138), finding the device, the interactive loop and writing to the
  device (lines 209-301). These are input, output and glue.
- Choosing the document scale from the width, height and viewBox attributes
  (lines 32-38). This is regular-expression extraction from XML attributes
  and float division.
- `apply_overcut` (lines 147-171). It relies on shapely's float lengths and
  `scale`, and divides by zero on a segment of length zero.
- Everything shapely computes after the sort (lines 140-143, 205-207, 287-288
  and 296-297): the MultiLineString, scaling, the mirror, translation and
  bounds. These are foreign library calls on floats. `plot_data` is modelled
  on the list of coordinate lists that `geometry.geoms` yields. An empty
  geometry is the empty list, and a single LineString is a list of one.
- The `ValueError` for an unknown geometry type at line 182. The model's
  input type has no such case.
- The `overcut` parameter of `plot_data`, which the function does not use.
  `maxx` from line 139 is also left out, as it is never read.
- Floating point. Coordinates are exact reals. `float(...)` of a matched
  numeral is its exact decimal value, with no rounding.
- PathData.ParseSvgData models the parser as written, with `first` starting
  false. The intended behaviour is stated separately, on PathData.ParseIntended.
- Text.IsSpace lists the characters for which Python's `str.isspace` is true.
  The model uses that list for `lstrip`: there is no Unicode database.
- PlotOrder.OrderPaths reports only the first failing subpath, as shapely
  would raise there. The text of shapely's exception messages is not modelled.

## Findings

| source | as written | input that shows it | evidently intended | confidence | as-written member | corrected member |
|---|---|---|---|---|---|---|
| svg2cutplotter.py:43-54 | `first` is initialised `False`, so the "path data has to start with moveto command" check never fires. A leading lineto is accepted and seeds its subpath with `last_end_point`, which is still `None`. The sort at line 139 then fails on that subpath. ParseNeverMustStart proves the check never fires, for any data | `L 5 5` | `first = True`: path data that does not begin with M/m is rejected with the moveto error | not executed | PathDataProps.LeadingLinetoAccepted | PathDataProps.ParseIntendedPoints |
