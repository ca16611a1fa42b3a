/**
 * The path-data parser parse_svg_data: a tokenizer over the string and a state
 * machine over the commands M/m, L/l, H/h, V/v and Z/z, turning one path-data
 * string into its list of subpaths.
 *
 * ParseFrom is the specification: one step of it is one iteration of the
 * parser's outer loop. ParseSvgData is the parser itself, step by step on
 * mutable locals, and is proved to compute Parse.
 */
module PathData {
  import opened Wrappers
  import opened Geometry
  import opened Text

  /**
   * One vertex of a subpath. A line command with no subpath open seeds the new
   * subpath with the last end point, which is None until some subpath has been
   * flushed; so a vertex is an optional point.
   */
  type Vertex = Option<Point>

  datatype ParseError =
    | BlankData               // data[0] of a string that is whitespace only (an IndexError)
    | MustStartWithMoveto     // the leading-moveto check, which can only fire when `first` starts true
    | BadMovetoArity
    | BadLinetoArity
    | BadHorizontalArity
    | BadVerticalArity
    | BadClosepathArity
    | UnknownCommand(command: char)
    | CloseWithoutSubpath     // current_subpath[0] of an empty subpath (an IndexError)

  // ---------------------------------------------------------------------------
  // Number grammar: -?[0-9]+(\.[0-9]+)?

  /** Digits, then optionally a point and more digits. */
  predicate IsUnsignedNumeral(u: string) {
    || (|u| > 0 && AllDigits(u))
    || exists i :: 0 < i < |u| - 1 && u[i] == '.' && AllDigits(u[..i]) && AllDigits(u[i + 1..])
  }

  /** A word of the language of the regular expression -?[0-9]+(\.[0-9]+)? */
  predicate IsNumeral(t: string) {
    || IsUnsignedNumeral(t)
    || (|t| > 0 && t[0] == '-' && IsUnsignedNumeral(t[1..]))
  }

  /** The number of leading decimal digits of s. */
  function DigitRun(s: string): (n: nat)
    ensures n <= |s| && AllDigits(s[..n]) && (n == |s| || !IsDigit(s[n]))
  {
    if s != [] && IsDigit(s[0]) then
      assert s[..1 + DigitRun(s[1..])] == [s[0]] + s[1..][..DigitRun(s[1..])];
      1 + DigitRun(s[1..])
    else 0
  }

  /** The length of the match of [0-9]+(\.[0-9]+)? at the start of s, or 0 when there is none. */
  function UnsignedMatch(s: string): (n: nat)
    ensures n <= |s|
  {
    var whole := DigitRun(s);
    if whole == 0 then 0
    else if whole < |s| && s[whole] == '.' && DigitRun(s[whole + 1..]) > 0 then whole + 1 + DigitRun(s[whole + 1..])
    else whole
  }

  /**
   * The length of the match of ^-?[0-9]+(\.[0-9]+)? at the start of s, or 0
   * when there is none: re.match at line 60. MatchNumberIsNumeral and
   * MatchNumberLongest state what it computes.
   */
  function MatchNumber(s: string): (n: nat)
    ensures n <= |s|
  {
    var sign := if s != [] && s[0] == '-' then 1 else 0;
    var unsigned := UnsignedMatch(s[sign..]);
    if unsigned == 0 then 0 else sign + unsigned
  }

  /** The value of the digits after a decimal point: 0.d1d2d3... */
  function FractionValue(ds: string): real
  {
    if ds == [] then 0.0 else (DigitValue(ds[0]) as real + FractionValue(ds[1..])) / 10.0
  }

  /** The value of an unsigned numeral: its whole digits plus the fraction after the point. */
  function UnsignedValue(u: string): real
  {
    var whole := DigitRun(u);
    if whole < |u| && u[whole] == '.' then DigitsValue(u[..whole]) as real + FractionValue(u[whole + 1..])
    else DigitsValue(u[..whole]) as real
  }

  /** float(t) of a numeral t, as an exact real. */
  function NumeralValue(t: string): real
  {
    if |t| > 0 && t[0] == '-' then -UnsignedValue(t[1..]) else UnsignedValue(t)
  }

  /**
   * The inner loop of lines 58-64: the numbers that follow a command letter,
   * matched greedily, each followed by optional whitespace; and the rest of the data.
   */
  function ScanNumbers(data: string): (r: (seq<real>, string))
    ensures |r.1| <= |data|
    decreases |data|
  {
    var n := MatchNumber(data);
    if n == 0 then ([], data)
    else
      var rest := ScanNumbers(LStrip(data[n..]));
      ([NumeralValue(data[..n])] + rest.0, rest.1)
  }

  // ---------------------------------------------------------------------------
  // The state machine

  /** The parser's locals: last_point, last_end_point, current_subpath and done_subpaths. */
  datatype State = State(lastPoint: Point, lastEnd: Vertex, current: seq<Vertex>, done: seq<seq<Vertex>>)

  const Initial := State(Point(0.0, 0.0), None, [], [])

  predicate IsMoveto(c: char) { c == 'M' || c == 'm' }

  /** The letters of lines 66-124: moveto, lineto, horizontal, vertical, closepath. */
  predicate IsCommandLetter(c: char) {
    c == 'M' || c == 'm' || c == 'L' || c == 'l' || c == 'H' || c == 'h' || c == 'V' || c == 'v' || c == 'Z' || c == 'z'
  }

  /** command.islower(), for the command letters. */
  predicate IsLower(c: char) { 'a' <= c <= 'z' }

  /** The point a coordinate pair addresses: itself, or an offset from `from` when relative. */
  function Target(from: Point, x: real, y: real, relative: bool): Point {
    if relative then Point(from.x + x, from.y + y) else Point(x, y)
  }

  /** The subpath a line command extends: the open one, or one seeded with the last end point. */
  function Seeded(st: State): seq<Vertex> {
    if st.current == [] then [st.lastEnd] else st.current
  }

  /** Lines 74-77: a non-empty open subpath is moved to the done list, its last vertex remembered. */
  function FlushCurrent(st: State): State {
    if st.current != [] then st.(done := st.done + [st.current], lastEnd := st.current[|st.current| - 1], current := [])
    else st
  }

  /** Lines 70-79: every pair flushes the open subpath and starts a new one at its point. */
  function Moveto(st: State, nums: seq<real>, relative: bool): State
    decreases |nums|
  {
    if |nums| < 2 then st
    else
      var p := Target(st.lastPoint, nums[0], nums[1], relative);
      var flushed := FlushCurrent(st);
      Moveto(flushed.(current := flushed.current + [Some(p)], lastPoint := p), nums[2..], relative)
  }

  /** Lines 84-91: every pair is appended to the open (or seeded) subpath. */
  function Lineto(st: State, nums: seq<real>, relative: bool): State
    decreases |nums|
  {
    if |nums| < 2 then st
    else
      var p := Target(st.lastPoint, nums[0], nums[1], relative);
      Lineto(st.(current := Seeded(st) + [Some(p)], lastPoint := p), nums[2..], relative)
  }

  /** Lines 96-103: every value is an x coordinate, y held at the value read before the loop. */
  function Horizontal(st: State, nums: seq<real>, relative: bool, y: real): State
    decreases |nums|
  {
    if nums == [] then st
    else
      var x := if relative then st.lastPoint.x + nums[0] else nums[0];
      Horizontal(st.(current := Seeded(st) + [Some(Point(x, y))], lastPoint := Point(x, y)), nums[1..], relative, y)
  }

  /** Lines 108-115: every value is a y coordinate, x held at the value read before the loop. */
  function Vertical(st: State, nums: seq<real>, relative: bool, x: real): State
    decreases |nums|
  {
    if nums == [] then st
    else
      var y := if relative then st.lastPoint.y + nums[0] else nums[0];
      Vertical(st.(current := Seeded(st) + [Some(Point(x, y))], lastPoint := Point(x, y)), nums[1..], relative, x)
  }

  /**
   * Lines 120-123: the subpath is closed with its own first vertex and flushed;
   * that vertex, now its last, becomes the last end point; last_point is kept.
   */
  function Closepath(st: State): State
    requires st.current != []
  {
    var closed := st.current + [st.current[0]];
    st.(done := st.done + [closed], lastEnd := closed[|closed| - 1], current := [])
  }

  /** One command of lines 66-126, with its error cases. */
  function Execute(st: State, command: char, nums: seq<real>): Result<State, ParseError>
  {
    var relative := IsLower(command);
    if IsMoveto(command) then
      if |nums| == 0 || |nums| % 2 != 0 then Err(BadMovetoArity) else Ok(Moveto(st, nums, relative))
    else if command == 'L' || command == 'l' then
      if |nums| == 0 || |nums| % 2 != 0 then Err(BadLinetoArity) else Ok(Lineto(st, nums, relative))
    else if command == 'H' || command == 'h' then
      if |nums| == 0 then Err(BadHorizontalArity) else Ok(Horizontal(st, nums, relative, st.lastPoint.y))
    else if command == 'V' || command == 'v' then
      if |nums| == 0 then Err(BadVerticalArity) else Ok(Vertical(st, nums, relative, st.lastPoint.x))
    else if command == 'Z' || command == 'z' then
      if |nums| != 0 then Err(BadClosepathArity)
      else if st.current == [] then Err(CloseWithoutSubpath)
      else Ok(Closepath(st))
    else Err(UnknownCommand(command))
  }

  /** The error cases of Execute, each exactly when the source raises it. */
  lemma ExecuteErrors(st: State, command: char, nums: seq<real>)
    ensures var r := Execute(st, command, nums);
      && (r == Err(BadMovetoArity) <==> IsMoveto(command) && (|nums| == 0 || |nums| % 2 != 0))
      && (r == Err(BadLinetoArity) <==> (command == 'L' || command == 'l') && (|nums| == 0 || |nums| % 2 != 0))
      && (r == Err(BadHorizontalArity) <==> (command == 'H' || command == 'h') && |nums| == 0)
      && (r == Err(BadVerticalArity) <==> (command == 'V' || command == 'v') && |nums| == 0)
      && (r == Err(BadClosepathArity) <==> (command == 'Z' || command == 'z') && |nums| != 0)
      && (r == Err(CloseWithoutSubpath) <==> (command == 'Z' || command == 'z') && |nums| == 0 && st.current == [])
      && (r.Err? && r.error.UnknownCommand? <==> !IsCommandLetter(command))
      && (r.Err? && r.error.UnknownCommand? ==> r.error.command == command)
  {
  }

  /** Lines 128-130: an open subpath is flushed as it is, without being closed. */
  function Finish(st: State): seq<seq<Vertex>> {
    if st.current != [] then st.done + [st.current] else st.done
  }

  /** One command letter, the numbers that follow it, and the data after them. */
  datatype Token = Token(command: char, numbers: seq<real>, rest: string)

  /**
   * Lines 51-64: strip leading whitespace, turn commas into spaces, take the
   * command letter and scan its numbers; None when only whitespace is left,
   * where data[0] fails.
   */
  function NextCommand(data: string): (r: Option<Token>)
    ensures r.Some? ==> |r.value.rest| < |data|
  {
    ReplaceCharPointwise(LStrip(data), ',', ' ');
    var d := ReplaceAll(LStrip(data), ",", " ");
    if d == [] then None
    else
      var scan := ScanNumbers(LStrip(d[1..]));
      Some(Token(d[0], scan.0, scan.1))
  }

  /**
   * The rest of the parse from `data` in state `st`: one step is one
   * iteration of the outer loop of lines 50-126. `first` is the flag of line 43.
   */
  function ParseFrom(data: string, st: State, first: bool): Result<seq<seq<Vertex>>, ParseError>
    decreases |data|
  {
    if data == [] then Ok(Finish(st))
    else
      match NextCommand(data)
      case None => Err(BlankData)
      case Some(Token(command, numbers, rest)) =>
        if first && !IsMoveto(command) then Err(MustStartWithMoveto)
        else
          match Execute(st, command, numbers)
          case Err(e) => Err(e)
          case Ok(next) => ParseFrom(rest, next, false)
  }

  /** parse_svg_data as written: `first` starts false, so the leading-moveto check never fires. */
  function Parse(data: string): Result<seq<seq<Vertex>>, ParseError> {
    ParseFrom(data, Initial, false)
  }

  /** parse_svg_data as evidently intended, with `first` starting true. */
  function ParseIntended(data: string): Result<seq<seq<Vertex>>, ParseError> {
    ParseFrom(data, Initial, true)
  }

  // ---------------------------------------------------------------------------
  // The parser, step by step

  /** parse_svg_data: the outer `while data:` loop of lines 50-126 and the final flush. */
  method ParseSvgData(input: string) returns (result: Result<seq<seq<Vertex>>, ParseError>)
    ensures result == Parse(input)
  {
    var data := input;
    var first := false;
    var lastPoint := Point(0.0, 0.0);
    var lastEnd: Vertex := None;
    var doneSubpaths: seq<seq<Vertex>> := [];
    var currentSubpath: seq<Vertex> := [];
    while data != []
      invariant ParseFrom(data, State(lastPoint, lastEnd, currentSubpath, doneSubpaths), first) == Parse(input)
      decreases |data|
    {
      ghost var st := State(lastPoint, lastEnd, currentSubpath, doneSubpaths);
      ghost var token := NextCommand(data);
      data := ReplaceAll(LStrip(data), ",", " ");
      if data == [] {
        return Err(BlankData);
      }
      var command := data[0];
      if first && !IsMoveto(command) {
        return Err(MustStartWithMoveto);
      }
      data := LStrip(data[1..]);
      first := false;
      var numbers;
      numbers, data := ScanNumberList(data);
      assert token == Some(Token(command, numbers, data));

      var step := ExecuteCommand(command, numbers, lastPoint, lastEnd, currentSubpath, doneSubpaths);
      match step
      case Err(e) =>
        return Err(e);
      case Ok(next) =>
        lastPoint, lastEnd, currentSubpath, doneSubpaths := next.lastPoint, next.lastEnd, next.current, next.done;
    }
    if currentSubpath != [] {
      doneSubpaths := doneSubpaths + [currentSubpath];
    }
    result := Ok(doneSubpaths);
  }

  /**
   * One pass of the outer loop after the numbers are scanned (lines 66-126):
   * dispatch on the command letter, check the number count, run the command's
   * inner loop. An error is what the loop would return.
   */
  method ExecuteCommand(command: char, numbers: seq<real>, lastPoint0: Point, lastEnd0: Vertex, current0: seq<Vertex>, done0: seq<seq<Vertex>>)
    returns (r: Result<State, ParseError>)
    ensures r == Execute(State(lastPoint0, lastEnd0, current0, done0), command, numbers)
  {
    ghost var st := State(lastPoint0, lastEnd0, current0, done0);
    var lastPoint, lastEnd, currentSubpath, doneSubpaths := lastPoint0, lastEnd0, current0, done0;
    var relative := IsLower(command);
    if IsMoveto(command) {
      if |numbers| == 0 || |numbers| % 2 != 0 {
        return Err(BadMovetoArity);
      }
      lastPoint, lastEnd, currentSubpath, doneSubpaths := MovetoLoop(numbers, relative, lastPoint, lastEnd, currentSubpath, doneSubpaths);
    } else if command == 'L' || command == 'l' {
      if |numbers| == 0 || |numbers| % 2 != 0 {
        return Err(BadLinetoArity);
      }
      lastPoint, currentSubpath := LinetoLoop(numbers, relative, lastPoint, lastEnd, currentSubpath, doneSubpaths);
    } else if command == 'H' || command == 'h' {
      if |numbers| == 0 {
        return Err(BadHorizontalArity);
      }
      lastPoint, currentSubpath := HorizontalLoop(numbers, relative, lastPoint, lastEnd, currentSubpath, doneSubpaths);
    } else if command == 'V' || command == 'v' {
      if |numbers| == 0 {
        return Err(BadVerticalArity);
      }
      lastPoint, currentSubpath := VerticalLoop(numbers, relative, lastPoint, lastEnd, currentSubpath, doneSubpaths);
    } else if command == 'Z' || command == 'z' {
      if |numbers| != 0 {
        return Err(BadClosepathArity);
      }
      if currentSubpath == [] {
        return Err(CloseWithoutSubpath);
      }
      currentSubpath := currentSubpath + [currentSubpath[0]];
      doneSubpaths := doneSubpaths + [currentSubpath];
      lastEnd := currentSubpath[|currentSubpath| - 1];
      currentSubpath := [];
    } else {
      return Err(UnknownCommand(command));
    }
    r := Ok(State(lastPoint, lastEnd, currentSubpath, doneSubpaths));
  }

  /** Lines 58-64: numbers are matched and stripped until no number starts the data. */
  method ScanNumberList(text: string) returns (numbers: seq<real>, data: string)
    ensures numbers == ScanNumbers(text).0 && data == ScanNumbers(text).1
  {
    data := text;
    numbers := [];
    while true
      invariant ScanNumbers(text).0 == numbers + ScanNumbers(data).0
      invariant ScanNumbers(text).1 == ScanNumbers(data).1
      decreases |data|
    {
      var n := MatchNumber(data);
      if n == 0 {
        assert numbers + [] == numbers;
        break;
      }
      var value := NumeralValue(data[..n]);
      ScanNumbersStep(data, numbers);
      numbers := numbers + [value];
      data := LStrip(data[n..]);
    }
  }

  /** One number taken off the front of the data, as the loop of lines 59-64 takes it. */
  lemma ScanNumbersStep(data: string, before: seq<real>)
    requires MatchNumber(data) > 0
    ensures var n := MatchNumber(data);
      && before + ScanNumbers(data).0 == (before + [NumeralValue(data[..n])]) + ScanNumbers(LStrip(data[n..])).0
      && ScanNumbers(data).1 == ScanNumbers(LStrip(data[n..])).1
  {
    var n := MatchNumber(data);
    var later := ScanNumbers(LStrip(data[n..])).0;
    assert ScanNumbers(data).0 == [NumeralValue(data[..n])] + later;
    assert before + ([NumeralValue(data[..n])] + later) == (before + [NumeralValue(data[..n])]) + later;
  }

  /** Lines 70-79, over the pairs of `numbers`. */
  method MovetoLoop(numbers: seq<real>, relative: bool, lastPoint0: Point, lastEnd0: Vertex, current0: seq<Vertex>, done0: seq<seq<Vertex>>)
    returns (lastPoint: Point, lastEnd: Vertex, currentSubpath: seq<Vertex>, doneSubpaths: seq<seq<Vertex>>)
    requires |numbers| % 2 == 0
    ensures State(lastPoint, lastEnd, currentSubpath, doneSubpaths) == Moveto(State(lastPoint0, lastEnd0, current0, done0), numbers, relative)
  {
    lastPoint, lastEnd, currentSubpath, doneSubpaths := lastPoint0, lastEnd0, current0, done0;
    var i := 0;
    ghost var pairs, k := |numbers| / 2, 0;
    assert |numbers| == 2 * pairs;
    while i < |numbers|
      invariant i == 2 * k && k <= pairs
      invariant Moveto(State(lastPoint, lastEnd, currentSubpath, doneSubpaths), numbers[i..], relative)
             == Moveto(State(lastPoint0, lastEnd0, current0, done0), numbers, relative)
    {
      var x, y := numbers[i], numbers[i + 1];
      if relative {
        x, y := lastPoint.x + x, lastPoint.y + y;
      }
      if currentSubpath != [] {
        doneSubpaths := doneSubpaths + [currentSubpath];
        lastEnd := currentSubpath[|currentSubpath| - 1];
        currentSubpath := [];
      }
      currentSubpath := currentSubpath + [Some(Point(x, y))];
      lastPoint := Point(x, y);
      assert numbers[i..][2..] == numbers[i + 2..];
      i, k := i + 2, k + 1;
    }
  }

  /** Lines 84-91, over the pairs of `numbers`. */
  method LinetoLoop(numbers: seq<real>, relative: bool, lastPoint0: Point, lastEnd: Vertex, current0: seq<Vertex>, done: seq<seq<Vertex>>)
    returns (lastPoint: Point, currentSubpath: seq<Vertex>)
    requires |numbers| % 2 == 0
    ensures Lineto(State(lastPoint0, lastEnd, current0, done), numbers, relative) == State(lastPoint, lastEnd, currentSubpath, done)
  {
    lastPoint, currentSubpath := lastPoint0, current0;
    var i := 0;
    ghost var pairs, k := |numbers| / 2, 0;
    assert |numbers| == 2 * pairs;
    while i < |numbers|
      invariant i == 2 * k && k <= pairs
      invariant Lineto(State(lastPoint, lastEnd, currentSubpath, done), numbers[i..], relative)
             == Lineto(State(lastPoint0, lastEnd, current0, done), numbers, relative)
    {
      ghost var st := State(lastPoint, lastEnd, currentSubpath, done);
      ghost var target := Target(lastPoint, numbers[i], numbers[i + 1], relative);
      LinetoStep(st, numbers, i, relative);
      var x, y := numbers[i], numbers[i + 1];
      if relative {
        x, y := lastPoint.x + x, lastPoint.y + y;
      }
      if currentSubpath == [] {
        currentSubpath := currentSubpath + [lastEnd];
      }
      assert currentSubpath == Seeded(st);
      currentSubpath := currentSubpath + [Some(Point(x, y))];
      lastPoint := Point(x, y);
      assert State(lastPoint, lastEnd, currentSubpath, done) == st.(current := Seeded(st) + [Some(target)], lastPoint := target);
      i, k := i + 2, k + 1;
    }
  }

  /** Lines 96-103. */
  method HorizontalLoop(numbers: seq<real>, relative: bool, lastPoint0: Point, lastEnd: Vertex, current0: seq<Vertex>, done: seq<seq<Vertex>>)
    returns (lastPoint: Point, currentSubpath: seq<Vertex>)
    ensures Horizontal(State(lastPoint0, lastEnd, current0, done), numbers, relative, lastPoint0.y) == State(lastPoint, lastEnd, currentSubpath, done)
  {
    lastPoint, currentSubpath := lastPoint0, current0;
    var y := lastPoint.y;
    var i := 0;
    while i < |numbers|
      invariant 0 <= i <= |numbers|
      invariant Horizontal(State(lastPoint, lastEnd, currentSubpath, done), numbers[i..], relative, y)
             == Horizontal(State(lastPoint0, lastEnd, current0, done), numbers, relative, y)
    {
      ghost var st := State(lastPoint, lastEnd, currentSubpath, done);
      HorizontalStep(st, numbers, i, relative, y);
      var x := numbers[i];
      if relative {
        x := lastPoint.x + x;
      }
      if currentSubpath == [] {
        currentSubpath := currentSubpath + [lastEnd];
      }
      assert currentSubpath == Seeded(st);
      currentSubpath := currentSubpath + [Some(Point(x, y))];
      lastPoint := Point(x, y);
      assert State(lastPoint, lastEnd, currentSubpath, done) == st.(current := Seeded(st) + [Some(Point(x, y))], lastPoint := Point(x, y));
      i := i + 1;
    }
  }

  /** Lines 108-115. */
  method VerticalLoop(numbers: seq<real>, relative: bool, lastPoint0: Point, lastEnd: Vertex, current0: seq<Vertex>, done: seq<seq<Vertex>>)
    returns (lastPoint: Point, currentSubpath: seq<Vertex>)
    ensures Vertical(State(lastPoint0, lastEnd, current0, done), numbers, relative, lastPoint0.x) == State(lastPoint, lastEnd, currentSubpath, done)
  {
    lastPoint, currentSubpath := lastPoint0, current0;
    var x := lastPoint.x;
    var i := 0;
    while i < |numbers|
      invariant 0 <= i <= |numbers|
      invariant Vertical(State(lastPoint, lastEnd, currentSubpath, done), numbers[i..], relative, x)
             == Vertical(State(lastPoint0, lastEnd, current0, done), numbers, relative, x)
    {
      ghost var st := State(lastPoint, lastEnd, currentSubpath, done);
      VerticalStep(st, numbers, i, relative, x);
      var y := numbers[i];
      if relative {
        y := lastPoint.y + y;
      }
      if currentSubpath == [] {
        currentSubpath := currentSubpath + [lastEnd];
      }
      assert currentSubpath == Seeded(st);
      currentSubpath := currentSubpath + [Some(Point(x, y))];
      lastPoint := Point(x, y);
      assert State(lastPoint, lastEnd, currentSubpath, done) == st.(current := Seeded(st) + [Some(Point(x, y))], lastPoint := Point(x, y));
      i := i + 1;
    }
  }

  /** One pair of a lineto. */
  lemma LinetoStep(st: State, numbers: seq<real>, i: nat, relative: bool)
    requires i + 2 <= |numbers|
    ensures var p := Target(st.lastPoint, numbers[i], numbers[i + 1], relative);
      Lineto(st, numbers[i..], relative) == Lineto(st.(current := Seeded(st) + [Some(p)], lastPoint := p), numbers[i + 2..], relative)
  {
    assert numbers[i..][2..] == numbers[i + 2..];
  }

  /** One value of a horizontal lineto. */
  lemma HorizontalStep(st: State, numbers: seq<real>, i: nat, relative: bool, y: real)
    requires i < |numbers|
    ensures var x := if relative then st.lastPoint.x + numbers[i] else numbers[i];
      Horizontal(st, numbers[i..], relative, y) == Horizontal(st.(current := Seeded(st) + [Some(Point(x, y))], lastPoint := Point(x, y)), numbers[i + 1..], relative, y)
  {
    assert numbers[i..][1..] == numbers[i + 1..];
  }

  /** One value of a vertical lineto. */
  lemma VerticalStep(st: State, numbers: seq<real>, i: nat, relative: bool, x: real)
    requires i < |numbers|
    ensures var y := if relative then st.lastPoint.y + numbers[i] else numbers[i];
      Vertical(st, numbers[i..], relative, x) == Vertical(st.(current := Seeded(st) + [Some(Point(x, y))], lastPoint := Point(x, y)), numbers[i + 1..], relative, x)
  {
    assert numbers[i..][1..] == numbers[i + 1..];
  }
}
