/**
 * Properties of the path-data parser: the number tokenizer matches the
 * regular expression, each command has the effect the SVG path grammar gives
 * it, printed paths parse back to their commands, and the parse results have
 * the shape the rest of the converter relies on.
 */
module PathDataProps {
  import opened Wrappers
  import opened Geometry
  import opened Text
  import opened PathData

  // ---------------------------------------------------------------------------
  // The number tokenizer

  /** No run of digits longer than DigitRun's starts s. */
  lemma {:induction false} DigitRunLongest(s: string, k: nat)
    requires k <= |s| && AllDigits(s[..k])
    ensures k <= DigitRun(s)
  {
    if k > 0 {
      assert s[..k][0] == s[0];
      assert s[1..][..k - 1] == s[..k][1..];
      DigitRunLongest(s[1..], k - 1);
    }
  }

  /** The run of digits stops at the first character that is not a digit. */
  lemma {:induction false} DigitRunStops(s: string, i: nat)
    requires i < |s| && !IsDigit(s[i])
    ensures DigitRun(s) <= i
  {
    if i > 0 && IsDigit(s[0]) {
      DigitRunStops(s[1..], i - 1);
    }
  }

  /** What UnsignedMatch matches is a word of [0-9]+(\.[0-9]+)? */
  lemma UnsignedMatchIsNumeral(s: string)
    requires UnsignedMatch(s) > 0
    ensures IsUnsignedNumeral(s[..UnsignedMatch(s)])
  {
    var whole := DigitRun(s);
    var n := UnsignedMatch(s);
    var t := s[..n];
    if n != whole {
      var f := DigitRun(s[whole + 1..]);
      assert t[whole] == '.';
      assert t[..whole] == s[..whole];
      assert t[whole + 1..] == s[whole + 1..][..f];
    }
  }

  /** No word of [0-9]+(\.[0-9]+)? longer than UnsignedMatch's starts s. */
  lemma UnsignedMatchLongest(s: string, k: nat)
    requires k <= |s| && IsUnsignedNumeral(s[..k])
    ensures k <= UnsignedMatch(s)
  {
    var t := s[..k];
    var whole := DigitRun(s);
    if |t| > 0 && AllDigits(t) {
      DigitRunLongest(s, k);
    } else {
      var i :| 0 < i < |t| - 1 && t[i] == '.' && AllDigits(t[..i]) && AllDigits(t[i + 1..]);
      assert t[..i] == s[..i];
      DigitRunLongest(s, i);
      DigitRunStops(s, i);
      var rest := s[whole + 1..];
      assert rest[..k - whole - 1] == t[i + 1..];
      DigitRunLongest(rest, k - whole - 1);
    }
  }

  /** An unsigned numeral starts with a digit. */
  lemma UnsignedNumeralHead(u: string)
    ensures IsUnsignedNumeral(u) ==> |u| > 0 && IsDigit(u[0])
  {
    if IsUnsignedNumeral(u) && !(|u| > 0 && AllDigits(u)) {
      var i :| 0 < i < |u| - 1 && u[i] == '.' && AllDigits(u[..i]) && AllDigits(u[i + 1..]);
      assert u[..i][0] == u[0];
    }
  }

  /** Line 60: a non-empty match of the number pattern is a word of -?[0-9]+(\.[0-9]+)? */
  lemma MatchNumberIsNumeral(s: string)
    requires MatchNumber(s) > 0
    ensures IsNumeral(s[..MatchNumber(s)])
  {
    var sign := if s != [] && s[0] == '-' then 1 else 0;
    var t := s[..MatchNumber(s)];
    UnsignedMatchIsNumeral(s[sign..]);
    assert t[sign..] == s[sign..][..UnsignedMatch(s[sign..])];
  }

  /**
   * Line 60: the match is the longest prefix of s in the language of
   * -?[0-9]+(\.[0-9]+)?; in particular it is empty only when no prefix is a number.
   */
  lemma MatchNumberLongest(s: string, k: nat)
    requires k <= |s| && IsNumeral(s[..k])
    ensures 0 < k <= MatchNumber(s)
  {
    var t := s[..k];
    UnsignedNumeralHead(t);
    UnsignedNumeralHead(t[1..]);
    if s != [] && s[0] == '-' {
      assert t[1..] == s[1..][..k - 1];
      UnsignedMatchLongest(s[1..], k - 1);
    } else {
      assert s[0..] == s;
      UnsignedMatchLongest(s, k);
    }
  }

  // ---------------------------------------------------------------------------
  // Reading back printed numbers

  /** A string of digits runs up to the first non-digit after it. */
  lemma {:induction false} DigitRunOfDigits(a: string, b: string)
    requires AllDigits(a) && (b == [] || !IsDigit(b[0]))
    ensures DigitRun(a + b) == |a|
  {
    if a == [] {
      assert a + b == b;
    } else {
      assert (a + b)[1..] == a[1..] + b;
      assert forall i :: 0 <= i < |a| - 1 ==> a[1..][i] == a[i + 1];
      DigitRunOfDigits(a[1..], b);
    }
  }

  /**
   * What '%d' writes, followed by anything that cannot continue a number, is
   * matched by the number pattern exactly and read back as the same integer.
   */
  lemma MatchFormatInt(n: int, rest: string)
    requires rest == [] || (!IsDigit(rest[0]) && rest[0] != '.')
    ensures MatchNumber(FormatInt(n) + rest) == |FormatInt(n)|
    ensures NumeralValue(FormatInt(n)) == n as real
  {
    FormatIntValue(n);
    MatchSigned(FormatInt(n), rest, if n < 0 then -n else n);
  }

  /** An optional minus sign, then a run of digits, is matched exactly and read back as its value. */
  lemma MatchSigned(f: string, rest: string, v: nat)
    requires |f| > 0
    requires f[0] == '-' ==> |f| > 1 && AllDigits(f[1..]) && DigitsValue(f[1..]) == v
    requires f[0] != '-' ==> AllDigits(f) && DigitsValue(f) == v
    requires rest == [] || (!IsDigit(rest[0]) && rest[0] != '.')
    ensures MatchNumber(f + rest) == |f|
    ensures NumeralValue(f) == if f[0] == '-' then -(v as real) else v as real
  {
    if f[0] == '-' {
      MatchDigits(f[1..], rest);
      MatchNegative(f[1..], rest);
      assert f == "-" + f[1..];
    } else {
      MatchDigits(f, rest);
      assert (f + rest)[0] == f[0];
      assert (f + rest)[0..] == f + rest;
    }
  }

  lemma MatchNegative(d: string, rest: string)
    requires UnsignedMatch(d + rest) == |d| > 0
    ensures MatchNumber("-" + d + rest) == 1 + |d|
    ensures NumeralValue("-" + d) == -UnsignedValue(d)
  {
    MatchMinus("-" + d + rest, d + rest);
    ValueMinus("-" + d, d);
  }

  lemma MatchMinus(s: string, u: string)
    requires s == "-" + u
    ensures MatchNumber(s) == if UnsignedMatch(u) == 0 then 0 else 1 + UnsignedMatch(u)
  {
    assert s[1..] == u;
  }

  lemma ValueMinus(f: string, u: string)
    requires f == "-" + u
    ensures NumeralValue(f) == -UnsignedValue(u)
  {
    assert f[1..] == u;
  }

  /** A run of digits, followed by anything that cannot continue a number, is matched exactly. */
  lemma MatchDigits(digits: string, rest: string)
    requires |digits| > 0 && AllDigits(digits)
    requires rest == [] || (!IsDigit(rest[0]) && rest[0] != '.')
    ensures UnsignedMatch(digits + rest) == |digits|
    ensures UnsignedValue(digits) == DigitsValue(digits) as real
  {
    DigitRunOfDigits(digits, rest);
    DigitRunOfDigits(digits, []);
    assert digits + [] == digits;
    assert digits[..|digits|] == digits;
  }

  /** Read front to back, the first of the digits f weighs 10^(|f| - 1). */
  lemma {:induction false} DigitsValueFront(f: string)
    requires |f| > 0
    ensures DigitsValue(f) == DigitValue(f[0]) * Pow10(|f| - 1) + DigitsValue(f[1..])
    decreases |f|
  {
    if |f| == 1 {
      assert f[1..] == [] && f[..0] == [];
    } else {
      var g := f[..|f| - 1];
      DigitsValueFront(g);
      assert g[0] == f[0];
      assert f[1..][..|f| - 2] == g[1..];
      assert f[1..][|f| - 2] == f[|f| - 1];
      assert DigitsValue(f[1..]) == DigitsValue(g[1..]) * 10 + DigitValue(f[|f| - 1]);
      assert Pow10(|f| - 1) == 10 * Pow10(|f| - 2);
      DigitsValueShift(DigitValue(f[0]), Pow10(|f| - 2), DigitsValue(g[1..]), DigitValue(f[|f| - 1]));
    }
  }

  lemma DigitsValueShift(d: nat, p: nat, v: nat, last: nat)
    ensures (d * p + v) * 10 + last == d * (10 * p) + (v * 10 + last)
  {
  }

  /** The fraction digits after the point are worth their integer value over 10^(their count). */
  lemma {:induction false} FractionValueDigits(f: string)
    ensures FractionValue(f) == DigitsValue(f) as real / Pow10(|f|) as real
    decreases |f|
  {
    if f != [] {
      FractionValueDigits(f[1..]);
      DigitsValueFront(f);
      FractionStep(DigitValue(f[0]), DigitsValue(f[1..]), Pow10(|f| - 1));
    }
  }

  lemma FractionStep(d: nat, v: nat, p: nat)
    requires p >= 1
    ensures (d as real + v as real / p as real) / 10.0 == (d * p + v) as real / (10 * p) as real
  {
    assert (d * p) as real == d as real * p as real;
    assert (10 * p) as real == 10.0 * p as real;
  }

  /**
   * Lines 60-63: a numeral with digits on both sides of its point is worth
   * its whole part plus its fraction digits over 10^(their count), and with
   * a minus sign in front the negation of that.
   */
  lemma DecimalValue(d: string, f: string)
    requires |d| > 0 && AllDigits(d) && |f| > 0 && AllDigits(f)
    ensures NumeralValue(d + "." + f) == DigitsValue(d) as real + DigitsValue(f) as real / Pow10(|f|) as real
    ensures NumeralValue("-" + d + "." + f) == -(DigitsValue(d) as real + DigitsValue(f) as real / Pow10(|f|) as real)
  {
    var u := d + "." + f;
    DigitRunOfDigits(d, "." + f);
    assert u == d + ("." + f);
    assert u[..|d|] == d && u[|d|] == '.' && u[|d| + 1..] == f;
    assert u[0] == d[0];
    FractionValueDigits(f);
    ValueMinus("-" + d + "." + f, u);
  }

  /** Line 60: digits, a point and more digits are matched as one number, with or without a minus sign. */
  lemma MatchDecimal(d: string, f: string, rest: string)
    requires |d| > 0 && AllDigits(d) && |f| > 0 && AllDigits(f)
    requires rest == [] || !IsDigit(rest[0])
    ensures MatchNumber(d + "." + f + rest) == |d| + 1 + |f|
    ensures MatchNumber("-" + d + "." + f + rest) == 1 + |d| + 1 + |f|
  {
    var u := d + "." + f + rest;
    DecimalConcat(d, f, rest);
    UnsignedDecimal(u, d, "." + (f + rest), f, rest);
    MatchUnsigned(u);
    MatchMinus("-" + u, u);
  }

  lemma DecimalConcat(d: string, f: string, rest: string)
    ensures d + "." + f + rest == d + ("." + (f + rest))
    ensures "-" + d + "." + f + rest == "-" + (d + "." + f + rest)
  {
  }

  lemma MatchUnsigned(u: string)
    requires u != [] && u[0] != '-'
    ensures MatchNumber(u) == UnsignedMatch(u)
  {
    assert u[0..] == u;
  }

  lemma UnsignedDecimal(u: string, d: string, point: string, f: string, rest: string)
    requires |d| > 0 && AllDigits(d) && |f| > 0 && AllDigits(f)
    requires rest == [] || !IsDigit(rest[0])
    requires point == "." + (f + rest) && u == d + point
    ensures UnsignedMatch(u) == |d| + 1 + |f|
  {
    DigitRunOfDigits(d, point);
    DigitRunOfDigits(f, rest);
    assert u[|d|] == '.' && u[|d| + 1..] == f + rest;
  }

  /** A decimal numeral followed by a space and text that starts with no whitespace. */
  lemma DecimalThenSpace(s: string, d: string, f: string, x: string)
    requires |d| > 0 && AllDigits(d) && |f| > 0 && AllDigits(f) && (x == [] || !IsSpace(x[0]))
    requires s == d + "." + f + (" " + x)
    ensures var n := |d| + 1 + |f|;
      && MatchNumber(s) == n
      && s[..n] == d + "." + f
      && LStrip(s[n..]) == x
  {
    MatchDecimal(d, f, " " + x);
    assert s[..|d| + 1 + |f|] == d + "." + f;
    assert s[|d| + 1 + |f|..] == " " + x;
    LStripSpace(x);
  }

  /** lstrip() of one space before a string that starts with no whitespace. */
  lemma LStripSpace(x: string)
    requires x == [] || !IsSpace(x[0])
    ensures LStrip(" " + x) == x
  {
    assert (" " + x)[1..] == x;
  }

  /** lstrip() of a string that starts with no whitespace. */
  lemma LStripNoSpace(x: string)
    requires x == [] || !IsSpace(x[0])
    ensures LStrip(x) == x
  {
  }

  // ---------------------------------------------------------------------------
  // Printed paths read back as their commands

  /** A path command with integer arguments, as a path string spells it. */
  datatype Command = Command(letter: char, args: seq<int>)

  /** A command letter that the tokenizer cannot mistake for whitespace, a separator or a digit. */
  predicate PrintableLetter(c: char) { !IsDigit(c) && !IsSpace(c) && c != ',' }

  /** The arguments of one command, each written by '%d' and followed by a space, then `rest`. */
  function ArgsText(args: seq<int>, rest: string): string {
    if args == [] then rest else FormatInt(args[0]) + (" " + ArgsText(args[1..], rest))
  }

  /** A path string: each command letter, a space, then its arguments. */
  function PathText(cmds: seq<Command>): string {
    if cmds == [] then [] else [cmds[0].letter] + (" " + ArgsText(cmds[0].args, PathText(cmds[1..])))
  }

  /** The tokenizer's lstrip() leaves the string alone. */
  predicate StartsUnspaced(x: string) { x == [] || !IsSpace(x[0]) }

  function Reals(args: seq<int>): (r: seq<real>)
    ensures |r| == |args| && forall i :: 0 <= i < |args| ==> r[i] == args[i] as real
  {
    if args == [] then [] else [args[0] as real] + Reals(args[1..])
  }

  /**
   * The commands executed one after the other, with no text in between: the
   * reference the tokenizer is measured against.
   */
  function Run(cmds: seq<Command>, st: State, first: bool): Result<seq<seq<Vertex>>, ParseError>
    decreases |cmds|
  {
    if cmds == [] then Ok(Finish(st))
    else if first && !IsMoveto(cmds[0].letter) then Err(MustStartWithMoveto)
    else
      match Execute(st, cmds[0].letter, Reals(cmds[0].args))
      case Err(e) => Err(e)
      case Ok(next) => Run(cmds[1..], next, false)
  }

  predicate AllPrintable(cmds: seq<Command>) {
    forall i :: 0 <= i < |cmds| ==> PrintableLetter(cmds[i].letter)
  }

  /** Printed arguments add no comma, and start with no whitespace. */
  lemma {:induction false} ArgsTextChars(args: seq<int>, rest: string)
    ensures ',' !in rest ==> ',' !in ArgsText(args, rest)
    ensures StartsUnspaced(rest) ==> StartsUnspaced(ArgsText(args, rest))
  {
    if args != [] {
      FormatIntChars(args[0]);
      ArgsTextChars(args[1..], rest);
      var f := FormatInt(args[0]);
      assert ',' !in f;
      assert ArgsText(args, rest)[0] == f[0];
    }
  }

  lemma AllPrintableTail(cmds: seq<Command>)
    requires cmds != [] && AllPrintable(cmds)
    ensures PrintableLetter(cmds[0].letter) && AllPrintable(cmds[1..])
  {
    forall i | 0 <= i < |cmds| - 1 ensures PrintableLetter(cmds[1..][i].letter) {
      assert cmds[1..][i] == cmds[i + 1];
    }
  }

  /** A printed path contains no comma. */
  lemma {:induction false} PathTextNoComma(cmds: seq<Command>)
    requires AllPrintable(cmds)
    ensures ',' !in PathText(cmds)
  {
    if cmds != [] {
      AllPrintableTail(cmds);
      PathTextNoComma(cmds[1..]);
      ArgsTextChars(cmds[0].args, PathText(cmds[1..]));
    }
  }

  /** A letter that is not a digit, then a space, begins no number, even when the letter is '-'. */
  lemma LetterBeginsNoNumber(c: char, tail: string)
    requires !IsDigit(c)
    ensures MatchNumber([c] + (" " + tail)) == 0
  {
    var s := [c] + (" " + tail);
    assert s[0] == c && s[1] == ' ';
    assert s[1..][0] == ' ';
  }

  /** A printed path starts with a letter that begins no number. */
  lemma PathTextHead(cmds: seq<Command>)
    requires AllPrintable(cmds)
    ensures StartsUnspaced(PathText(cmds)) && MatchNumber(PathText(cmds)) == 0
  {
    if cmds != [] {
      var c := cmds[0].letter;
      assert PrintableLetter(c);
      LetterBeginsNoNumber(c, ArgsText(cmds[0].args, PathText(cmds[1..])));
    }
  }

  /** A printed number followed by a space and text that starts with no whitespace. */
  lemma NumberThenSpace(n: int, x: string)
    requires StartsUnspaced(x)
    ensures var s, f := FormatInt(n) + (" " + x), FormatInt(n);
      && MatchNumber(s) == |f|
      && NumeralValue(s[..|f|]) == n as real
      && LStrip(s[|f|..]) == x
  {
    var f := FormatInt(n);
    var s := f + (" " + x);
    MatchFormatInt(n, " " + x);
    assert s[..|f|] == f;
    assert s[|f|..] == " " + x;
    LStripSpace(x);
  }

  /** One unfolding of ScanNumbers when a number starts the data. */
  lemma ScanNumbersCons(s: string)
    requires MatchNumber(s) > 0
    ensures var n := MatchNumber(s);
      ScanNumbers(s) == ([NumeralValue(s[..n])] + ScanNumbers(LStrip(s[n..])).0, ScanNumbers(LStrip(s[n..])).1)
  {
  }

  /** The tokenizer reads printed arguments back as the same numbers and stops at the next letter. */
  lemma {:induction false} ScanArgsText(args: seq<int>, rest: string)
    requires StartsUnspaced(rest) && MatchNumber(rest) == 0
    ensures ScanNumbers(ArgsText(args, rest)) == (Reals(args), rest)
    decreases |args|
  {
    if args != [] {
      ArgsTextChars(args[1..], rest);
      NumberThenSpace(args[0], ArgsText(args[1..], rest));
      ScanNumbersCons(ArgsText(args, rest));
      ScanArgsText(args[1..], rest);
    }
  }

  /** Lines 51-64 on a printed path: the first letter, its arguments read back, and the path after them. */
  lemma NextCommandOfPathText(cmds: seq<Command>)
    requires cmds != [] && AllPrintable(cmds)
    ensures NextCommand(PathText(cmds)) == Some(Token(cmds[0].letter, Reals(cmds[0].args), PathText(cmds[1..])))
  {
    var p := PathText(cmds[1..]);
    var x := ArgsText(cmds[0].args, p);
    var data := PathText(cmds);
    PathTextHead(cmds);
    PathTextNoComma(cmds);
    LStripNoSpace(data);
    ReplaceAllAbsent(data, ",", " ", 0);
    assert data[1..] == " " + x;
    AllPrintableTail(cmds);
    PathTextHead(cmds[1..]);
    ArgsTextChars(cmds[0].args, p);
    LStripSpace(x);
    ScanArgsText(cmds[0].args, p);
  }

  /**
   * Lines 50-64 tokenize correctly: a path printed with one space after every
   * letter and number parses to what running its commands directly gives.
   */
  lemma {:induction false} ParsePathText(cmds: seq<Command>, st: State, first: bool)
    requires AllPrintable(cmds)
    ensures ParseFrom(PathText(cmds), st, first) == Run(cmds, st, first)
    decreases |cmds|
  {
    if cmds != [] {
      var c, nums := cmds[0].letter, Reals(cmds[0].args);
      NextCommandOfPathText(cmds);
      ParseFromToken(PathText(cmds), st, first);
      if !(first && !IsMoveto(c)) && Execute(st, c, nums).Ok? {
        AllPrintableTail(cmds);
        ParsePathText(cmds[1..], Execute(st, c, nums).value, false);
      }
    }
  }

  /** One step of ParseFrom on data whose next command the tokenizer finds. */
  lemma ParseFromToken(data: string, st: State, first: bool)
    requires data != [] && NextCommand(data).Some?
    ensures var t := NextCommand(data).value;
      ParseFrom(data, st, first) ==
        if first && !IsMoveto(t.command) then Err(MustStartWithMoveto)
        else if Execute(st, t.command, t.numbers).Err? then Err(Execute(st, t.command, t.numbers).error)
        else ParseFrom(t.rest, Execute(st, t.command, t.numbers).value, false)
  {
  }

  // ---------------------------------------------------------------------------
  // What each command does

  /** The points a list of coordinate pairs addresses, each relative pair an offset from the point before. */
  function Points(from: Point, nums: seq<real>, relative: bool): (r: seq<Point>)
    ensures |r| == |nums| / 2
    decreases |nums|
  {
    if |nums| < 2 then []
    else
      var p := Target(from, nums[0], nums[1], relative);
      [p] + Points(p, nums[2..], relative)
  }

  /**
   * Lines 72-73 and 86-87: an absolute pair is the point itself; a relative
   * pair is an offset from the point the previous pair reached, the first one
   * from where the command started.
   */
  lemma {:induction false} PointsMeaning(from: Point, nums: seq<real>, relative: bool, i: nat)
    requires i < |nums| / 2
    ensures var ps, prev := Points(from, nums, relative), if i == 0 then from else Points(from, nums, relative)[i - 1];
      ps[i] == if relative then Point(prev.x + nums[2 * i], prev.y + nums[2 * i + 1]) else Point(nums[2 * i], nums[2 * i + 1])
    decreases i
  {
    if i > 0 {
      var p := Target(from, nums[0], nums[1], relative);
      PointsMeaning(p, nums[2..], relative, i - 1);
      assert nums[2..][2 * (i - 1)] == nums[2 * i];
      assert nums[2..][2 * (i - 1) + 1] == nums[2 * i + 1];
    }
  }

  function Somes(ps: seq<Point>): (r: seq<Vertex>)
    ensures |r| == |ps| && forall i :: 0 <= i < |ps| ==> r[i] == Some(ps[i])
  {
    if ps == [] then [] else [Some(ps[0])] + Somes(ps[1..])
  }

  /** One one-vertex subpath per point. */
  function Singletons(ps: seq<Point>): (r: seq<seq<Vertex>>)
    ensures |r| == |ps| && forall i :: 0 <= i < |ps| ==> r[i] == [Some(ps[i])]
  {
    if ps == [] then [] else [[Some(ps[0])]] + Singletons(ps[1..])
  }

  lemma SomesCons(p: Point, ps: seq<Point>)
    ensures Somes([p] + ps) == [Some(p)] + Somes(ps)
  {
    assert ([p] + ps)[1..] == ps;
  }

  lemma SingletonsCons(p: Point, ps: seq<Point>)
    ensures Singletons([p] + ps) == [[Some(p)]] + Singletons(ps)
  {
    assert ([p] + ps)[1..] == ps;
  }

  lemma AppendAssoc<T>(a: seq<T>, b: seq<T>, c: seq<T>)
    ensures (a + b) + c == a + (b + c)
  {
  }

  /**
   * Lines 84-91: a lineto appends all its points to the open subpath, which is
   * first seeded with the last end point when none is open, and ends at its last point.
   */
  lemma {:induction false} LinetoEffect(st: State, nums: seq<real>, relative: bool)
    requires |nums| >= 2
    ensures var ps := Points(st.lastPoint, nums, relative);
      Lineto(st, nums, relative) == st.(current := Seeded(st) + Somes(ps), lastPoint := ps[|ps| - 1])
    decreases |nums|
  {
    var p := Target(st.lastPoint, nums[0], nums[1], relative);
    var st1 := st.(current := Seeded(st) + [Some(p)], lastPoint := p);
    var rest := Points(p, nums[2..], relative);
    if |nums[2..]| >= 2 {
      LinetoEffect(st1, nums[2..], relative);
      SomesCons(p, rest);
      AppendAssoc(Seeded(st), [Some(p)], Somes(rest));
    } else {
      assert Somes([p]) == [Some(p)];
    }
  }

  /**
   * Lines 70-79: a moveto closes off the open subpath, if any, and every one
   * of its points but the last becomes a one-vertex subpath of its own; the
   * last point is the new open subpath, and the point before it the last end point.
   */
  lemma {:induction false} MovetoEffect(st: State, nums: seq<real>, relative: bool)
    requires |nums| >= 2
    ensures var ps, r, f := Points(st.lastPoint, nums, relative), Moveto(st, nums, relative), FlushCurrent(st);
      && r.current == [Some(ps[|ps| - 1])]
      && r.lastPoint == ps[|ps| - 1]
      && r.done == f.done + Singletons(ps[..|ps| - 1])
      && r.lastEnd == (if |ps| > 1 then Some(ps[|ps| - 2]) else f.lastEnd)
    decreases |nums|
  {
    var p := Target(st.lastPoint, nums[0], nums[1], relative);
    var f := FlushCurrent(st);
    var st1 := f.(current := f.current + [Some(p)], lastPoint := p);
    assert st1.current == [Some(p)];
    var ps := Points(st.lastPoint, nums, relative);
    var rest := Points(p, nums[2..], relative);
    if |nums[2..]| >= 2 {
      MovetoEffect(st1, nums[2..], relative);
      var init := rest[..|rest| - 1];
      assert ps[..|ps| - 1] == [p] + init;
      SingletonsCons(p, init);
      AppendAssoc(f.done, [[Some(p)]], Singletons(init));
    } else {
      assert ps[..|ps| - 1] == [];
    }
  }

  /** The arguments of a horizontal lineto as the coordinate pairs of a lineto: each x with the fixed y. */
  function HorizontalPairs(xs: seq<real>, y: real): (r: seq<real>)
    ensures |r| == 2 * |xs|
  {
    if xs == [] then [] else [xs[0], y] + HorizontalPairs(xs[1..], y)
  }

  /** The arguments of a vertical lineto as the coordinate pairs of a lineto: the fixed x with each y. */
  function VerticalPairs(ys: seq<real>, x: real): (r: seq<real>)
    ensures |r| == 2 * |ys|
  {
    if ys == [] then [] else [x, ys[0]] + VerticalPairs(ys[1..], x)
  }

  /**
   * Lines 96-103: `H x1 x2` is `L x1 y x2 y` with y the current one, and
   * `h dx1 dx2` is `l dx1 0 dx2 0`.
   */
  lemma {:induction false} HorizontalIsLineto(st: State, xs: seq<real>, relative: bool)
    ensures var y := st.lastPoint.y;
      Horizontal(st, xs, relative, y) == Lineto(st, HorizontalPairs(xs, if relative then 0.0 else y), relative)
    decreases |xs|
  {
    var y := st.lastPoint.y;
    if xs != [] {
      var pairs := HorizontalPairs(xs, if relative then 0.0 else y);
      var x := if relative then st.lastPoint.x + xs[0] else xs[0];
      assert Target(st.lastPoint, pairs[0], pairs[1], relative) == Point(x, y);
      assert pairs[2..] == HorizontalPairs(xs[1..], if relative then 0.0 else y);
      HorizontalIsLineto(st.(current := Seeded(st) + [Some(Point(x, y))], lastPoint := Point(x, y)), xs[1..], relative);
    }
  }

  /**
   * Lines 108-115: `V y1 y2` is `L x y1 x y2` with x the current one, and
   * `v dy1 dy2` is `l 0 dy1 0 dy2`.
   */
  lemma {:induction false} VerticalIsLineto(st: State, ys: seq<real>, relative: bool)
    ensures var x := st.lastPoint.x;
      Vertical(st, ys, relative, x) == Lineto(st, VerticalPairs(ys, if relative then 0.0 else x), relative)
    decreases |ys|
  {
    var x := st.lastPoint.x;
    if ys != [] {
      var pairs := VerticalPairs(ys, if relative then 0.0 else x);
      var y := if relative then st.lastPoint.y + ys[0] else ys[0];
      assert Target(st.lastPoint, pairs[0], pairs[1], relative) == Point(x, y);
      assert pairs[2..] == VerticalPairs(ys[1..], if relative then 0.0 else x);
      VerticalIsLineto(st.(current := Seeded(st) + [Some(Point(x, y))], lastPoint := Point(x, y)), ys[1..], relative);
    }
  }

  /**
   * Lines 117-123 then 88-89: a lineto right after a closepath starts its
   * subpath at the first vertex of the subpath just closed.
   */
  lemma CloseThenLineto(st: State, nums: seq<real>, relative: bool)
    requires st.current != [] && |nums| >= 2
    ensures var closed := Closepath(st); var ps := Points(st.lastPoint, nums, relative);
      && closed.done == st.done + [st.current + [st.current[0]]]
      && closed.current == [] && closed.lastEnd == st.current[0] && closed.lastPoint == st.lastPoint
      && Lineto(closed, nums, relative).current == [st.current[0]] + Somes(ps)
  {
    LinetoEffect(Closepath(st), nums, relative);
  }

  // ---------------------------------------------------------------------------
  // The shape of what the parser returns

  /** A successful parse of non-empty data took one command that succeeded, then parsed the rest. */
  lemma ParseFromOk(data: string, st: State, first: bool)
    requires data != [] && ParseFrom(data, st, first).Ok?
    ensures NextCommand(data).Some?
    ensures var t := NextCommand(data).value;
      && (first ==> IsMoveto(t.command))
      && Execute(st, t.command, t.numbers).Ok?
      && ParseFrom(data, st, first) == ParseFrom(t.rest, Execute(st, t.command, t.numbers).value, false)
  {
  }

  /** Every subpath the parser has finished holds at least one vertex. */
  predicate DoneNonEmpty(st: State) {
    forall i :: 0 <= i < |st.done| ==> st.done[i] != []
  }

  /** Line, horizontal and vertical commands extend the open subpath and touch neither the done list nor the last end point. */
  lemma LinetoKeepsDone(st: State, nums: seq<real>, relative: bool)
    ensures Lineto(st, nums, relative).done == st.done
    ensures Lineto(st, nums, relative).lastEnd == st.lastEnd
  {
    if |nums| >= 2 {
      LinetoEffect(st, nums, relative);
    }
  }

  /** A command that succeeds finishes only subpaths that hold a vertex. */
  lemma ExecuteKeepsNonEmpty(st: State, command: char, nums: seq<real>)
    requires DoneNonEmpty(st) && Execute(st, command, nums).Ok?
    ensures DoneNonEmpty(Execute(st, command, nums).value)
  {
    var relative := IsLower(command);
    if IsMoveto(command) {
      MovetoEffect(st, nums, relative);
    } else if command == 'L' || command == 'l' {
      LinetoKeepsDone(st, nums, relative);
    } else if command == 'H' || command == 'h' {
      HorizontalIsLineto(st, nums, relative);
      LinetoKeepsDone(st, HorizontalPairs(nums, if relative then 0.0 else st.lastPoint.y), relative);
    } else if command == 'V' || command == 'v' {
      VerticalIsLineto(st, nums, relative);
      LinetoKeepsDone(st, VerticalPairs(nums, if relative then 0.0 else st.lastPoint.x), relative);
    }
  }

  lemma {:induction false} ParseFromNonEmpty(data: string, st: State, first: bool)
    requires DoneNonEmpty(st) && ParseFrom(data, st, first).Ok?
    ensures forall i :: 0 <= i < |ParseFrom(data, st, first).value| ==> ParseFrom(data, st, first).value[i] != []
    decreases |data|
  {
    if data != [] {
      ParseFromOk(data, st, first);
      var t := NextCommand(data).value;
      ExecuteKeepsNonEmpty(st, t.command, t.numbers);
      ParseFromNonEmpty(t.rest, Execute(st, t.command, t.numbers).value, false);
    }
  }

  /**
   * Lines 128-130: every subpath parse_svg_data returns holds at least one
   * vertex, so the right edge of each is defined when the paths are sorted at line 139.
   */
  lemma ParseNonEmptySubpaths(data: string)
    ensures Parse(data).Ok? ==> forall i :: 0 <= i < |Parse(data).value| ==> Parse(data).value[i] != []
    ensures ParseIntended(data).Ok? ==> forall i :: 0 <= i < |ParseIntended(data).value| ==> ParseIntended(data).value[i] != []
  {
    if Parse(data).Ok? {
      ParseFromNonEmpty(data, Initial, false);
    }
    if ParseIntended(data).Ok? {
      ParseFromNonEmpty(data, Initial, true);
    }
  }

  /** Every vertex the parser holds, open or finished, is a point. */
  predicate VerticesArePoints(st: State) {
    && (forall j :: 0 <= j < |st.current| ==> st.current[j].Some?)
    && (forall i, j :: 0 <= i < |st.done| && 0 <= j < |st.done[i]| ==> st.done[i][j].Some?)
  }

  /** ... and a line command with no subpath open has a point to start from. */
  predicate Anchored(st: State) {
    VerticesArePoints(st) && (st.current == [] ==> st.lastEnd.Some?)
  }

  /** A moveto leaves the parser anchored, whatever the last end point was before. */
  lemma MovetoAnchors(st: State, nums: seq<real>, relative: bool)
    requires VerticesArePoints(st) && |nums| >= 2
    ensures Anchored(Moveto(st, nums, relative))
  {
    MovetoEffect(st, nums, relative);
    var f := FlushCurrent(st);
    var ps := Points(st.lastPoint, nums, relative);
    var r := Moveto(st, nums, relative);
    assert VerticesArePoints(f);
    forall i, j | 0 <= i < |r.done| && 0 <= j < |r.done[i]| ensures r.done[i][j].Some? {
      if i >= |f.done| {
        assert r.done[i] == Singletons(ps[..|ps| - 1])[i - |f.done|];
      }
    }
  }

  /** A command that succeeds from an anchored state keeps it anchored. */
  lemma ExecuteKeepsAnchored(st: State, command: char, nums: seq<real>)
    requires Anchored(st) && Execute(st, command, nums).Ok?
    ensures Anchored(Execute(st, command, nums).value)
  {
    var relative := IsLower(command);
    if IsMoveto(command) {
      MovetoAnchors(st, nums, relative);
    } else if command == 'L' || command == 'l' {
      LinetoAnchors(st, nums, relative);
    } else if command == 'H' || command == 'h' {
      HorizontalIsLineto(st, nums, relative);
      LinetoAnchors(st, HorizontalPairs(nums, if relative then 0.0 else st.lastPoint.y), relative);
    } else if command == 'V' || command == 'v' {
      VerticalIsLineto(st, nums, relative);
      LinetoAnchors(st, VerticalPairs(nums, if relative then 0.0 else st.lastPoint.x), relative);
    } else {
      var closed := st.current + [st.current[0]];
      assert forall j :: 0 <= j < |closed| ==> closed[j].Some?;
    }
  }

  lemma LinetoAnchors(st: State, nums: seq<real>, relative: bool)
    requires Anchored(st) && |nums| >= 2
    ensures Anchored(Lineto(st, nums, relative))
  {
    LinetoEffect(st, nums, relative);
    var ps := Points(st.lastPoint, nums, relative);
    var c := Seeded(st) + Somes(ps);
    assert forall j :: 0 <= j < |c| ==> c[j].Some? by {
      forall j | 0 <= j < |c| ensures c[j].Some? {
        if j >= |Seeded(st)| {
          assert c[j] == Somes(ps)[j - |Seeded(st)|];
        }
      }
    }
  }

  /** Every vertex of every subpath is a point. */
  predicate AllPoints(paths: seq<seq<Vertex>>) {
    forall i, j :: 0 <= i < |paths| && 0 <= j < |paths[i]| ==> paths[i][j].Some?
  }

  /** The subpaths Finish returns from a state whose vertices are all points. */
  lemma FinishPoints(st: State)
    requires VerticesArePoints(st)
    ensures AllPoints(Finish(st))
  {
    if st.current != [] {
      forall i, j | 0 <= i < |Finish(st)| && 0 <= j < |Finish(st)[i]| ensures Finish(st)[i][j].Some? {
        if i == |st.done| {
          assert Finish(st)[i] == st.current;
        }
      }
    }
  }

  lemma EvenCount(n: nat)
    requires n != 0 && n % 2 == 0
    ensures n >= 2
  {
  }

  lemma {:induction false} ParseFromPoints(data: string, st: State, first: bool)
    requires Anchored(st) || (first && VerticesArePoints(st))
    requires ParseFrom(data, st, first).Ok?
    ensures AllPoints(ParseFrom(data, st, first).value)
    decreases |data|
  {
    if data == [] {
      FinishPoints(st);
    } else {
      ParseFromOk(data, st, first);
      var t := NextCommand(data).value;
      var next := Execute(st, t.command, t.numbers).value;
      assert Anchored(next) by {
        if Anchored(st) {
          ExecuteKeepsAnchored(st, t.command, t.numbers);
        } else {
          assert |t.numbers| != 0 && |t.numbers| % 2 == 0;
          EvenCount(|t.numbers|);
          MovetoAnchors(st, t.numbers, IsLower(t.command));
        }
      }
      ParseFromPoints(t.rest, next, false);
    }
  }

  /**
   * With the leading-moveto check of lines 53-54 in force, every vertex of
   * every subpath is a point: no subpath is seeded with the missing last end point.
   */
  lemma ParseIntendedPoints(data: string)
    ensures ParseIntended(data).Ok? ==> AllPoints(ParseIntended(data).value)
  {
    if ParseIntended(data).Ok? {
      ParseFromPoints(data, Initial, true);
    }
  }

  /** No command handler reports the missing leading moveto: only the check of lines 53-54 could. */
  lemma ExecuteNeverMustStart(st: State, command: char, nums: seq<real>)
    ensures Execute(st, command, nums) != Err(MustStartWithMoveto)
  {
  }

  /**
   * As written (first_command is never set, lines 43 and 53-54), no path
   * data whatever is rejected for not starting with a moveto.
   */
  lemma {:induction false} ParseFromNeverMustStart(data: string, st: State)
    ensures ParseFrom(data, st, false) != Err(MustStartWithMoveto)
    decreases |data|
  {
    if data != [] {
      match NextCommand(data)
      case None =>
      case Some(t) =>
        ExecuteNeverMustStart(st, t.command, t.numbers);
        match Execute(st, t.command, t.numbers)
        case Err(e) =>
        case Ok(next) =>
          ParseFromNeverMustStart(t.rest, next);
    }
  }

  lemma ParseNeverMustStart(data: string)
    ensures Parse(data) != Err(MustStartWithMoveto)
  {
    ParseFromNeverMustStart(data, Initial);
  }

  // ---------------------------------------------------------------------------
  // Worked examples

  /** The text of one command, with nothing after it. */
  function CommandText(c: Command): string {
    [c.letter] + (" " + ArgsText(c.args, []))
  }

  lemma {:induction false} ArgsTextRest(args: seq<int>, rest: string)
    ensures ArgsText(args, rest) == ArgsText(args, []) + rest
  {
    if args != [] {
      ArgsTextRest(args[1..], rest);
      Assoc3(FormatInt(args[0]), " ", ArgsText(args[1..], []), rest);
    }
  }

  lemma Assoc3(a: string, b: string, c: string, d: string)
    ensures a + (b + (c + d)) == (a + (b + c)) + d
  {
  }

  /** A path string is its first command's text, then the rest. */
  lemma PathTextJoin(cmds: seq<Command>)
    requires cmds != []
    ensures PathText(cmds) == CommandText(cmds[0]) + PathText(cmds[1..])
  {
    var c := cmds[0];
    ArgsTextRest(c.args, PathText(cmds[1..]));
    assert [c.letter] + (" " + (ArgsText(c.args, []) + PathText(cmds[1..])))
        == ([c.letter] + (" " + ArgsText(c.args, []))) + PathText(cmds[1..]);
  }

  lemma FormatDigit(d: nat)
    requires d < 10
    ensures FormatInt(d) == [DigitChar(d)]
  {
  }

  /** The text of a one-digit first argument, then the others. */
  lemma ArgsTextDigit(args: seq<int>)
    requires args != [] && 0 <= args[0] < 10
    ensures ArgsText(args, []) == [DigitChar(args[0])] + (" " + ArgsText(args[1..], []))
  {
    FormatDigit(args[0]);
  }

  /** The text of arguments whose first is one digit, from the text of the others. */
  lemma ArgsTextStep(args: seq<int>, tail: string)
    requires args != [] && 0 <= args[0] < 10 && ArgsText(args[1..], []) == tail
    ensures ArgsText(args, []) == [DigitChar(args[0]), ' '] + tail
  {
    ArgsTextDigit(args);
    SpaceAfter(DigitChar(args[0]), tail);
  }

  lemma SpaceAfter(c: char, t: string)
    ensures [c] + (" " + t) == [c, ' '] + t
  {
  }

  lemma ArgsText1(a: nat)
    requires a < 10
    ensures ArgsText([a], []) == [DigitChar(a), ' ']
  {
    assert [a][1..] == [];
    ArgsTextStep([a], []);
    assert [DigitChar(a), ' '] + [] == [DigitChar(a), ' '];
  }

  lemma ArgsText2(a: nat, b: nat)
    requires a < 10 && b < 10
    ensures ArgsText([a, b], []) == [DigitChar(a), ' '] + [DigitChar(b), ' ']
  {
    assert [a, b][1..] == [b];
    ArgsText1(b);
    ArgsTextStep([a, b], [DigitChar(b), ' ']);
  }

  lemma ArgsText3(a: nat, b: nat, c: nat)
    requires a < 10 && b < 10 && c < 10
    ensures ArgsText([a, b, c], []) == [DigitChar(a), ' '] + ([DigitChar(b), ' '] + [DigitChar(c), ' '])
  {
    assert [a, b, c][1..] == [b, c];
    ArgsText2(b, c);
    ArgsTextStep([a, b, c], [DigitChar(b), ' '] + [DigitChar(c), ' ']);
  }

  lemma ArgsText4(a: nat, b: nat, c: nat, d: nat)
    requires a < 10 && b < 10 && c < 10 && d < 10
    ensures ArgsText([a, b, c, d], [])
         == [DigitChar(a), ' '] + ([DigitChar(b), ' '] + ([DigitChar(c), ' '] + [DigitChar(d), ' ']))
  {
    assert [a, b, c, d][1..] == [b, c, d];
    ArgsText3(b, c, d);
    ArgsTextStep([a, b, c, d], [DigitChar(b), ' '] + ([DigitChar(c), ' '] + [DigitChar(d), ' ']));
  }

  /** The text of a command of one-digit arguments. */
  lemma CommandTextOf(c: Command, argsText: string)
    requires ArgsText(c.args, []) == argsText
    ensures CommandText(c) == [c.letter, ' '] + argsText
  {
    SpaceAfter(c.letter, argsText);
  }

  lemma CommandText0(c: Command, l: char)
    requires c == Command(l, [])
    ensures CommandText(c) == [l, ' ']
  {
  }

  lemma CommandText2(c: Command, l: char, a: nat, b: nat)
    requires c == Command(l, [a, b]) && a < 10 && b < 10
    ensures CommandText(c) == [l, ' ', DigitChar(a), ' ', DigitChar(b), ' ']
  {
    ArgsText2(a, b);
    CommandTextOf(c, [DigitChar(a), ' '] + [DigitChar(b), ' ']);
  }

  lemma CommandText3(c: Command, l: char, a: nat, b: nat, d: nat)
    requires c == Command(l, [a, b, d]) && a < 10 && b < 10 && d < 10
    ensures CommandText(c) == [l, ' ', DigitChar(a), ' ', DigitChar(b), ' ', DigitChar(d), ' ']
  {
    ArgsText3(a, b, d);
    CommandTextOf(c, [DigitChar(a), ' '] + ([DigitChar(b), ' '] + [DigitChar(d), ' ']));
  }

  lemma CommandText4(c: Command, l: char, a: nat, b: nat, d: nat, e: nat)
    requires c == Command(l, [a, b, d, e]) && a < 10 && b < 10 && d < 10 && e < 10
    ensures CommandText(c) == [l, ' ', DigitChar(a), ' ', DigitChar(b), ' ', DigitChar(d), ' ', DigitChar(e), ' ']
  {
    ArgsText4(a, b, d, e);
    CommandTextOf(c, [DigitChar(a), ' '] + ([DigitChar(b), ' '] + ([DigitChar(d), ' '] + [DigitChar(e), ' '])));
  }

  /** The text of a path of one, three or four commands. */
  lemma PathText1(c1: Command)
    ensures PathText([c1]) == CommandText(c1)
  {
    PathTextJoin([c1]);
    assert [c1][1..] == [];
  }

  lemma PathText3(c1: Command, c2: Command, c3: Command)
    ensures PathText([c1, c2, c3]) == CommandText(c1) + (CommandText(c2) + CommandText(c3))
  {
    PathText1(c3);
    PathTextJoin([c2, c3]);
    assert [c2, c3][1..] == [c3];
    PathTextJoin([c1, c2, c3]);
    assert [c1, c2, c3][1..] == [c2, c3];
  }

  lemma PathText4(c1: Command, c2: Command, c3: Command, c4: Command)
    ensures PathText([c1, c2, c3, c4]) == CommandText(c1) + (CommandText(c2) + (CommandText(c3) + CommandText(c4)))
  {
    PathText3(c2, c3, c4);
    PathTextJoin([c1, c2, c3, c4]);
    assert [c1, c2, c3, c4][1..] == [c2, c3, c4];
  }

  /** Parse of a printed path is Run of its commands. */
  lemma ParsePrinted(cmds: seq<Command>, text: string)
    requires AllPrintable(cmds) && PathText(cmds) == text
    ensures Parse(text) == Run(cmds, Initial, false)
  {
    ParsePathText(cmds, Initial, false);
  }

  /** One command of Run that succeeds. */
  lemma RunStep(cmds: seq<Command>, st: State, first: bool, next: State)
    requires cmds != [] && (first ==> IsMoveto(cmds[0].letter))
    requires Execute(st, cmds[0].letter, Reals(cmds[0].args)) == Ok(next)
    ensures Run(cmds, st, first) == Run(cmds[1..], next, false)
  {
  }

  /** Run of commands that each succeed. */
  lemma RunThree(c1: Command, c2: Command, c3: Command, s0: State, s1: State, s2: State, s3: State)
    requires Execute(s0, c1.letter, Reals(c1.args)) == Ok(s1)
    requires Execute(s1, c2.letter, Reals(c2.args)) == Ok(s2)
    requires Execute(s2, c3.letter, Reals(c3.args)) == Ok(s3)
    ensures Run([c1, c2, c3], s0, false) == Ok(Finish(s3))
  {
    var cmds := [c1, c2, c3];
    assert cmds[1..] == [c2, c3] && cmds[1..][1..] == [c3] && cmds[1..][1..][1..] == [];
    RunStep(cmds, s0, false, s1);
    RunStep(cmds[1..], s1, false, s2);
    RunStep(cmds[1..][1..], s2, false, s3);
  }

  lemma RunFour(c1: Command, c2: Command, c3: Command, c4: Command, s0: State, s1: State, s2: State, s3: State, s4: State)
    requires Execute(s0, c1.letter, Reals(c1.args)) == Ok(s1)
    requires Execute(s1, c2.letter, Reals(c2.args)) == Ok(s2)
    requires Execute(s2, c3.letter, Reals(c3.args)) == Ok(s3)
    requires Execute(s3, c4.letter, Reals(c4.args)) == Ok(s4)
    ensures Run([c1, c2, c3, c4], s0, false) == Ok(Finish(s4))
  {
    var cmds := [c1, c2, c3, c4];
    assert cmds[1..] == [c2, c3, c4];
    RunThree(c2, c3, c4, s1, s2, s3, s4);
    RunStep(cmds, s0, false, s1);
  }

  /** Execute of a moveto or lineto of one or two coordinate pairs, or of a closepath, that succeeds. */
  lemma MovetoOnce(st: State, l: char, x: int, y: int, p: Point, next: State)
    requires IsMoveto(l) && p == Target(st.lastPoint, x as real, y as real, IsLower(l))
    requires next == FlushCurrent(st).(current := FlushCurrent(st).current + [Some(p)], lastPoint := p)
    ensures Execute(st, l, Reals([x, y])) == Ok(next)
  {
    var nums := Reals([x, y]);
    assert nums == [x as real, y as real] && nums[2..] == [];
    assert Moveto(next, [], IsLower(l)) == next;
    assert Moveto(st, nums, IsLower(l)) == next;
  }

  lemma MovetoTwice(st: State, l: char, x1: int, y1: int, x2: int, y2: int, p: Point, mid: State, q: Point, next: State)
    requires IsMoveto(l) && p == Target(st.lastPoint, x1 as real, y1 as real, IsLower(l))
    requires mid == FlushCurrent(st).(current := FlushCurrent(st).current + [Some(p)], lastPoint := p)
    requires q == Target(mid.lastPoint, x2 as real, y2 as real, IsLower(l))
    requires next == FlushCurrent(mid).(current := FlushCurrent(mid).current + [Some(q)], lastPoint := q)
    ensures Execute(st, l, Reals([x1, y1, x2, y2])) == Ok(next)
  {
    var nums := Reals([x1, y1, x2, y2]);
    assert nums == [x1 as real, y1 as real, x2 as real, y2 as real];
    assert nums[2..] == [x2 as real, y2 as real] && nums[2..][2..] == [];
    assert Moveto(next, [], IsLower(l)) == next;
    assert Moveto(mid, nums[2..], IsLower(l)) == next;
    assert Moveto(st, nums, IsLower(l)) == next;
  }

  lemma LinetoOnce(st: State, l: char, x: int, y: int, p: Point, next: State)
    requires (l == 'L' || l == 'l') && p == Target(st.lastPoint, x as real, y as real, IsLower(l))
    requires next == st.(current := Seeded(st) + [Some(p)], lastPoint := p)
    ensures Execute(st, l, Reals([x, y])) == Ok(next)
  {
    var nums := Reals([x, y]);
    assert nums == [x as real, y as real] && nums[2..] == [];
    assert Lineto(next, [], IsLower(l)) == next;
    assert Lineto(st, nums, IsLower(l)) == next;
  }

  lemma LinetoTwice(st: State, l: char, x1: int, y1: int, x2: int, y2: int, p: Point, mid: State, q: Point, next: State)
    requires (l == 'L' || l == 'l') && p == Target(st.lastPoint, x1 as real, y1 as real, IsLower(l))
    requires mid == st.(current := Seeded(st) + [Some(p)], lastPoint := p)
    requires q == Target(mid.lastPoint, x2 as real, y2 as real, IsLower(l))
    requires next == mid.(current := Seeded(mid) + [Some(q)], lastPoint := q)
    ensures Execute(st, l, Reals([x1, y1, x2, y2])) == Ok(next)
  {
    var nums := Reals([x1, y1, x2, y2]);
    assert nums == [x1 as real, y1 as real, x2 as real, y2 as real];
    assert nums[2..] == [x2 as real, y2 as real] && nums[2..][2..] == [];
    assert Lineto(next, [], IsLower(l)) == next;
    assert Lineto(mid, nums[2..], IsLower(l)) == next;
    assert Lineto(st, nums, IsLower(l)) == next;
  }

  lemma ClosepathOnce(st: State, l: char, next: State)
    requires (l == 'Z' || l == 'z') && st.current != [] && next == Closepath(st)
    ensures Execute(st, l, Reals([])) == Ok(next)
  {
  }

  /** Lines 70-79: every coordinate pair of a moveto opens a subpath of its own. */
  lemma ExampleMovetoPairs(text: string)
    requires text == "M 1 1 2 2 "
    ensures Parse(text) == Ok([[Some(Point(1.0, 1.0))], [Some(Point(2.0, 2.0))]])
  {
    var cmds := [Command('M', [1, 1, 2, 2])];
    TextMovetoPairs(cmds);
    ParsePrinted(cmds, text);
    RunMovetoPairs(cmds);
  }

  lemma RunMovetoPairs(cmds: seq<Command>)
    requires cmds == [Command('M', [1, 1, 2, 2])]
    ensures Run(cmds, Initial, false) == Ok([[Some(Point(1.0, 1.0))], [Some(Point(2.0, 2.0))]])
  {
    var p1, p2 := Point(1.0, 1.0), Point(2.0, 2.0);
    var s1 := State(p1, None, [Some(p1)], []);
    var s2 := State(p2, Some(p1), [Some(p2)], [[Some(p1)]]);
    assert Execute(Initial, 'M', Reals([1, 1, 2, 2])) == Ok(s2) by {
      assert FlushCurrent(Initial) == Initial && [] + [Some(p1)] == [Some(p1)];
      assert FlushCurrent(s1) == State(p1, Some(p1), [], [[Some(p1)]]);
      MovetoTwice(Initial, 'M', 1, 1, 2, 2, p1, s1, p2, s2);
    }
    RunStep(cmds, Initial, false, s2);
    assert cmds[1..] == [];
    assert Finish(s2) == [[Some(p1)], [Some(p2)]];
  }

  lemma TextMovetoPairs(cmds: seq<Command>)
    requires cmds == [Command('M', [1, 1, 2, 2])]
    ensures AllPrintable(cmds) && PathText(cmds) == "M 1 1 2 2 "
  {
    var c := cmds[0];
    assert cmds == [c];
    assert CommandText(c) == "M 1 1 2 2 " by {
      CommandText4(c, 'M', 1, 1, 2, 2);
    }
    PathText1(c);
  }

  /** Lines 117-123 and 88-89: after a closepath, the next lineto starts where the closed subpath started. */
  lemma ExampleCloseThenLineto(text: string)
    requires text == "M 0 0 L 4 0 Z L 2 2 "
    ensures Parse(text) ==
      Ok([[Some(Point(0.0, 0.0)), Some(Point(4.0, 0.0)), Some(Point(0.0, 0.0))],
          [Some(Point(0.0, 0.0)), Some(Point(2.0, 2.0))]])
  {
    var cmds := [Command('M', [0, 0]), Command('L', [4, 0]), Command('Z', []), Command('L', [2, 2])];
    TextCloseThenLineto(cmds);
    ParsePrinted(cmds, text);
    RunCloseThenLineto(cmds);
  }

  lemma RunCloseThenLineto(cmds: seq<Command>)
    requires cmds == [Command('M', [0, 0]), Command('L', [4, 0]), Command('Z', []), Command('L', [2, 2])]
    ensures Run(cmds, Initial, false) == Ok([[Some(Point(0.0, 0.0)), Some(Point(4.0, 0.0)), Some(Point(0.0, 0.0))],
          [Some(Point(0.0, 0.0)), Some(Point(2.0, 2.0))]])
  {
    var o, a, b := Point(0.0, 0.0), Point(4.0, 0.0), Point(2.0, 2.0);
    var closed := [Some(o), Some(a), Some(o)];
    var s1 := State(o, None, [Some(o)], []);
    var s2 := State(a, None, [Some(o), Some(a)], []);
    var s3 := State(a, Some(o), [], [closed]);
    var s4 := State(b, Some(o), [Some(o), Some(b)], [closed]);
    StepCloseThenLinetoMoveto(s1);
    StepCloseThenLinetoLineto(s1, s2);
    StepCloseThenLinetoClosepath(s2, s3);
    StepCloseThenLinetoReopen(s3, s4);
    RunFour(cmds[0], cmds[1], cmds[2], cmds[3], Initial, s1, s2, s3, s4);
    assert cmds == [cmds[0], cmds[1], cmds[2], cmds[3]];
    assert Finish(s4) == [closed, [Some(o), Some(b)]];
  }

  lemma StepCloseThenLinetoMoveto(s1: State)
    requires s1 == State(Point(0.0, 0.0), None, [Some(Point(0.0, 0.0))], [])
    ensures Execute(Initial, 'M', Reals([0, 0])) == Ok(s1)
  {
    var o := Point(0.0, 0.0);
    assert FlushCurrent(Initial) == Initial && [] + [Some(o)] == [Some(o)];
    MovetoOnce(Initial, 'M', 0, 0, o, s1);
  }

  lemma StepCloseThenLinetoLineto(s1: State, s2: State)
    requires s1 == State(Point(0.0, 0.0), None, [Some(Point(0.0, 0.0))], [])
    requires s2 == State(Point(4.0, 0.0), None, [Some(Point(0.0, 0.0)), Some(Point(4.0, 0.0))], [])
    ensures Execute(s1, 'L', Reals([4, 0])) == Ok(s2)
  {
    LinetoOnce(s1, 'L', 4, 0, Point(4.0, 0.0), s2);
  }

  lemma StepCloseThenLinetoClosepath(s2: State, s3: State)
    requires s2 == State(Point(4.0, 0.0), None, [Some(Point(0.0, 0.0)), Some(Point(4.0, 0.0))], [])
    requires s3 == State(Point(4.0, 0.0), Some(Point(0.0, 0.0)), [], [[Some(Point(0.0, 0.0)), Some(Point(4.0, 0.0)), Some(Point(0.0, 0.0))]])
    ensures Execute(s2, 'Z', Reals([])) == Ok(s3)
  {
    assert s2.current + [s2.current[0]] == s3.done[0];
    ClosepathOnce(s2, 'Z', s3);
  }

  lemma StepCloseThenLinetoReopen(s3: State, s4: State)
    requires s3 == State(Point(4.0, 0.0), Some(Point(0.0, 0.0)), [], [[Some(Point(0.0, 0.0)), Some(Point(4.0, 0.0)), Some(Point(0.0, 0.0))]])
    requires s4 == State(Point(2.0, 2.0), Some(Point(0.0, 0.0)), [Some(Point(0.0, 0.0)), Some(Point(2.0, 2.0))], s3.done)
    ensures Execute(s3, 'L', Reals([2, 2])) == Ok(s4)
  {
    assert Seeded(s3) + [Some(Point(2.0, 2.0))] == s4.current;
    LinetoOnce(s3, 'L', 2, 2, Point(2.0, 2.0), s4);
  }

  lemma TextCloseThenLineto(cmds: seq<Command>)
    requires cmds == [Command('M', [0, 0]), Command('L', [4, 0]), Command('Z', []), Command('L', [2, 2])]
    ensures AllPrintable(cmds) && PathText(cmds) == "M 0 0 L 4 0 Z L 2 2 "
  {
    var c1, c2, c3, c4 := cmds[0], cmds[1], cmds[2], cmds[3];
    assert cmds == [c1, c2, c3, c4];
    CommandText2(c1, 'M', 0, 0);
    CommandText2(c2, 'L', 4, 0);
    CommandText0(c3, 'Z');
    CommandText2(c4, 'L', 2, 2);
    PathText4(c1, c2, c3, c4);
    SpellCloseThenLineto(CommandText(c1), CommandText(c2), CommandText(c3), CommandText(c4));
  }

  lemma SpellCloseThenLineto(a: string, b: string, c: string, d: string)
    requires a == ['M', ' ', DigitChar(0), ' ', DigitChar(0), ' ']
    requires b == ['L', ' ', DigitChar(4), ' ', DigitChar(0), ' ']
    requires c == ['Z', ' ']
    requires d == ['L', ' ', DigitChar(2), ' ', DigitChar(2), ' ']
    ensures a + (b + (c + d)) == "M 0 0 L 4 0 Z L 2 2 "
  {
  }

  /** Relative commands offset each point from the one before. */
  lemma ExampleRelative(text: string)
    requires text == "m 1 1 l 2 0 0 2 z "
    ensures Parse(text) ==
      Ok([[Some(Point(1.0, 1.0)), Some(Point(3.0, 1.0)), Some(Point(3.0, 3.0)), Some(Point(1.0, 1.0))]])
  {
    var cmds := [Command('m', [1, 1]), Command('l', [2, 0, 0, 2]), Command('z', [])];
    TextRelative(cmds);
    ParsePrinted(cmds, text);
    RunRelative(cmds);
  }

  lemma RunRelative(cmds: seq<Command>)
    requires cmds == [Command('m', [1, 1]), Command('l', [2, 0, 0, 2]), Command('z', [])]
    ensures Run(cmds, Initial, false) == Ok([[Some(Point(1.0, 1.0)), Some(Point(3.0, 1.0)), Some(Point(3.0, 3.0)), Some(Point(1.0, 1.0))]])
  {
    var q1, q2, q3 := Point(1.0, 1.0), Point(3.0, 1.0), Point(3.0, 3.0);
    var closed := [Some(q1), Some(q2), Some(q3), Some(q1)];
    var s1 := State(q1, None, [Some(q1)], []);
    var s2 := State(q3, None, [Some(q1), Some(q2), Some(q3)], []);
    var s3 := State(q3, Some(q1), [], [closed]);
    StepRelativeMoveto(s1);
    StepRelativeLineto(s1, s2);
    StepRelativeClosepath(s2, s3);
    RunThree(cmds[0], cmds[1], cmds[2], Initial, s1, s2, s3);
    assert cmds == [cmds[0], cmds[1], cmds[2]];
    assert Finish(s3) == [closed];
  }

  lemma StepRelativeMoveto(s1: State)
    requires s1 == State(Point(1.0, 1.0), None, [Some(Point(1.0, 1.0))], [])
    ensures Execute(Initial, 'm', Reals([1, 1])) == Ok(s1)
  {
    var q1 := Point(1.0, 1.0);
    assert FlushCurrent(Initial) == Initial && [] + [Some(q1)] == [Some(q1)];
    MovetoOnce(Initial, 'm', 1, 1, q1, s1);
  }

  lemma StepRelativeLineto(s1: State, s2: State)
    requires s1 == State(Point(1.0, 1.0), None, [Some(Point(1.0, 1.0))], [])
    requires s2 == State(Point(3.0, 3.0), None, [Some(Point(1.0, 1.0)), Some(Point(3.0, 1.0)), Some(Point(3.0, 3.0))], [])
    ensures Execute(s1, 'l', Reals([2, 0, 0, 2])) == Ok(s2)
  {
    var q1, q2, q3 := Point(1.0, 1.0), Point(3.0, 1.0), Point(3.0, 3.0);
    LinetoTwice(s1, 'l', 2, 0, 0, 2, q2, State(q2, None, [Some(q1), Some(q2)], []), q3, s2);
  }

  lemma StepRelativeClosepath(s2: State, s3: State)
    requires s2 == State(Point(3.0, 3.0), None, [Some(Point(1.0, 1.0)), Some(Point(3.0, 1.0)), Some(Point(3.0, 3.0))], [])
    requires s3 == State(Point(3.0, 3.0), Some(Point(1.0, 1.0)), [],
      [[Some(Point(1.0, 1.0)), Some(Point(3.0, 1.0)), Some(Point(3.0, 3.0)), Some(Point(1.0, 1.0))]])
    ensures Execute(s2, 'z', Reals([])) == Ok(s3)
  {
    assert s2.current + [s2.current[0]] == s3.done[0];
    ClosepathOnce(s2, 'z', s3);
  }

  lemma TextRelative(cmds: seq<Command>)
    requires cmds == [Command('m', [1, 1]), Command('l', [2, 0, 0, 2]), Command('z', [])]
    ensures AllPrintable(cmds) && PathText(cmds) == "m 1 1 l 2 0 0 2 z "
  {
    var c1, c2, c3 := cmds[0], cmds[1], cmds[2];
    assert cmds == [c1, c2, c3];
    CommandText2(c1, 'm', 1, 1);
    CommandText4(c2, 'l', 2, 0, 0, 2);
    CommandText0(c3, 'z');
    PathText3(c1, c2, c3);
    SpellRelative(CommandText(c1), CommandText(c2), CommandText(c3));
  }

  lemma SpellRelative(a: string, b: string, c: string)
    requires a == ['m', ' ', DigitChar(1), ' ', DigitChar(1), ' ']
    requires b == ['l', ' ', DigitChar(2), ' ', DigitChar(0), ' ', DigitChar(0), ' ', DigitChar(2), ' ']
    requires c == ['z', ' ']
    ensures a + (b + c) == "m 1 1 l 2 0 0 2 z "
  {
  }

  /**
   * As written, the leading-moveto check of lines 53-54 never fires, so a
   * path may start with a lineto, whose subpath is seeded with the missing
   * last end point; with the check in force the path is rejected.
   */
  lemma LeadingLinetoAccepted(text: string)
    requires text == "L 5 5 "
    ensures Parse(text) == Ok([[None, Some(Point(5.0, 5.0))]])
    ensures ParseIntended(text) == Err(MustStartWithMoveto)
  {
    var cmds := [Command('L', [5, 5])];
    TextLeadingLineto(cmds);
    ParsePathText(cmds, Initial, false);
    ParsePathText(cmds, Initial, true);
    RunLeadingLineto(cmds);
  }

  lemma TextLeadingLineto(cmds: seq<Command>)
    requires cmds == [Command('L', [5, 5])]
    ensures AllPrintable(cmds) && PathText(cmds) == "L 5 5 "
  {
    var c := cmds[0];
    assert cmds == [c];
    PathText1(c);
    CommandText2(c, 'L', 5, 5);
  }

  lemma RunLeadingLineto(cmds: seq<Command>)
    requires cmds == [Command('L', [5, 5])]
    ensures Run(cmds, Initial, false) == Ok([[None, Some(Point(5.0, 5.0))]])
    ensures Run(cmds, Initial, true) == Err(MustStartWithMoveto)
  {
    var p := Point(5.0, 5.0);
    var s1 := State(p, None, [None, Some(p)], []);
    StepLeadingLineto(s1);
    RunStep(cmds, Initial, false, s1);
    assert cmds[1..] == [];
    assert Finish(s1) == [[None, Some(p)]];
  }

  lemma StepLeadingLineto(s1: State)
    requires s1 == State(Point(5.0, 5.0), None, [None, Some(Point(5.0, 5.0))], [])
    ensures Execute(Initial, 'L', Reals([5, 5])) == Ok(s1)
  {
    assert Seeded(Initial) + [Some(Point(5.0, 5.0))] == s1.current;
    LinetoOnce(Initial, 'L', 5, 5, Point(5.0, 5.0), s1);
  }

  /**
   * A comma between coordinates is read as a space (line 58) and the number
   * pattern of line 60 takes a fraction and a minus sign: one moveto to
   * (1.5, -2).
   */
  lemma ExampleFraction(text: string)
    requires text == "M1.5,-2 "
    ensures Parse(text) == Ok([[Some(Point(1.5, -2.0))]])
  {
    var p := Point(1.5, -2.0);
    var s1 := State(p, None, [Some(p)], []);
    TokenFraction(text);
    StepFraction(s1);
    ParseSingleToken(text, Token('M', [1.5, -2.0], ""), s1);
    FinishSingle(s1, p);
  }

  lemma FinishSingle(st: State, p: Point)
    requires st == State(p, None, [Some(p)], [])
    ensures Finish(st) == [[Some(p)]]
  {
  }

  /** Path data that is one command, which succeeds from the initial state. */
  lemma ParseSingleToken(data: string, t: Token, s1: State)
    requires data != [] && NextCommand(data) == Some(t) && t.rest == []
    requires Execute(Initial, t.command, t.numbers) == Ok(s1)
    ensures Parse(data) == Ok(Finish(s1))
  {
    ParseFromToken(data, Initial, false);
    assert ParseFrom(t.rest, s1, false) == Ok(Finish(s1));
  }

  lemma TokenFraction(text: string)
    requires text == "M1.5,-2 "
    ensures NextCommand(text) == Some(Token('M', [1.5, -2.0], ""))
  {
    var d, u: string := "M1.5 -2 ", "1.5 -2 ";
    LStripNoSpace(text);
    CommaFraction(text);
    assert d[0] == 'M' && d[1..] == u;
    LStripNoSpace(u);
    ScanFraction(u);
    NextCommandThen(text, d, [1.5, -2.0], "");
  }

  /** The token NextCommand reads, from the separator-free data and the numbers after its first character. */
  lemma NextCommandThen(data: string, d: string, nums: seq<real>, rest: string)
    requires ReplaceAll(LStrip(data), ",", " ") == d && d != []
    requires ScanNumbers(LStrip(d[1..])) == (nums, rest)
    ensures NextCommand(data) == Some(Token(d[0], nums, rest))
  {
  }

  lemma CommaFraction(text: string)
    requires text == "M1.5,-2 "
    ensures ReplaceAll(text, ",", " ") == "M1.5 -2 "
  {
    ReplaceCharPointwise(text, ',', ' ');
  }

  lemma ScanFraction(u: string)
    requires u == "1.5 -2 "
    ensures ScanNumbers(u) == ([1.5, -2.0], "")
  {
    var d, f, tail: string := "1", "5", "-2 ";
    FractionParts(u, d, f, tail);
    OneAndAHalf(d, f);
    ScanMinusTwo(tail);
    ScanDecimal(u, d, f, tail, 1.5, [-2.0], "");
    TwoValues(1.5, -2.0);
  }

  lemma TwoValues(a: real, b: real)
    ensures [a] + [b] == [a, b]
  {
  }

  /** ScanNumbers on a decimal numeral, a space and more data. */
  lemma ScanDecimal(s: string, d: string, f: string, tail: string, v: real, vs: seq<real>, r: string)
    requires |d| > 0 && AllDigits(d) && |f| > 0 && AllDigits(f) && (tail == [] || !IsSpace(tail[0]))
    requires s == d + "." + f + (" " + tail)
    requires NumeralValue(d + "." + f) == v
    requires ScanNumbers(tail) == (vs, r)
    ensures ScanNumbers(s) == ([v] + vs, r)
  {
    DecimalThenSpace(s, d, f, tail);
    ScanNumbersThen(s, |d| + 1 + |f|, v, tail);
  }

  /** ScanNumbers reads one number and carries on after the whitespace that follows it. */
  lemma ScanNumbersThen(s: string, n: nat, v: real, tail: string)
    requires MatchNumber(s) == n > 0 && NumeralValue(s[..n]) == v && LStrip(s[n..]) == tail
    ensures ScanNumbers(s) == ([v] + ScanNumbers(tail).0, ScanNumbers(tail).1)
  {
  }

  lemma FractionParts(u: string, d: string, f: string, tail: string)
    requires u == "1.5 -2 " && d == "1" && f == "5" && tail == "-2 "
    ensures |d| > 0 && AllDigits(d) && |f| > 0 && AllDigits(f) && (tail == [] || !IsSpace(tail[0]))
    ensures u == d + "." + f + (" " + tail)
  {
  }

  lemma OneAndAHalf(d: string, f: string)
    requires d == "1" && f == "5"
    ensures NumeralValue(d + "." + f) == 1.5
  {
    DecimalValue(d, f);
    assert DigitsValue(d) == 1 && DigitsValue(f) == 5 && Pow10(|f|) == 10;
  }

  lemma ScanMinusTwo(t: string)
    requires t == "-2 "
    ensures ScanNumbers(t) == ([-2.0], "")
  {
    var m: string := "-2";
    assert t == m + " " && m[1..] == "2";
    assert DigitsValue("2") == 2;
    MatchSigned(m, " ", 2);
    assert t[..2] == m && t[2..] == " " + "";
    LStripSpace("");
    assert MatchNumber(t) == 2 && NumeralValue(t[..2]) == -2.0;
    assert LStrip(t[2..]) == "";
    assert DigitRun("") == 0;
    assert ScanNumbers("") == ([], "");
    ScanNumbersCons(t);
    assert [-2.0] + [] == [-2.0];
  }

  lemma StepFraction(s1: State)
    requires s1 == State(Point(1.5, -2.0), None, [Some(Point(1.5, -2.0))], [])
    ensures Execute(Initial, 'M', [1.5, -2.0]) == Ok(s1)
  {
    var nums, p := [1.5, -2.0], Point(1.5, -2.0);
    assert Target(Initial.lastPoint, nums[0], nums[1], false) == p;
    assert FlushCurrent(Initial) == Initial;
    assert nums[2..] == [] && Moveto(s1, nums[2..], false) == s1;
    assert Moveto(Initial, nums, false) == s1;
  }

  /** A closepath with no subpath open fails, as current_subpath[0] does at line 120. */
  lemma ExampleCloseFirst(text: string)
    requires text == "Z "
    ensures Parse(text) == Err(CloseWithoutSubpath)
  {
    var cmds := [Command('Z', [])];
    TextCloseFirst(cmds);
    ParsePrinted(cmds, text);
    RunCloseFirst(cmds);
  }

  lemma TextCloseFirst(cmds: seq<Command>)
    requires cmds == [Command('Z', [])]
    ensures AllPrintable(cmds) && PathText(cmds) == "Z "
  {
    var c := cmds[0];
    assert cmds == [c];
    PathText1(c);
    CommandText0(c, 'Z');
  }

  lemma RunCloseFirst(cmds: seq<Command>)
    requires cmds == [Command('Z', [])]
    ensures Run(cmds, Initial, false) == Err(CloseWithoutSubpath)
  {
    assert cmds[0].letter == 'Z';
    assert Reals(cmds[0].args) == [];
  }

  /** Data that is only whitespace fails at data[0] of line 52. */
  lemma ExampleBlank()
    ensures Parse(" ") == Err(BlankData)
  {
    assert LStrip(" ") == [];
  }

  /** An odd number of moveto coordinates is rejected (lines 68-69). */
  lemma ExampleOddMoveto(text: string)
    requires text == "M 1 2 3 "
    ensures Parse(text) == Err(BadMovetoArity)
  {
    var cmds := [Command('M', [1, 2, 3])];
    TextOddMoveto(cmds);
    ParsePrinted(cmds, text);
    RunOddMoveto(cmds);
  }

  lemma TextOddMoveto(cmds: seq<Command>)
    requires cmds == [Command('M', [1, 2, 3])]
    ensures AllPrintable(cmds) && PathText(cmds) == "M 1 2 3 "
  {
    var c := cmds[0];
    assert cmds == [c];
    PathText1(c);
    CommandText3(c, 'M', 1, 2, 3);
  }

  lemma RunOddMoveto(cmds: seq<Command>)
    requires cmds == [Command('M', [1, 2, 3])]
    ensures Run(cmds, Initial, false) == Err(BadMovetoArity)
  {
    assert cmds[0].letter == 'M';
    assert |Reals(cmds[0].args)| == 3;
  }
}
