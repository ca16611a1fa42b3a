/**
 * What the encoder's text means: how round behaves, one move per point with
 * the pen up at the start of every subpath, and the DPML text written out
 * directly rather than as a chain of replacements.
 */
module PlotterProps {
  import opened Geometry
  import opened Text
  import opened Plotter

  // ---------------------------------------------------------------------------
  // round

  function Abs(r: real): real { if r < 0.0 then -r else r }

  /** No integer is nearer to r than round(r). */
  lemma RoundNearest(r: real, m: int)
    ensures Abs(r - RoundHalfEven(r) as real) <= Abs(r - m as real)
  {
    var n := RoundHalfEven(r);
    if m > n {
      assert m as real >= n as real + 1.0;
    } else if m < n {
      assert m as real <= n as real - 1.0;
    }
  }

  /** The two properties of RoundHalfEven's contract pick out a single integer. */
  lemma RoundUnique(r: real, m: int)
    requires -0.5 <= r - m as real <= 0.5
    requires (r - m as real == 0.5 || r - m as real == -0.5) ==> m % 2 == 0
    ensures m == RoundHalfEven(r)
  {
    var f := r.Floor;
    var d := r - f as real;
    if d < 0.5 {
      assert f as real - 1.0 < m as real < f as real + 1.0;
    } else if d > 0.5 {
      assert f as real < m as real < f as real + 2.0;
    } else {
      assert f <= m <= f + 1;
      assert m % 2 == 0;
    }
  }

  /** Ties go to the even neighbour, on both sides of zero. */
  lemma RoundExamples()
    ensures RoundHalfEven(0.5) == 0 && RoundHalfEven(1.5) == 2 && RoundHalfEven(2.5) == 2
    ensures RoundHalfEven(-0.5) == 0 && RoundHalfEven(-1.5) == -2 && RoundHalfEven(2.4) == 2
  {
    assert (0.5).Floor == 0 && (1.5).Floor == 1 && (2.5).Floor == 2;
    assert (-0.5).Floor == -1 && (-1.5).Floor == -2 && (2.4).Floor == 2;
  }

  /** A coordinate 1/80 mm below zero or less is clamped to 0; a small negative one rounds to 0 anyway. */
  lemma DeviceUnitExamples()
    ensures DeviceUnit(-3.0) == 0 && DeviceUnit(0.0125) == 0 && DeviceUnit(0.0375) == 2 && DeviceUnit(2.5) == 100
  {
    assert RoundHalfEven(0.5) == 0 && RoundHalfEven(1.5) == 2 by { RoundExamples(); }
    assert (100.0).Floor == 100;
  }

  // ---------------------------------------------------------------------------
  // One move per point

  function TotalPoints(paths: seq<Polyline>): nat {
    if paths == [] then 0 else |paths[0]| + TotalPoints(paths[1..])
  }

  /** There is exactly one move for every point. */
  lemma {:induction false} MoveCount(paths: seq<Polyline>, penDown: bool)
    ensures |Moves(paths, penDown)| == TotalPoints(paths)
  {
    if paths != [] {
      MoveCount(paths[1..], penDown);
    }
  }

  /**
   * The move for point j of subpath i sits after the moves of the subpaths
   * before it: pen up for the first point of a subpath, down for the others
   * exactly when pen_down, at the point's device coordinates.
   */
  lemma {:induction false} MovesAt(paths: seq<Polyline>, penDown: bool, i: nat, j: nat)
    requires i < |paths| && j < |paths[i]|
    ensures TotalPoints(paths[..i]) + j < |Moves(paths, penDown)|
    ensures Moves(paths, penDown)[TotalPoints(paths[..i]) + j]
         == Move(penDown && j > 0, DeviceUnit(paths[i][j].x), DeviceUnit(paths[i][j].y))
  {
    MoveCount(paths, penDown);
    if i == 0 {
      assert paths[..0] == [];
      PathMovesAt(paths[0], penDown, j);
    } else {
      MovesAt(paths[1..], penDown, i - 1, j);
      assert paths[..i][1..] == paths[1..][..i - 1];
      MoveCount(paths[1..], penDown);
    }
  }

  /** The first move of all is a pen-up move. */
  lemma {:induction false} FirstMoveUp(paths: seq<Polyline>, penDown: bool)
    ensures Moves(paths, penDown) == [] || !Moves(paths, penDown)[0].down
  {
    if paths != [] {
      if paths[0] == [] {
        assert PathMoves(paths[0], penDown) == [];
        FirstMoveUp(paths[1..], penDown);
      } else {
        PathMovesAt(paths[0], penDown, 0);
      }
    }
  }

  /** With pen_down false, as for the bounding rectangle, every move is a pen-up move. */
  lemma {:induction false} PenUpOnly(paths: seq<Polyline>)
    ensures forall k :: 0 <= k < |Moves(paths, false)| ==> !Moves(paths, false)[k].down
  {
    if paths != [] {
      PenUpOnly(paths[1..]);
      var head := PathMoves(paths[0], false);
      forall k | 0 <= k < |head| ensures !head[k].down {
        PathMovesAt(paths[0], false, k);
      }
    }
  }

  // ---------------------------------------------------------------------------
  // The DPML text, without replacements

  /** A DPML move: ` D` or ` U`, then the coordinates. */
  function DpmlMove(m: Move): string {
    (if m.down then " D" else " U") + Coords(m.x, m.y)
  }

  function DpmlMoves(ms: seq<Move>): string {
    if ms == [] then [] else DpmlMove(ms[0]) + DpmlMoves(ms[1..])
  }

  /**
   * The DPML text built directly: the header, one move per point, the pen-up
   * move to the rounded offsets and the terminator.
   */
  function DpmlText(paths: seq<Polyline>, penDown: bool, offsetX: real, offsetY: real): string {
    " ;:H A L0 EC1" + (DpmlMoves(Moves(paths, penDown))
      + (" U" + (Coords(RoundHalfEven(offsetX), RoundHalfEven(offsetY)) + " @ ")))
  }

  /** The characters a coordinate text is made of. */
  predicate CoordText(s: string) {
    forall i :: 0 <= i < |s| ==> IsDigit(s[i]) || s[i] == '-' || s[i] == ','
  }

  /** `x,y` is digits, signs and the comma, at least three of them. */
  lemma CoordsChars(x: int, y: int)
    ensures |Coords(x, y)| >= 3 && CoordText(Coords(x, y))
  {
    FormatIntChars(x);
    FormatIntChars(y);
    CoordsOfParts(FormatInt(x), FormatInt(y));
  }

  lemma CoordsOfParts(a: string, b: string)
    requires |a| > 0 && |b| > 0 && CoordText(a) && CoordText(b)
    ensures |a + "," + b| >= 3 && CoordText(a + "," + b)
  {
    var s := a + "," + b;
    forall i | 0 <= i < |s| ensures IsDigit(s[i]) || s[i] == '-' || s[i] == ',' {
      if i < |a| {
        assert s[i] == a[i];
      } else if i > |a| {
        assert s[i] == b[i - |a| - 1];
      }
    }
  }

  /** A character that no coordinate text contains. */
  lemma NotInCoords(x: int, y: int, c: char)
    requires !IsDigit(c) && c != '-' && c != ','
    ensures c !in Coords(x, y)
  {
    CoordsChars(x, y);
    NotInCoordText(Coords(x, y), c);
  }

  lemma NotInCoordText(s: string, c: char)
    requires CoordText(s) && !IsDigit(c) && c != '-' && c != ','
    ensures c !in s
  {
  }

  /** The move texts with each `;` moved to the front of the move after it. */
  function Shifted(ms: seq<Move>): string {
    if ms == [] then [] else ";" + Pen(ms[0]) + Coords(ms[0].x, ms[0].y) + Shifted(ms[1..])
  }

  /** The texts after the `;PD` replacement. */
  function Mid(ms: seq<Move>): string {
    if ms == [] then [] else (if ms[0].down then " D" else ";PU") + Coords(ms[0].x, ms[0].y) + Mid(ms[1..])
  }

  lemma {:induction false} ShiftMoves(ms: seq<Move>)
    ensures ";" + MovesText(ms) == Shifted(ms) + ";"
  {
    if ms != [] {
      ShiftMoves(ms[1..]);
      ShiftStep(Pen(ms[0]), Coords(ms[0].x, ms[0].y), MovesText(ms[1..]), Shifted(ms[1..]));
    }
  }

  lemma ShiftStep(pen: string, c: string, rest: string, shifted: string)
    requires ";" + rest == shifted + ";"
    ensures ";" + (pen + c + ";" + rest) == ";" + pen + c + shifted + ";"
  {
    calc {
      ";" + (pen + c + ";" + rest);
      ";" + pen + c + (";" + rest);
      ";" + pen + c + (shifted + ";");
      ";" + pen + c + shifted + ";";
    }
  }

  /** 'I' and 'V' appear in no move text. */
  lemma {:induction false} ShiftedChars(ms: seq<Move>)
    ensures 'I' !in Shifted(ms) && 'V' !in Shifted(ms) && 'S' !in Shifted(ms)
  {
    if ms != [] {
      ShiftedChars(ms[1..]);
      CoordsFacts(ms[0].x, ms[0].y);
      ShiftedPieceChars(Pen(ms[0]), Coords(ms[0].x, ms[0].y), Shifted(ms[1..]));
    }
  }

  lemma ShiftedPieceChars(pen: string, c: string, rest: string)
    requires pen == "PU" || pen == "PD"
    requires 'I' !in c && 'V' !in c && 'S' !in c
    requires 'I' !in rest && 'V' !in rest && 'S' !in rest
    ensures 'I' !in ";" + pen + c + rest && 'V' !in ";" + pen + c + rest && 'S' !in ";" + pen + c + rest
  {
  }

  /** One shifted move under step 5: `;PD` loses its `;`, `;PU` stays. */
  lemma PenDownPiece(pen: string, c: string, rest: string)
    requires pen == "PD" || pen == "PU"
    requires |c| >= 2 && ';' !in c && 'P' !in c && 'D' !in c
    ensures ReplaceAll(";" + pen + c + rest, ";PD", " D")
         == (if pen == "PD" then " D" else ";PU") + c + ReplaceAll(rest, ";PD", " D")
  {
    ReplaceAllConcatAt(";" + pen, c, rest, ";PD", " D");
    if pen == "PD" {
      assert ";" + pen + c == ";PD" + c;
      ReplaceAllAtStart(";PD", c, " D");
      ReplaceAllAbsent(c, ";PD", " D", 0);
    } else {
      assert ";" + pen + c == ";PU" + c;
      assert 'D' !in ";PU" + c;
      ReplaceAllAbsent(";PU" + c, ";PD", " D", 2);
    }
  }

  /** One move under step 6: ` D` stays, `;PU` loses its `;`. */
  lemma PenUpPiece(h: string, c: string, rest: string)
    requires h == " D" || h == ";PU"
    requires |c| >= 2 && ';' !in c && 'P' !in c
    ensures ReplaceAll(h + c + rest, ";PU", " U")
         == (if h == " D" then " D" else " U") + c + ReplaceAll(rest, ";PU", " U")
  {
    ReplaceAllConcatAt(h, c, rest, ";PU", " U");
    if h == " D" {
      assert ';' !in h + c;
      ReplaceAllAbsent(h + c, ";PU", " U", 0);
    } else {
      ReplaceAllAtStart(";PU", c, " U");
      ReplaceAllAbsent(c, ";PU", " U", 0);
    }
  }

  /** What a coordinate text leaves alone in the DPML replacements. */
  lemma CoordsFacts(x: int, y: int)
    ensures |Coords(x, y)| >= 2
    ensures ';' !in Coords(x, y) && 'P' !in Coords(x, y) && 'D' !in Coords(x, y)
    ensures 'I' !in Coords(x, y) && 'V' !in Coords(x, y) && 'S' !in Coords(x, y)
  {
    CoordsChars(x, y);
    NotInCoords(x, y, ';');
    NotInCoords(x, y, 'P');
    NotInCoords(x, y, 'D');
    NotInCoords(x, y, 'I');
    NotInCoords(x, y, 'V');
    NotInCoords(x, y, 'S');
  }

  /** Step 5: every `;PD` of the shifted move texts becomes ` D`. */
  lemma {:induction false} ReplacePenDown(ms: seq<Move>, tail: string)
    ensures ReplaceAll(Shifted(ms) + tail, ";PD", " D") == Mid(ms) + ReplaceAll(tail, ";PD", " D")
  {
    if ms == [] {
      assert Shifted(ms) + tail == tail;
    } else {
      var m := ms[0];
      var pen, c := Pen(m), Coords(m.x, m.y);
      var h := if m.down then " D" else ";PU";
      var rest := Shifted(ms[1..]) + tail;
      ReplacePenDown(ms[1..], tail);
      CoordsFacts(m.x, m.y);
      Assoc4(";" + pen, c, Shifted(ms[1..]), tail);
      PenDownPiece(pen, c, rest);
      Assoc4(h, c, Mid(ms[1..]), ReplaceAll(tail, ";PD", " D"));
    }
  }

  /** Step 6: every remaining `;PU` becomes ` U`. */
  lemma {:induction false} ReplacePenUp(ms: seq<Move>, tail: string)
    ensures ReplaceAll(Mid(ms) + tail, ";PU", " U") == DpmlMoves(ms) + ReplaceAll(tail, ";PU", " U")
  {
    if ms == [] {
      assert Mid(ms) + tail == tail;
    } else {
      var m := ms[0];
      var h := if m.down then " D" else ";PU";
      var c := Coords(m.x, m.y);
      ReplacePenUp(ms[1..], tail);
      CoordsFacts(m.x, m.y);
      Assoc4(h, c, Mid(ms[1..]), tail);
      PenUpPiece(h, c, Mid(ms[1..]) + tail);
      Assoc4(if m.down then " D" else " U", c, DpmlMoves(ms[1..]), ReplaceAll(tail, ";PU", " U"));
    }
  }

  lemma Assoc4(a: string, b: string, c: string, d: string)
    ensures (a + b + c) + d == a + b + (c + d)
  {
  }

  /** The HPGL text with the `;` of every move moved to the front of the next one. */
  lemma HpglShape(m: string, s: string, t: string)
    requires ";" + m == s + ";"
    ensures "IN;SP1;" + m + ("PU" + t + ";IN;") == "IN;" + ("SP1" + (s + (";PU" + (t + ";IN;"))))
  {
    assert "IN;SP1;" == "IN;" + "SP1" + ";";
    assert "PU" + t + ";IN;" == "PU" + (t + ";IN;");
    calc {
      "IN;SP1;" + m + ("PU" + (t + ";IN;"));
      "IN;" + "SP1" + (";" + m) + ("PU" + (t + ";IN;"));
      "IN;" + "SP1" + (s + ";") + ("PU" + (t + ";IN;"));
      "IN;" + ("SP1" + (s + (";" + ("PU" + (t + ";IN;")))));
      { assert ";" + ("PU" + (t + ";IN;")) == ";PU" + (t + ";IN;"); }
      "IN;" + ("SP1" + (s + (";PU" + (t + ";IN;"))));
    }
  }

  /** Steps 1 and 2: the leading `IN;` becomes the DPML header, and there is no `;VS`. */
  lemma DpmlSteps12(s: string, t: string)
    requires 'V' !in s && 'V' !in t
    ensures ReplaceFirst(ReplaceFirst("IN;" + ("SP1" + (s + (";PU" + (t + ";IN;")))), "IN;", " ;:H A L0 "), ";VS", " V")
         == " ;:H A L0" + (" SP1" + (s + (";PU" + (t + ";IN;"))))
  {
    var x := s + (";PU" + (t + ";IN;"));
    ReplaceFirstAtStart("IN;", "SP1" + x, " ;:H A L0 ");
    assert " ;:H A L0 " + ("SP1" + x) == " ;:H A L0" + (" SP1" + x) by {
      assert " ;:H A L0 " + "SP1" == " ;:H A L0" + " SP1";
    }
    NotInJoin('V', ";PU", t + ";IN;");
    NotInJoin('V', s, ";PU" + (t + ";IN;"));
    NotInJoin('V', " SP1", x);
    NotInJoin('V', " ;:H A L0", " SP1" + x);
    ReplaceFirstAbsent(" ;:H A L0" + (" SP1" + x), ";VS", " V", 1);
  }

  lemma NotInJoin(c: char, a: string, b: string)
    requires c !in a && c !in b
    ensures c !in a + b
  {
  }

  /** Step 3: the first ` SP1` becomes ` EC1`. */
  lemma DpmlStep3(x: string)
    ensures ReplaceFirst(" ;:H A L0" + (" SP1" + x), " SP1", " EC1") == " ;:H A L0 EC1" + x
  {
    assert " ;:H A L0" + (" SP1" + x) == " ;:H A L0" + " SP1" + x;
    ReplaceFirstAfter(" ;:H A L0", " SP1", x, " EC1", 1);
    assert " ;:H A L0" + " EC1" == " ;:H A L0 EC1";
  }

  /** Step 4: the `;IN;` at the end becomes ` @ `. */
  lemma DpmlStep4(s: string, t: string)
    requires 'I' !in s && 'I' !in t
    ensures ReplaceFirst(" ;:H A L0 EC1" + (s + (";PU" + (t + ";IN;"))), ";IN;", " @ ")
         == " ;:H A L0 EC1" + (s + (";PU" + (t + " @ ")))
  {
    var a := " ;:H A L0 EC1" + (s + ";PU") + t;
    NotInJoin('I', s, ";PU");
    NotInJoin('I', " ;:H A L0 EC1", s + ";PU");
    NotInJoin('I', " ;:H A L0 EC1" + (s + ";PU"), t);
    assert " ;:H A L0 EC1" + (s + (";PU" + (t + ";IN;"))) == a + ";IN;" + [];
    ReplaceFirstAfter(a, ";IN;", [], " @ ", 1);
    assert a + " @ " + [] == " ;:H A L0 EC1" + (s + (";PU" + (t + " @ ")));
  }

  /** The DPML header holds no `;P`, and no occurrence of it straddles the header's end. */
  lemma HeaderKept(x: string, p: string, r: string)
    requires |p| == 3 && p[0] == ';' && p[1] == 'P'
    ensures ReplaceAll(" ;:H A L0 EC1" + x, p, r) == " ;:H A L0 EC1" + ReplaceAll(x, p, r)
  {
    var hd := " ;:H A L0 EC1";
    assert |hd| == 13 && hd[11] != ';' && hd[12] != ';' && 'P' !in hd;
    PrefixKept(hd, x, p, r);
  }

  /** A prefix without p's second character, and whose last two are not p's first, is kept. */
  lemma PrefixKept(hd: string, x: string, p: string, r: string)
    requires |p| == 3 && |hd| >= 2 && p[1] !in hd && hd[|hd| - 2] != p[0] && hd[|hd| - 1] != p[0]
    ensures ReplaceAll(hd + x, p, r) == hd + ReplaceAll(x, p, r)
  {
    ReplaceAllConcat(hd, x, p, r);
    ReplaceAllAbsent(hd, p, r, 1);
  }

  /** Step 5: every `;PD` loses its `;`. */
  lemma DpmlStep5(ms: seq<Move>, t: string)
    requires 'D' !in t
    ensures ReplaceAll(" ;:H A L0 EC1" + (Shifted(ms) + (";PU" + (t + " @ "))), ";PD", " D")
         == " ;:H A L0 EC1" + (Mid(ms) + (";PU" + (t + " @ ")))
  {
    var tl := ";PU" + (t + " @ ");
    calc {
      ReplaceAll(" ;:H A L0 EC1" + (Shifted(ms) + tl), ";PD", " D");
      { HeaderKept(Shifted(ms) + tl, ";PD", " D"); }
      " ;:H A L0 EC1" + ReplaceAll(Shifted(ms) + tl, ";PD", " D");
      { ReplacePenDown(ms, tl); }
      " ;:H A L0 EC1" + (Mid(ms) + ReplaceAll(tl, ";PD", " D"));
      { TailKeptD(t); }
      " ;:H A L0 EC1" + (Mid(ms) + tl);
    }
  }

  lemma TailKeptD(t: string)
    requires 'D' !in t
    ensures ReplaceAll(";PU" + (t + " @ "), ";PD", " D") == ";PU" + (t + " @ ")
  {
    NotInJoin('D', t, " @ ");
    NotInJoin('D', ";PU", t + " @ ");
    ReplaceAllAbsent(";PU" + (t + " @ "), ";PD", " D", 2);
  }

  /** Step 6: every `;PU` loses its `;`. */
  lemma DpmlStep6(ms: seq<Move>, t: string)
    requires 'P' !in t
    ensures ReplaceAll(" ;:H A L0 EC1" + (Mid(ms) + (";PU" + (t + " @ "))), ";PU", " U")
         == " ;:H A L0 EC1" + (DpmlMoves(ms) + (" U" + (t + " @ ")))
  {
    var tl := ";PU" + (t + " @ ");
    calc {
      ReplaceAll(" ;:H A L0 EC1" + (Mid(ms) + tl), ";PU", " U");
      { HeaderKept(Mid(ms) + tl, ";PU", " U"); }
      " ;:H A L0 EC1" + ReplaceAll(Mid(ms) + tl, ";PU", " U");
      { ReplacePenUp(ms, tl); }
      " ;:H A L0 EC1" + (DpmlMoves(ms) + ReplaceAll(tl, ";PU", " U"));
      { TailU(t); }
      " ;:H A L0 EC1" + (DpmlMoves(ms) + (" U" + (t + " @ ")));
    }
  }

  lemma TailU(t: string)
    requires 'P' !in t
    ensures ReplaceAll(";PU" + (t + " @ "), ";PU", " U") == " U" + (t + " @ ")
  {
    ReplaceAllAtStart(";PU", t + " @ ", " U");
    NotInJoin('P', t, " @ ");
    ReplaceAllAbsent(t + " @ ", ";PU", " U", 1);
  }

  /**
   * The replacement chain turns the HPGL text into the DPML text built
   * directly: header, one ` U`/` D` move per point, the offset move, ` @ `.
   */
  lemma DpmlOfHpgl(paths: seq<Polyline>, penDown: bool, offsetX: real, offsetY: real)
    ensures Dpml(Hpgl(paths, penDown, offsetX, offsetY)) == DpmlText(paths, penDown, offsetX, offsetY)
  {
    var ms := Moves(paths, penDown);
    var s := Shifted(ms);
    var t := Coords(RoundHalfEven(offsetX), RoundHalfEven(offsetY));
    var x := s + (";PU" + (t + ";IN;"));
    var h := Hpgl(paths, penDown, offsetX, offsetY);
    assert h == "IN;" + ("SP1" + x) by {
      ShiftMoves(ms);
      HpglShape(MovesText(ms), s, t);
    }
    assert 'V' !in s && 'I' !in s && 'V' !in t && 'I' !in t && 'D' !in t && 'P' !in t by {
      ShiftedChars(ms);
      CoordsFacts(RoundHalfEven(offsetX), RoundHalfEven(offsetY));
    }
    DpmlSteps12(s, t);
    DpmlStep3(x);
    DpmlStep4(s, t);
    DpmlStep5(ms, t);
    DpmlStep6(ms, t);
  }

  /** The DPML text starts with the header and a pen-up move, and ends with ` @ `. */
  lemma DpmlFrame(paths: seq<Polyline>, penDown: bool, offsetX: real, offsetY: real)
    ensures " ;:H A L0 EC1 U" <= Dpml(Hpgl(paths, penDown, offsetX, offsetY))
    ensures var d := Dpml(Hpgl(paths, penDown, offsetX, offsetY)); |d| >= 3 && d[|d| - 3..] == " @ "
  {
    var d := Dpml(Hpgl(paths, penDown, offsetX, offsetY));
    assert d == DpmlText(paths, penDown, offsetX, offsetY) by {
      DpmlOfHpgl(paths, penDown, offsetX, offsetY);
    }
    FirstMoveUp(paths, penDown);
    FrameOf(Moves(paths, penDown), Coords(RoundHalfEven(offsetX), RoundHalfEven(offsetY)));
  }

  /** The frame of the DPML text of moves that start with the pen up. */
  lemma FrameOf(ms: seq<Move>, t: string)
    requires ms == [] || !ms[0].down
    ensures " ;:H A L0 EC1 U" <= " ;:H A L0 EC1" + (DpmlMoves(ms) + (" U" + (t + " @ ")))
    ensures var d := " ;:H A L0 EC1" + (DpmlMoves(ms) + (" U" + (t + " @ "))); |d| >= 3 && d[|d| - 3..] == " @ "
  {
    UStart(ms, t);
    FramePrefix(DpmlMoves(ms) + (" U" + (t + " @ ")));
    EndsWithTerminator(" ;:H A L0 EC1", DpmlMoves(ms), t);
  }

  /** The moves after the header begin with ` U`. */
  lemma UStart(ms: seq<Move>, t: string)
    requires ms == [] || !ms[0].down
    ensures " U" <= DpmlMoves(ms) + (" U" + (t + " @ "))
  {
    if ms == [] {
      assert DpmlMoves(ms) + (" U" + (t + " @ ")) == " U" + (t + " @ ");
      PrefixOfJoin(" U", t + " @ ");
    } else {
      var rest := Coords(ms[0].x, ms[0].y) + DpmlMoves(ms[1..]);
      assert DpmlMoves(ms) == " U" + rest;
      Assoc(" U", rest, " U" + (t + " @ "));
      PrefixOfJoin(" U", rest + (" U" + (t + " @ ")));
    }
  }

  lemma PrefixOfJoin<T>(a: seq<T>, b: seq<T>)
    ensures a <= a + b
  {
    assert (a + b)[..|a|] == a;
  }

  lemma EndsWithTerminator(hd: string, m: string, t: string)
    ensures var d := hd + (m + (" U" + (t + " @ "))); |d| >= 3 && d[|d| - 3..] == " @ "
  {
    var a := hd + m + (" U" + t);
    assert hd + (m + (" U" + (t + " @ "))) == a + " @ ";
    FrameSuffix(a, " @ ");
  }

  lemma FramePrefix(body: string)
    requires " U" <= body
    ensures " ;:H A L0 EC1 U" <= " ;:H A L0 EC1" + body
  {
    assert (" ;:H A L0 EC1" + body)[..15] == " ;:H A L0 EC1" + body[..2];
  }

  lemma FrameSuffix<T>(a: seq<T>, b: seq<T>)
    ensures (a + b)[|a + b| - |b|..] == b
  {
  }

  /** The bounding rectangle as plot_data writes it for a 1 mm by 2 mm box. */
  lemma ExampleBox(box: Polyline)
    requires box == [Point(0.0, 0.0), Point(1.0, 0.0), Point(1.0, 2.0)]
    ensures Moves([box], false) == [Move(false, 0, 0), Move(false, 40, 0), Move(false, 40, 80)]
  {
    assert DeviceUnit(0.0) == 0;
    assert DeviceUnit(1.0) == 40 by { assert (40.0).Floor == 40; }
    assert DeviceUnit(2.0) == 80 by { assert (80.0).Floor == 80; }
    assert [box][1..] == [];
  }
}
