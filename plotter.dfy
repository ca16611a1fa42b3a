/**
 * The command encoder plot_data: one pen move per point of every subpath, in
 * HPGL, and the DPML text that a chain of replacements derives from the HPGL.
 *
 * Hpgl and Dpml are the specification; PlotData builds the text the way the
 * encoder does, by appending to an output string inside two loops and then
 * rewriting it, and is proved to produce PlotOutput.
 */
module Plotter {
  import opened Geometry
  import opened Text

  // ---------------------------------------------------------------------------
  // Numbers on the device

  /**
   * Python's round(r) on a number: the nearest integer, and of two equally
   * near ones the even one.
   */
  function RoundHalfEven(r: real): (n: int)
    ensures -0.5 <= r - n as real <= 0.5
    ensures (r - n as real == 0.5 || r - n as real == -0.5) ==> n % 2 == 0
  {
    var f := r.Floor;
    var d := r - f as real;
    if d < 0.5 then f
    else if d > 0.5 then f + 1
    else if f % 2 == 0 then f
    else f + 1
  }

  /**
   * max(0, round(c * 40)): a coordinate in millimetres in the plotter's units
   * of 1/40 mm, clamped at 0.
   */
  function DeviceUnit(c: real): (u: nat)
    ensures c >= 0.0 ==> -0.5 <= 40.0 * c - u as real <= 0.5
    ensures c <= 0.0 ==> u == 0
  {
    var n := RoundHalfEven(c * 40.0);
    if n > 0 then n else 0
  }

  // ---------------------------------------------------------------------------
  // Pen moves

  /** One `PU`/`PD` instruction: pen up or down, then the position to go to. */
  datatype Move = Move(down: bool, x: nat, y: nat)

  /** The moves of one subpath: pen up to its first point, then down (when pen_down) to the others. */
  function PathMoves(p: Polyline, penDown: bool): seq<Move> {
    seq(|p|, j requires 0 <= j < |p| => Move(penDown && j > 0, DeviceUnit(p[j].x), DeviceUnit(p[j].y)))
  }

  /** The moves of all subpaths, in plot order. */
  function Moves(paths: seq<Polyline>, penDown: bool): seq<Move> {
    if paths == [] then [] else PathMoves(paths[0], penDown) + Moves(paths[1..], penDown)
  }

  function Pen(m: Move): string {
    if m.down then "PD" else "PU"
  }

  /** '%d,%d' % (x, y). */
  function Coords(x: int, y: int): string {
    FormatInt(x) + "," + FormatInt(y)
  }

  /** '%s%d,%d;' % (pen, x, y). */
  function MoveText(m: Move): string {
    Pen(m) + Coords(m.x, m.y) + ";"
  }

  function MovesText(ms: seq<Move>): string {
    if ms == [] then [] else MoveText(ms[0]) + MovesText(ms[1..])
  }

  /** 'PU%d,%d;IN;' % (round(offsetx), round(offsety)): the offsets are rounded, but neither scaled nor clamped. */
  function Trailer(offsetX: real, offsetY: real): string {
    "PU" + Coords(RoundHalfEven(offsetX), RoundHalfEven(offsetY)) + ";IN;"
  }

  /** The HPGL text: initialise, select pen 1, the moves, a last pen-up move to the offset, initialise. */
  function Hpgl(paths: seq<Polyline>, penDown: bool, offsetX: real, offsetY: real): string {
    "IN;SP1;" + MovesText(Moves(paths, penDown)) + Trailer(offsetX, offsetY)
  }

  /** The DPML translation: four first-occurrence replacements, then two global ones, in this order. */
  function Dpml(hpgl: string): string {
    var s1 := ReplaceFirst(hpgl, "IN;", " ;:H A L0 ");
    var s2 := ReplaceFirst(s1, ";VS", " V");
    var s3 := ReplaceFirst(s2, " SP1", " EC1");
    var s4 := ReplaceFirst(s3, ";IN;", " @ ");
    var s5 := ReplaceAll(s4, ";PD", " D");
    ReplaceAll(s5, ";PU", " U")
  }

  /** What plot_data returns. */
  function PlotOutput(paths: seq<Polyline>, penDown: bool, dpml: bool, offsetX: real, offsetY: real): string {
    if dpml then Dpml(Hpgl(paths, penDown, offsetX, offsetY)) else Hpgl(paths, penDown, offsetX, offsetY)
  }

  // ---------------------------------------------------------------------------
  // The encoder

  /**
   * plot_data over the coordinate lists of the geometry's paths: the output
   * grows by one move per point, with a per-subpath `first` flag choosing the
   * pen, and is rewritten for DPML at the end.
   */
  method PlotData(paths: seq<Polyline>, penDown: bool, dpml: bool, offsetX: real, offsetY: real)
    returns (output: string)
    ensures output == PlotOutput(paths, penDown, dpml, offsetX, offsetY)
  {
    output := "IN;SP1;";
    for i := 0 to |paths|
      invariant output == "IN;SP1;" + MovesText(Moves(paths[..i], penDown))
    {
      output := AppendPath(output, paths[i], penDown);
      NextPathText(paths, i, penDown);
    }
    assert paths[..|paths|] == paths;
    output := output + Trailer(offsetX, offsetY);

    if dpml {
      output := ReplaceFirst(output, "IN;", " ;:H A L0 ");
      output := ReplaceFirst(output, ";VS", " V");
      output := ReplaceFirst(output, " SP1", " EC1");
      output := ReplaceFirst(output, ";IN;", " @ ");
      output := ReplaceAll(output, ";PD", " D");
      output := ReplaceAll(output, ";PU", " U");
    }
  }

  /** The inner loop of plot_data: one move per point of the subpath, the first with the pen up. */
  method AppendPath(output: string, path: Polyline, penDown: bool) returns (result: string)
    ensures result == output + MovesText(PathMoves(path, penDown))
  {
    result := output;
    var first := true;
    for j := 0 to |path|
      invariant first <==> j == 0
      invariant result == output + MovesText(PathMoves(path, penDown)[..j])
    {
      var move := Move(!first && penDown, DeviceUnit(path[j].x), DeviceUnit(path[j].y));
      ghost var done := PathMoves(path, penDown)[..j];
      PathMovesAt(path, penDown, j);
      SliceSnoc(PathMoves(path, penDown), j);
      MovesTextSnoc(done, move);
      Assoc(output, MovesText(done), MoveText(move));
      result := result + MoveText(move);
      if first {
        first := false;
      }
    }
    assert PathMoves(path, penDown)[..|path|] == PathMoves(path, penDown);
  }

  /** The output after one more subpath. */
  lemma NextPathText(paths: seq<Polyline>, i: nat, penDown: bool)
    requires i < |paths|
    ensures "IN;SP1;" + MovesText(Moves(paths[..i], penDown)) + MovesText(PathMoves(paths[i], penDown))
         == "IN;SP1;" + MovesText(Moves(paths[..i + 1], penDown))
  {
    var before := Moves(paths[..i], penDown);
    var added := PathMoves(paths[i], penDown);
    assert paths[..i + 1] == paths[..i] + [paths[i]];
    MovesAppend(paths[..i], paths[i], penDown);
    MovesTextConcat(before, added);
    Assoc("IN;SP1;", MovesText(before), MovesText(added));
  }

  /** The text of consecutive moves is the text of the first ones, then of the rest. */
  lemma {:induction false} MovesTextConcat(a: seq<Move>, b: seq<Move>)
    ensures MovesText(a + b) == MovesText(a) + MovesText(b)
  {
    if a == [] {
      assert a + b == b;
    } else {
      assert (a + b)[1..] == a[1..] + b;
      MovesTextConcat(a[1..], b);
      var t := MoveText(a[0]);
      calc {
        MovesText(a + b);
        t + MovesText(a[1..] + b);
        t + (MovesText(a[1..]) + MovesText(b));
        { Assoc(t, MovesText(a[1..]), MovesText(b)); }
        (t + MovesText(a[1..])) + MovesText(b);
      }
    }
  }

  /** The move to point j of a subpath. */
  lemma PathMovesAt(p: Polyline, penDown: bool, j: nat)
    requires j < |p|
    ensures |PathMoves(p, penDown)| == |p|
    ensures PathMoves(p, penDown)[j] == Move(penDown && j > 0, DeviceUnit(p[j].x), DeviceUnit(p[j].y))
  {
  }

  lemma SliceSnoc<T>(s: seq<T>, j: nat)
    requires j < |s|
    ensures s[..j + 1] == s[..j] + [s[j]]
  {
  }

  /** The text of the moves, then of one more. */
  lemma MovesTextSnoc(ms: seq<Move>, m: Move)
    ensures MovesText(ms + [m]) == MovesText(ms) + MoveText(m)
  {
    MovesTextConcat(ms, [m]);
    MovesTextSingle(m);
  }

  lemma MovesTextSingle(m: Move)
    ensures MovesText([m]) == MoveText(m)
  {
    var t := MoveText(m);
    assert [m][1..] == [];
    assert MovesText([m]) == t + [];
  }

  lemma Assoc<T>(a: seq<T>, b: seq<T>, c: seq<T>)
    ensures a + (b + c) == (a + b) + c
  {
  }

  /** One more subpath adds its moves at the end. */
  lemma {:induction false} MovesAppend(paths: seq<Polyline>, p: Polyline, penDown: bool)
    ensures Moves(paths + [p], penDown) == Moves(paths, penDown) + PathMoves(p, penDown)
  {
    if paths == [] {
      assert Moves([p], penDown) == PathMoves(p, penDown) + Moves([], penDown);
    } else {
      assert (paths + [p])[1..] == paths[1..] + [p];
      MovesAppend(paths[1..], p, penDown);
    }
  }
}
