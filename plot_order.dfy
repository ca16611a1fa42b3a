/**
 * The plot order of the subpaths (line 139): each subpath becomes a shapely
 * LineString, is paired with the right edge of its bounding box (bounds[2],
 * its largest x-coordinate), and the pairs are sorted by that key with
 * Python's stable `sorted` before being unzipped again.
 *
 * SortByMaxX is an insertion sort by the key; the lemmas show it sorts, keeps
 * the same subpaths, keeps subpaths of equal key in input order, and that these
 * three facts determine its result. OrderPaths adds the failures of line 139.
 */
module PlotOrder {
  import opened Wrappers
  import opened Geometry
  import opened PathData
  import opened PathDataProps

  datatype OrderError =
    | NotALineString(index: nat)  // the first subpath shapely cannot turn into a LineString
    | NothingToPlot               // unpacking zip(*[]) into two names

  /** What LineString accepts: at least two vertices, all of them points. */
  predicate IsLineString(v: seq<Vertex>) {
    |v| >= 2 && Located(v)
  }

  /** Every vertex is a point. */
  predicate Located(v: seq<Vertex>) {
    forall j :: 0 <= j < |v| ==> v[j].Some?
  }

  predicate AllLineStrings(paths: seq<seq<Vertex>>) {
    forall i :: 0 <= i < |paths| ==> IsLineString(paths[i])
  }

  /** The index of the first subpath that is not a LineString, if any. */
  function FirstBad(paths: seq<seq<Vertex>>): (r: Option<nat>)
    ensures r.None? <==> AllLineStrings(paths)
    ensures r.Some? ==> r.value < |paths| && !IsLineString(paths[r.value])
    ensures r.Some? ==> forall i :: 0 <= i < r.value ==> IsLineString(paths[i])
  {
    if paths == [] then None
    else if !IsLineString(paths[0]) then Some(0)
    else match FirstBad(paths[1..])
      case None => None
      case Some(i) => Some(i + 1)
  }

  /** The coordinates of a subpath whose vertices are all points. */
  function Coordinates(v: seq<Vertex>): (p: Polyline)
    requires Located(v)
    ensures |p| == |v| && forall j :: 0 <= j < |v| ==> p[j] == v[j].value
  {
    if v == [] then []
    else
      assert forall j :: 0 <= j < |v[1..]| ==> v[1..][j] == v[j + 1];
      [v[0].value] + Coordinates(v[1..])
  }

  /** The polylines of subpaths that are all LineStrings. */
  function Polylines(paths: seq<seq<Vertex>>): (r: seq<Polyline>)
    requires AllLineStrings(paths)
    ensures |r| == |paths| && forall i :: 0 <= i < |paths| ==> r[i] == Coordinates(paths[i])
    ensures NonEmptyPaths(r)
  {
    if paths == [] then []
    else
      assert IsLineString(paths[0]);
      assert forall i :: 0 <= i < |paths[1..]| ==> paths[1..][i] == paths[i + 1];
      [Coordinates(paths[0])] + Polylines(paths[1..])
  }

  // ---------------------------------------------------------------------------
  // The key and the sort

  /** bounds[2] of a LineString: its largest x-coordinate. */
  function MaxX(p: Polyline): (m: real)
    requires |p| > 0
    ensures forall i :: 0 <= i < |p| ==> p[i].x <= m
  {
    if |p| == 1 then p[0].x
    else
      var rest := MaxX(p[1..]);
      assert forall i :: 1 <= i < |p| ==> p[i] == p[1..][i - 1];
      if p[0].x >= rest then p[0].x else rest
  }

  /** The key is the x-coordinate of one of the points: it is the maximum, not just a bound. */
  lemma {:induction false} MaxXAttained(p: Polyline) returns (i: nat)
    requires |p| > 0
    ensures i < |p| && p[i].x == MaxX(p)
  {
    if |p| == 1 {
      i := 0;
    } else if p[0].x >= MaxX(p[1..]) {
      i := 0;
    } else {
      var j := MaxXAttained(p[1..]);
      i := j + 1;
    }
  }

  predicate NonEmptyPaths(s: seq<Polyline>) {
    forall i :: 0 <= i < |s| ==> |s[i]| > 0
  }

  /** Non-decreasing in the key. */
  predicate Sorted(s: seq<Polyline>)
    requires NonEmptyPaths(s)
  {
    forall i, j :: 0 <= i < j < |s| ==> MaxX(s[i]) <= MaxX(s[j])
  }

  /** Puts p before the first subpath whose key is at least p's. */
  function Insert(p: Polyline, s: seq<Polyline>): (r: seq<Polyline>)
    requires |p| > 0 && NonEmptyPaths(s)
    ensures |r| == |s| + 1 && NonEmptyPaths(r)
  {
    if s == [] || MaxX(p) <= MaxX(s[0]) then [p] + s
    else [s[0]] + Insert(p, s[1..])
  }

  /**
   * sorted(..., key=itemgetter(1)) on the pairs (path, bounds[2]): each
   * subpath is inserted into the sorted rest, in front of equal keys, so that
   * subpaths of equal key keep their input order.
   */
  function SortByMaxX(s: seq<Polyline>): (r: seq<Polyline>)
    requires NonEmptyPaths(s)
    ensures |r| == |s| && NonEmptyPaths(r)
  {
    if s == [] then [] else Insert(s[0], SortByMaxX(s[1..]))
  }

  /**
   * Line 139 as a whole: the first subpath that is not a LineString fails;
   * no subpath at all fails the unpacking; otherwise the subpaths sorted.
   */
  function OrderPaths(paths: seq<seq<Vertex>>): (r: Result<seq<Polyline>, OrderError>)
    ensures r.Err? && r.error.NotALineString? ==>
      && r.error.index < |paths| && !IsLineString(paths[r.error.index])
      && forall i :: 0 <= i < r.error.index ==> IsLineString(paths[i])
    ensures r.Err? && r.error.NothingToPlot? <==> paths == []
    ensures r.Ok? <==> paths != [] && AllLineStrings(paths)
    ensures r.Ok? ==> NonEmptyPaths(r.value) && multiset(r.value) == multiset(Polylines(paths))
  {
    match FirstBad(paths)
    case Some(i) => Err(NotALineString(i))
    case None =>
      if paths == [] then Err(NothingToPlot)
      else
        SortPermutation(Polylines(paths));
        Ok(SortByMaxX(Polylines(paths)))
  }

  // ---------------------------------------------------------------------------
  // A permutation

  lemma {:induction false} InsertPermutation(p: Polyline, s: seq<Polyline>)
    requires |p| > 0 && NonEmptyPaths(s)
    ensures multiset(Insert(p, s)) == multiset(s) + multiset{p}
  {
    if s != [] && MaxX(p) > MaxX(s[0]) {
      InsertPermutation(p, s[1..]);
      assert s == [s[0]] + s[1..];
    }
  }

  /** The sort only reorders: every subpath comes out as often as it went in. */
  lemma {:induction false} SortPermutation(s: seq<Polyline>)
    requires NonEmptyPaths(s)
    ensures multiset(SortByMaxX(s)) == multiset(s)
  {
    if s != [] {
      SortPermutation(s[1..]);
      InsertPermutation(s[0], SortByMaxX(s[1..]));
      assert s == [s[0]] + s[1..];
    }
  }

  // ---------------------------------------------------------------------------
  // Sorted

  /** Every key of s is at least b. */
  predicate AtLeast(s: seq<Polyline>, b: real)
    requires NonEmptyPaths(s)
  {
    forall i :: 0 <= i < |s| ==> b <= MaxX(s[i])
  }

  lemma {:induction false} InsertAtLeast(p: Polyline, s: seq<Polyline>, b: real)
    requires |p| > 0 && NonEmptyPaths(s) && AtLeast(s, b) && b <= MaxX(p)
    ensures AtLeast(Insert(p, s), b)
  {
    if s != [] && MaxX(p) > MaxX(s[0]) {
      assert AtLeast(s[1..], b) by {
        forall i | 0 <= i < |s[1..]| ensures b <= MaxX(s[1..][i]) {
          assert s[1..][i] == s[i + 1];
        }
      }
      InsertAtLeast(p, s[1..], b);
    }
  }

  lemma SortedCons(p: Polyline, t: seq<Polyline>)
    requires |p| > 0 && NonEmptyPaths(t) && Sorted(t) && AtLeast(t, MaxX(p))
    ensures NonEmptyPaths([p] + t) && Sorted([p] + t)
  {
    SortedConsOf([p] + t, p, t);
  }

  /** SortedCons on a name for the longer sequence. */
  lemma SortedConsOf(r: seq<Polyline>, p: Polyline, t: seq<Polyline>)
    requires r == [p] + t
    requires |p| > 0 && NonEmptyPaths(t) && Sorted(t) && AtLeast(t, MaxX(p))
    ensures NonEmptyPaths(r) && Sorted(r)
  {
    forall i | 0 <= i < |r| ensures |r[i]| > 0 && (i > 0 ==> r[i] == t[i - 1]) {
      ConsAt(r, p, t, i);
    }
    forall i, j | 0 <= i < j < |r| ensures MaxX(r[i]) <= MaxX(r[j]) {
      ConsAt(r, p, t, j);
      ConsAt(r, p, t, i);
    }
  }

  lemma ConsAt(r: seq<Polyline>, p: Polyline, t: seq<Polyline>, i: nat)
    requires r == [p] + t && i < |r|
    ensures r[i] == if i == 0 then p else t[i - 1]
  {
  }

  lemma SortedTail(s: seq<Polyline>)
    requires NonEmptyPaths(s) && Sorted(s) && s != []
    ensures Sorted(s[1..]) && AtLeast(s[1..], MaxX(s[0]))
  {
    forall i, j | 0 <= i < j < |s[1..]| ensures MaxX(s[1..][i]) <= MaxX(s[1..][j]) {
      assert s[1..][i] == s[i + 1] && s[1..][j] == s[j + 1];
    }
    forall i | 0 <= i < |s[1..]| ensures MaxX(s[0]) <= MaxX(s[1..][i]) {
      assert s[1..][i] == s[i + 1];
    }
  }

  lemma {:induction false} InsertSorted(p: Polyline, s: seq<Polyline>)
    requires |p| > 0 && NonEmptyPaths(s) && Sorted(s)
    ensures Sorted(Insert(p, s))
  {
    if s == [] {
      SortedCons(p, s);
    } else if MaxX(p) <= MaxX(s[0]) {
      assert AtLeast(s, MaxX(p));
      SortedCons(p, s);
    } else {
      SortedTail(s);
      InsertSorted(p, s[1..]);
      InsertAtLeast(p, s[1..], MaxX(s[0]));
      SortedCons(s[0], Insert(p, s[1..]));
    }
  }

  /** The result of the sort is non-decreasing in max-x. */
  lemma {:induction false} SortSorted(s: seq<Polyline>)
    requires NonEmptyPaths(s)
    ensures Sorted(SortByMaxX(s))
  {
    if s != [] {
      SortSorted(s[1..]);
      InsertSorted(s[0], SortByMaxX(s[1..]));
    }
  }

  // ---------------------------------------------------------------------------
  // Stable

  /** The subsequence of the subpaths whose key is k, in order. */
  function WithKey(s: seq<Polyline>, k: real): (r: seq<Polyline>)
    requires NonEmptyPaths(s)
  {
    if s == [] then []
    else (if MaxX(s[0]) == k then [s[0]] else []) + WithKey(s[1..], k)
  }

  lemma {:induction false} InsertStable(p: Polyline, s: seq<Polyline>, k: real)
    requires |p| > 0 && NonEmptyPaths(s)
    ensures WithKey(Insert(p, s), k) == (if MaxX(p) == k then [p] else []) + WithKey(s, k)
    decreases |s|
  {
    if s == [] || MaxX(p) <= MaxX(s[0]) {
      WithKeyCons(Insert(p, s), p, s, k);
    } else {
      var rest := Insert(p, s[1..]);
      InsertStable(p, s[1..], k);
      WithKeyCons(Insert(p, s), s[0], rest, k);
      WithKeyCons(s, s[0], s[1..], k);
      SwapKeyed(s[0], p, WithKey(s[1..], k), k);
    }
  }

  /** The keyed subsequence of a sequence that starts with h. */
  lemma WithKeyCons(r: seq<Polyline>, h: Polyline, t: seq<Polyline>, k: real)
    requires r == [h] + t && |h| > 0 && NonEmptyPaths(t)
    ensures NonEmptyPaths(r)
    ensures WithKey(r, k) == (if MaxX(h) == k then [h] else []) + WithKey(t, k)
  {
    assert r[0] == h && r[1..] == t;
  }

  /** Two subpaths of different keys contribute to one key's subsequence in either order alike. */
  lemma SwapKeyed(a: Polyline, b: Polyline, w: seq<Polyline>, k: real)
    requires |a| > 0 && |b| > 0 && MaxX(a) < MaxX(b)
    ensures (if MaxX(a) == k then [a] else []) + ((if MaxX(b) == k then [b] else []) + w)
         == (if MaxX(b) == k then [b] else []) + ((if MaxX(a) == k then [a] else []) + w)
  {
  }

  /** Subpaths of equal max-x come out in the order they went in. */
  lemma {:induction false} SortStable(s: seq<Polyline>, k: real)
    requires NonEmptyPaths(s)
    ensures WithKey(SortByMaxX(s), k) == WithKey(s, k)
  {
    if s != [] {
      SortStable(s[1..], k);
      InsertStable(s[0], SortByMaxX(s[1..]), k);
    }
  }

  // ---------------------------------------------------------------------------
  // Determined by the three properties

  lemma WithKeyHead(s: seq<Polyline>)
    requires NonEmptyPaths(s) && s != []
    ensures WithKey(s, MaxX(s[0])) != [] && WithKey(s, MaxX(s[0]))[0] == s[0]
  {
  }

  /** A key whose subsequence is non-empty belongs to some element. */
  lemma {:induction false} WithKeyMember(s: seq<Polyline>, k: real)
    requires NonEmptyPaths(s) && WithKey(s, k) != []
    ensures exists i :: 0 <= i < |s| && MaxX(s[i]) == k
  {
    if MaxX(s[0]) != k {
      WithKeyMember(s[1..], k);
      var i :| 0 <= i < |s[1..]| && MaxX(s[1..][i]) == k;
      assert s[1..][i] == s[i + 1];
    }
  }

  /** In a sorted sequence no key is below the first one. */
  lemma SortedHeadLeast(t: seq<Polyline>, k: real)
    requires NonEmptyPaths(t) && Sorted(t) && t != [] && WithKey(t, k) != []
    ensures MaxX(t[0]) <= k
  {
    WithKeyMember(t, k);
  }

  /** Equal heads and equal subsequences for every key give equal subsequences of the tails. */
  lemma TailsWithKey(t: seq<Polyline>, u: seq<Polyline>, k: real)
    requires NonEmptyPaths(t) && NonEmptyPaths(u) && t != [] && u != [] && t[0] == u[0]
    requires WithKey(t, k) == WithKey(u, k)
    ensures WithKey(t[1..], k) == WithKey(u[1..], k)
  {
    var h := if MaxX(t[0]) == k then [t[0]] else [];
    assert WithKey(t, k) == h + WithKey(t[1..], k);
    assert WithKey(u, k) == h + WithKey(u[1..], k);
    assert (h + WithKey(t[1..], k))[|h|..] == WithKey(t[1..], k);
    assert (h + WithKey(u[1..], k))[|h|..] == WithKey(u[1..], k);
  }

  /** Two sorted sequences with the same subsequence for every key are equal. */
  lemma {:induction false} SortedUnique(t: seq<Polyline>, u: seq<Polyline>)
    requires NonEmptyPaths(t) && NonEmptyPaths(u) && Sorted(t) && Sorted(u)
    requires forall k :: WithKey(t, k) == WithKey(u, k)
    ensures t == u
    decreases |t|
  {
    if t == [] {
      if u != [] {
        WithKeyHead(u);
      }
    } else if u == [] {
      WithKeyHead(t);
    } else {
      var k0, k1 := MaxX(t[0]), MaxX(u[0]);
      WithKeyHead(t);
      WithKeyHead(u);
      assert WithKey(u, k0) == WithKey(t, k0);
      assert WithKey(t, k1) == WithKey(u, k1);
      SortedHeadLeast(u, k0);
      SortedHeadLeast(t, k1);
      assert t[0] == WithKey(t, k0)[0] == u[0];
      forall k ensures WithKey(t[1..], k) == WithKey(u[1..], k) {
        TailsWithKey(t, u, k);
      }
      SortedTail(t);
      SortedTail(u);
      SortedUnique(t[1..], u[1..]);
      assert t == [t[0]] + t[1..] && u == [u[0]] + u[1..];
    }
  }

  /**
   * The stable sort is the only order that is sorted and keeps equal keys in
   * input order: any other sequence with both properties is SortByMaxX's result.
   */
  lemma SortCharacterised(s: seq<Polyline>, t: seq<Polyline>)
    requires NonEmptyPaths(s) && NonEmptyPaths(t) && Sorted(t)
    requires forall k :: WithKey(t, k) == WithKey(s, k)
    ensures t == SortByMaxX(s)
  {
    SortSorted(s);
    forall k ensures WithKey(t, k) == WithKey(SortByMaxX(s), k) {
      SortStable(s, k);
    }
    SortedUnique(t, SortByMaxX(s));
  }

  /** Sorting an already sorted sequence changes nothing; so sorting twice is sorting once. */
  lemma {:induction false} SortIdentity(s: seq<Polyline>)
    requires NonEmptyPaths(s) && Sorted(s)
    ensures SortByMaxX(s) == s
  {
    if s != [] {
      SortedTail(s);
      SortIdentity(s[1..]);
      assert s == [s[0]] + s[1..];
    }
  }

  lemma SortIdempotent(s: seq<Polyline>)
    requires NonEmptyPaths(s)
    ensures SortByMaxX(SortByMaxX(s)) == SortByMaxX(s)
  {
    SortSorted(s);
    SortIdentity(SortByMaxX(s));
  }

  // ---------------------------------------------------------------------------
  // Line 139 as a whole

  /** On success, the subpaths are those of the input, sorted by max-x, with ties in order. */
  lemma OrderPathsMeaning(paths: seq<seq<Vertex>>, k: real)
    requires OrderPaths(paths).Ok?
    ensures Sorted(OrderPaths(paths).value)
    ensures WithKey(OrderPaths(paths).value, k) == WithKey(Polylines(paths), k)
  {
    SortSorted(Polylines(paths));
    SortStable(Polylines(paths), k);
  }

  /** Three subpaths whose right edges are at 5, 1 and 3 come out as 1, 3, 5. */
  lemma ExampleOrder(a: Polyline, b: Polyline, c: Polyline)
    requires a == [Point(5.0, 0.0)] && b == [Point(1.0, 0.0)] && c == [Point(3.0, 0.0)]
    ensures SortByMaxX([a, b, c]) == [b, c, a]
  {
    assert MaxX(a) == 5.0 && MaxX(b) == 1.0 && MaxX(c) == 3.0;
    assert [a, b, c][1..] == [b, c] && [b, c][1..] == [c] && [c][1..] == [];
    assert SortByMaxX([c]) == [c];
    assert SortByMaxX([b, c]) == [b, c];
    assert Insert(a, [c]) == [c, a];
  }

  /** Two subpaths that tie at 2 keep their order around the one at 1. */
  lemma ExampleTie(a: Polyline, b: Polyline, c: Polyline)
    requires a == [Point(0.0, 0.0), Point(2.0, 0.0)] && b == [Point(1.0, 1.0)] && c == [Point(2.0, 7.0)]
    ensures SortByMaxX([a, b, c]) == [b, a, c]
  {
    MaxXOfTwo(a, Point(0.0, 0.0), Point(2.0, 0.0));
    SortTie([a, b, c], a, b, c);
  }

  lemma MaxXOfTwo(p: Polyline, u: Point, v: Point)
    requires p == [u, v]
    ensures MaxX(p) == if u.x >= v.x then u.x else v.x
  {
    assert p[1..] == [v];
  }

  /** A subpath between two keys, followed by one that ties with the first, goes behind the smaller and ahead of the tie. */
  lemma SortTie(s: seq<Polyline>, a: Polyline, b: Polyline, c: Polyline)
    requires s == [a, b, c] && |a| > 0 && |b| > 0 && |c| > 0
    requires MaxX(b) < MaxX(a) <= MaxX(c)
    ensures SortByMaxX(s) == [b, a, c]
  {
    assert s[1..] == [b, c] && [b, c][1..] == [c] && [c][1..] == [];
    assert SortByMaxX([c]) == [c];
    assert SortByMaxX([b, c]) == [b, c];
    assert Insert(a, [c]) == [a, c];
  }

  /** A subpath of one point (a moveto alone) is not a LineString, so line 139 fails on it. */
  lemma ExampleSinglePoint()
    ensures OrderPaths([[Some(Point(1.0, 1.0))]]) == Err(NotALineString(0))
  {
  }

  // ---------------------------------------------------------------------------
  // After the parser

  /**
   * What the corrected parser returns can always be ordered once no subpath is
   * a lone point: its vertices are all points.
   */
  lemma ParsedPathsOrder(data: string)
    requires ParseIntended(data).Ok? && ParseIntended(data).value != []
    requires forall i :: 0 <= i < |ParseIntended(data).value| ==> |ParseIntended(data).value[i]| >= 2
    ensures OrderPaths(ParseIntended(data).value).Ok?
  {
    var paths := ParseIntended(data).value;
    ParseIntendedPoints(data);
    forall i | 0 <= i < |paths| ensures IsLineString(paths[i]) {
      forall j | 0 <= j < |paths[i]| ensures paths[i][j].Some? {
      }
    }
  }

  /** As written, a leading lineto is parsed, and the None it seeds then fails at line 139. */
  lemma LeadingLinetoFailsOrder(text: string)
    requires text == "L 5 5 "
    ensures Parse(text).Ok? && OrderPaths(Parse(text).value) == Err(NotALineString(0))
  {
    LeadingLinetoAccepted(text);
    assert !Located([None, Some(Point(5.0, 5.0))]) by {
      assert [None, Some(Point(5.0, 5.0))][0] == None;
    }
  }
}
