/**
 * The pieces of Python's string library that the converter relies on:
 * str.isspace/str.lstrip, decimal digits, the '%d' formatter, str.find and
 * str.replace with and without a count of 1.
 */
module Text {
  import opened Wrappers

  predicate IsDigit(c: char) { '0' <= c <= '9' }

  /** The characters Python's str.isspace() accepts, which str.lstrip() removes. */
  predicate IsSpace(c: char) {
    || ('\t' <= c <= '\r')
    || ('\U{1C}' <= c <= '\U{1F}')
    || c == ' ' || c == '\U{85}' || c == '\U{A0}' || c == '\U{1680}'
    || ('\U{2000}' <= c <= '\U{200A}')
    || c == '\U{2028}' || c == '\U{2029}' || c == '\U{202F}' || c == '\U{205F}' || c == '\U{3000}'
  }

  predicate AllDigits(t: string) { forall i :: 0 <= i < |t| ==> IsDigit(t[i]) }

  /** Python's s.lstrip(): s without its longest all-whitespace prefix. */
  function LStrip(s: string): (r: string)
    ensures |r| <= |s| && r == s[|s| - |r|..]
    ensures r == [] || !IsSpace(r[0])
    ensures forall i :: 0 <= i < |s| - |r| ==> IsSpace(s[i])
  {
    if s != [] && IsSpace(s[0]) then LStrip(s[1..]) else s
  }

  function DigitValue(c: char): nat { if IsDigit(c) then c as int - '0' as int else 0 }

  function DigitChar(d: nat): char
    requires d < 10
  {
    ('0' as int + d) as char
  }

  /** The value of a string of decimal digits, most significant first. */
  function DigitsValue(ds: string): nat
  {
    if ds == [] then 0 else DigitsValue(ds[..|ds| - 1]) * 10 + DigitValue(ds[|ds| - 1])
  }

  function Pow10(k: nat): (r: nat)
    ensures r >= 1
  {
    if k == 0 then 1 else 10 * Pow10(k - 1)
  }

  /** The shortest decimal spelling of n: digits only, no leading zero (and reading back as n, by FormatNatValue). */
  function FormatNat(n: nat): (r: string)
    ensures |r| > 0 && AllDigits(r)
    ensures r[0] != '0' || r == "0"
  {
    if n < 10 then [DigitChar(n)] else FormatNat(n / 10) + [DigitChar(n % 10)]
  }

  /** The digits FormatNat writes read back as n. */
  lemma {:induction false} FormatNatValue(n: nat)
    ensures DigitsValue(FormatNat(n)) == n
  {
    var r := FormatNat(n);
    if n >= 10 {
      FormatNatValue(n / 10);
      assert r[..|r| - 1] == FormatNat(n / 10);
    }
  }

  /** Python's '%d' % n: an optional minus sign, then the digits of |n|. */
  function FormatInt(n: int): (r: string)
    ensures |r| > 0
    ensures (r[0] == '-') == (n < 0)
    ensures var digits := if n < 0 then r[1..] else r;
      && |digits| > 0 && AllDigits(digits)
      && (digits[0] != '0' || digits == "0")
  {
    if n < 0 then "-" + FormatNat(-n) else FormatNat(n)
  }

  /** The digits of '%d' % n read back as |n|. */
  lemma FormatIntValue(n: int)
    ensures DigitsValue(if n < 0 then FormatInt(n)[1..] else FormatInt(n)) == (if n < 0 then -n else n)
  {
    if n < 0 {
      FormatNatValue(-n);
      assert FormatInt(n)[1..] == FormatNat(-n);
    } else {
      FormatNatValue(n);
    }
  }

  /** Every character '%d' writes is a digit or the minus sign. */
  lemma FormatIntChars(n: int)
    ensures forall i :: 0 <= i < |FormatInt(n)| ==> IsDigit(FormatInt(n)[i]) || FormatInt(n)[i] == '-'
  {
    var f := FormatInt(n);
    var digits := if n < 0 then f[1..] else f;
    forall i | 0 <= i < |f| ensures IsDigit(f[i]) || f[i] == '-' {
      if n < 0 && i > 0 {
        assert f[i] == digits[i - 1];
      }
    }
  }

  /** p occurs in s at position i. */
  predicate OccursAt(s: string, p: string, i: int) {
    0 <= i && i + |p| <= |s| && s[i..i + |p|] == p
  }

  /** Python's s.find(p), with None for -1: the leftmost position at which p occurs in s. */
  function Find(s: string, p: string): (r: Option<nat>)
    ensures r.Some? ==> r.value + |p| <= |s|
    decreases |s|
  {
    if p <= s then Some(0)
    else if s == [] then None
    else
      match Find(s[1..], p)
      case None => None
      case Some(k) => Some(k + 1)
  }

  /** p occurs in s at k and at no position before k. */
  predicate FirstAt(s: string, p: string, k: int) {
    OccursAt(s, p, k) && forall j :: 0 <= j < k ==> !OccursAt(s, p, j)
  }

  /** Find reports an occurrence with none before it, or None when p occurs nowhere. */
  lemma {:induction false} FindSpec(s: string, p: string)
    ensures var r := Find(s, p);
      && (r.Some? ==> FirstAt(s, p, r.value))
      && (r.None? ==> forall j :: 0 <= j <= |s| ==> !OccursAt(s, p, j))
    decreases |s|
  {
    OccursShift(s, p);
    if !(p <= s) && s != [] {
      FindSpec(s[1..], p);
    }
  }

  /** Occurrences in s[1..] are the occurrences in s, one position to the left. */
  lemma OccursShift(s: string, p: string)
    ensures OccursAt(s, p, 0) <==> p <= s
    ensures s != [] ==> forall j :: 1 <= j ==> (OccursAt(s, p, j) <==> OccursAt(s[1..], p, j - 1))
  {
    if |p| <= |s| {
      assert s[0..|p|] == s[..|p|];
    }
    if s != [] {
      forall j | 1 <= j
        ensures OccursAt(s, p, j) <==> OccursAt(s[1..], p, j - 1)
      {
        if j + |p| <= |s| {
          assert s[j..j + |p|] == s[1..][j - 1..j - 1 + |p|];
        }
      }
    }
  }

  /** Python's s.replace(p, r, 1): the leftmost occurrence of p, if any, replaced by r. */
  function ReplaceFirst(s: string, p: string, r: string): string
  {
    match Find(s, p)
    case None => s
    case Some(i) => s[..i] + r + s[i + |p|..]
  }

  /**
   * Python's s.replace(p, r): every occurrence of p, scanning left to right and
   * never overlapping, replaced by r; an empty p inserts r around every character.
   */
  function ReplaceAll(s: string, p: string, r: string): string
    decreases |s|
  {
    if p == [] then (if s == [] then r else r + [s[0]] + ReplaceAll(s[1..], p, r))
    else if p <= s then r + ReplaceAll(s[|p|..], p, r)
    else if s == [] then []
    else [s[0]] + ReplaceAll(s[1..], p, r)
  }

  /** A pattern one of whose characters is missing from s is not replaced anywhere. */
  lemma {:induction false} ReplaceAllAbsent(s: string, p: string, r: string, k: nat)
    requires k < |p| && p[k] !in s
    ensures ReplaceAll(s, p, r) == s
    decreases |s|
  {
    if !(p <= s) && s != [] {
      ReplaceAllAbsent(s[1..], p, r, k);
    }
  }

  /**
   * Replacing all occurrences distributes over a concatenation a + b when no
   * occurrence of p can straddle the seam: the last |p| - 1 characters of a do
   * not start p.
   */
  lemma {:induction false} ReplaceAllConcat(a: string, b: string, p: string, r: string)
    requires |p| > 0
    requires forall i :: 0 <= i < |a| && |a| < i + |p| ==> a[i] != p[0]
    ensures ReplaceAll(a + b, p, r) == ReplaceAll(a, p, r) + ReplaceAll(b, p, r)
    decreases |a|
  {
    if a == [] {
      assert a + b == b;
    } else if p <= a + b {
      assert a[0] == (a + b)[0] == p[0];
      assert |p| <= |a|;
      assert p <= a by { assert a[..|p|] == (a + b)[..|p|]; }
      assert (a + b)[|p|..] == a[|p|..] + b;
      ReplaceAllConcat(a[|p|..], b, p, r);
    } else {
      assert !(p <= a);
      assert (a + b)[1..] == a[1..] + b;
      ReplaceAllConcat(a[1..], b, p, r);
    }
  }

  /** A string that starts with p has that occurrence replaced first. */
  lemma ReplaceAllAtStart(p: string, b: string, r: string)
    requires |p| > 0
    ensures ReplaceAll(p + b, p, r) == r + ReplaceAll(b, p, r)
  {
    assert (p + b)[|p|..] == b;
  }

  /** When a character of p is missing from s, p does not occur in s and ReplaceFirst leaves s alone. */
  lemma ReplaceFirstAbsent(s: string, p: string, r: string, k: nat)
    requires k < |p| && p[k] !in s
    ensures Find(s, p) == None
    ensures ReplaceFirst(s, p, r) == s
  {
  }

  /** ReplaceFirst on a string that starts with p replaces that leading occurrence. */
  lemma ReplaceFirstAtStart(p: string, b: string, r: string)
    ensures Find(p + b, p) == Some(0)
    ensures ReplaceFirst(p + b, p, r) == r + b
  {
    assert OccursAt(p + b, p, 0) by { assert (p + b)[0..|p|] == p; }
    assert (p + b)[|p|..] == b;
  }

  /**
   * When p occurs nowhere starting inside a, ReplaceFirst on a + b finds its
   * occurrence in b (or none) and leaves a alone.
   */
  lemma ReplaceFirstSkip(a: string, b: string, p: string, r: string)
    requires forall j :: 0 <= j < |a| ==> !OccursAt(a + b, p, j)
    ensures ReplaceFirst(a + b, p, r) == a + ReplaceFirst(b, p, r)
  {
    FindSkip(a, b, p);
    match Find(b, p)
    case None =>
    case Some(i) => ReplaceFirstShifted(a + b, a, b, p, r, i);
  }

  lemma ReplaceFirstShifted(s: string, a: string, b: string, p: string, r: string, i: nat)
    requires s == a + b && Find(b, p) == Some(i) && Find(s, p) == Some(|a| + i)
    ensures ReplaceFirst(s, p, r) == a + ReplaceFirst(b, p, r)
  {
    var x, y := b[..i], b[i + |p|..];
    ReplaceFirstAt(s, p, r, |a| + i);
    SliceOfConcat(s, a, b, i, |p|);
    ReplaceFirstAt(b, p, r, i);
    ConcatAssoc(a, x, r, y);
  }

  /** ReplaceFirst where Find has found p. */
  lemma ReplaceFirstAt(s: string, p: string, r: string, i: nat)
    requires Find(s, p) == Some(i)
    ensures ReplaceFirst(s, p, r) == s[..i] + r + s[i + |p|..]
  {
  }

  lemma ConcatAssoc(a: string, x: string, r: string, y: string)
    ensures (a + x) + r + y == a + (x + r + y)
  {
  }

  lemma SliceOfConcat(s: string, a: string, b: string, i: nat, n: nat)
    requires s == a + b && i + n <= |b|
    ensures s[..|a| + i] == a + b[..i]
    ensures s[|a| + i + n..] == b[i + n..]
  {
  }

  /** Find on a + b, when p occurs nowhere starting inside a, is Find on b shifted by |a|. */
  lemma FindSkip(a: string, b: string, p: string)
    requires forall j :: 0 <= j < |a| ==> !OccursAt(a + b, p, j)
    ensures Find(a + b, p) == match Find(b, p) case None => None case Some(i) => Some(|a| + i)
  {
    FindSpec(b, p);
    match Find(b, p)
    case None => FindSkipNone(a, b, p);
    case Some(i) => FindSkipSome(a + b, a, b, p, i);
  }

  lemma FindSkipNone(a: string, b: string, p: string)
    requires forall j :: 0 <= j < |a| ==> !OccursAt(a + b, p, j)
    requires forall j :: 0 <= j <= |b| ==> !OccursAt(b, p, j)
    ensures Find(a + b, p) == None
  {
    forall j | 0 <= j <= |a + b| ensures !OccursAt(a + b, p, j) {
      if j >= |a| {
        OccursAfter(a, b, p, j - |a|);
      }
    }
    FindNone(a + b, p);
  }

  lemma FindSkipSome(s: string, a: string, b: string, p: string, i: nat)
    requires s == a + b
    requires forall j :: 0 <= j < |a| ==> !OccursAt(s, p, j)
    requires FirstAt(b, p, i)
    ensures Find(s, p) == Some(|a| + i)
  {
    FirstAtShifted(a, b, p, i);
    FindFirst(s, p, |a| + i);
  }

  /** The first occurrence in b is the first in a + b, shifted by |a|, when none starts in a. */
  lemma FirstAtShifted(a: string, b: string, p: string, i: nat)
    requires forall j :: 0 <= j < |a| ==> !OccursAt(a + b, p, j)
    requires FirstAt(b, p, i)
    ensures FirstAt(a + b, p, |a| + i)
  {
    OccursAfter(a, b, p, i);
    forall j | |a| <= j < |a| + i ensures !OccursAt(a + b, p, j) {
      OccursAfter(a, b, p, j - |a|);
    }
  }

  /** Find reports the first occurrence. */
  lemma FindFirst(s: string, p: string, k: nat)
    requires FirstAt(s, p, k)
    ensures Find(s, p) == Some(k)
  {
    FindSpec(s, p);
  }

  /** Find reports no occurrence when there is none. */
  lemma FindNone(s: string, p: string)
    requires forall j :: 0 <= j <= |s| ==> !OccursAt(s, p, j)
    ensures Find(s, p) == None
  {
    FindSpec(s, p);
  }

  /** p occurs in a + b at |a| + j exactly when it occurs in b at j. */
  lemma OccursAfter(a: string, b: string, p: string, j: nat)
    ensures OccursAt(a + b, p, |a| + j) <==> OccursAt(b, p, j)
  {
    if j + |p| <= |b| {
      assert (a + b)[|a| + j..|a| + j + |p|] == b[j..j + |p|];
    }
  }

  /**
   * If the k-th character of p is missing from the window s[k..n + k], then p
   * occurs at none of the first n positions of s.
   */
  lemma NoEarlyOccurrence(s: string, p: string, n: nat, k: nat)
    requires k < |p| && n + k <= |s| && p[k] !in s[k..n + k]
    ensures forall j :: 0 <= j < n ==> !OccursAt(s, p, j)
  {
    forall j | 0 <= j < n ensures !OccursAt(s, p, j) {
      assert s[k..n + k][j] == s[j + k];
    }
  }

  /**
   * Replacing a single character c by a single character d keeps the length
   * and changes exactly the positions that held c.
   */
  lemma {:induction false} ReplaceCharPointwise(s: string, c: char, d: char)
    ensures |ReplaceAll(s, [c], [d])| == |s|
    ensures forall i :: 0 <= i < |s| ==> ReplaceAll(s, [c], [d])[i] == (if s[i] == c then d else s[i])
    decreases |s|
  {
    if s != [] {
      ReplaceCharPointwise(s[1..], c, d);
      if [c] <= s {
        assert s[|[c]|..] == s[1..];
      }
    }
  }

  /**
   * The first occurrence of p in a + p + b is the one after a, when some
   * character p[k] of p appears neither in a nor earlier in p.
   */
  lemma ReplaceFirstAfter(a: string, p: string, b: string, r: string, k: nat)
    requires k < |p| && p[k] !in a && p[k] !in p[..k]
    ensures ReplaceFirst(a + p + b, p, r) == a + r + b
  {
    NoEarlierOccurrence(a + (p + b), a, p, b, k);
    ReplaceFirstSkip(a, p + b, p, r);
    ReplaceFirstAtStart(p, b, r);
    assert a + p + b == a + (p + b);
    assert a + (r + b) == a + r + b;
  }

  /** No occurrence of p starts inside a when p[k] occurs neither in a nor before position k of p. */
  lemma NoEarlierOccurrence(s: string, a: string, p: string, b: string, k: nat)
    requires s == a + (p + b) && k < |p| && p[k] !in a && p[k] !in p[..k]
    ensures forall j :: 0 <= j < |a| ==> !OccursAt(s, p, j)
  {
    forall j | 0 <= j < |a| ensures !OccursAt(s, p, j) {
      NoOccurrenceAt(s, a, p, b, k, j);
    }
  }

  lemma NoOccurrenceAt(s: string, a: string, p: string, b: string, k: nat, j: nat)
    requires s == a + (p + b) && k < |p| && p[k] !in a && p[k] !in p[..k] && j < |a|
    ensures !OccursAt(s, p, j)
  {
    if j + k < |a| {
      assert s[j + k] == a[j + k];
    } else {
      assert s[j + k] == p[j + k - |a|] == p[..k][j + k - |a|];
    }
    if j + |p| <= |s| {
      assert s[j..j + |p|][k] == s[j + k];
    }
  }

  /**
   * Replacing all occurrences distributes over the seam after a + c when c is
   * long enough to hold every straddling start and does not contain p[0].
   */
  lemma ReplaceAllConcatAt(a: string, c: string, b: string, p: string, r: string)
    requires |p| > 0 && |p| <= |c| + 1 && p[0] !in c
    ensures ReplaceAll(a + c + b, p, r) == ReplaceAll(a + c, p, r) + ReplaceAll(b, p, r)
  {
    var ac := a + c;
    forall i | 0 <= i < |ac| && |ac| < i + |p| ensures ac[i] != p[0] {
      assert ac[i] == c[i - |a|];
    }
    ReplaceAllConcat(ac, b, p, r);
  }
}
