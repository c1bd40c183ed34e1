/**
 * The parts of Python's `str` that the contract finder relies on: the `in`
 * operator (through `find`), `lower()`, `strip()`, the last piece of
 * `split(sep)`, the slice `s[:n]`, `sep.join(parts)` and `str(n)` for a
 * natural number.
 */
module PyStr {

  /** `c.isspace()`: the characters Python 3 counts as whitespace. */
  predicate IsSpace(c: char) {
    var n := c as int;
    (0x09 <= n <= 0x0D) || (0x1C <= n <= 0x20) || n == 0x85 || n == 0xA0 || n == 0x1680
    || (0x2000 <= n <= 0x200A) || n == 0x2028 || n == 0x2029 || n == 0x202F
    || n == 0x205F || n == 0x3000
  }

  predicate AllSpace(s: string) {
    forall k :: 0 <= k < |s| ==> IsSpace(s[k])
  }

  /** Lower-casing of one character. Only the ASCII capitals are mapped. */
  function LowerChar(c: char): (r: char)
    ensures !('A' <= r <= 'Z')
    ensures r == c <==> !('A' <= c <= 'Z')
  {
    if 'A' <= c <= 'Z' then (c as int + 32) as char else c
  }

  /** `s.lower()`. */
  function Lower(s: string): (r: string)
    ensures |r| == |s|
    decreases |s|
  {
    if |s| == 0 then [] else [LowerChar(s[0])] + Lower(s[1..])
  }

  /** Each character of `s.lower()` is the lower-case form of the character in the same place. */
  lemma {:induction false} LowerAt(s: string, k: nat)
    requires k < |s|
    ensures Lower(s)[k] == LowerChar(s[k])
    decreases |s|
  {
    if k > 0 {
      LowerAt(s[1..], k - 1);
    }
  }

  /** `t` occurs in `s` starting at index `i`. */
  predicate OccursAt(s: string, t: string, i: int) {
    0 <= i && i + |t| <= |s| && s[i..i + |t|] == t
  }

  /** `s.find(t, from)`: the first index at or after `from` where `t` occurs in `s`, or -1. */
  function FindFrom(s: string, t: string, from: nat): (r: int)
    ensures r == -1 || (from <= r && r + |t| <= |s|)
    decreases |s| - from
  {
    if |s| < from + |t| then -1
    else if s[from..from + |t|] == t then from
    else FindFrom(s, t, from + 1)
  }

  /** `find` gives the first occurrence at or after `from`, and -1 exactly when there is none. */
  lemma {:induction false} FindFromSpec(s: string, t: string, from: nat)
    ensures var r := FindFrom(s, t, from);
            && (r < 0 ==> forall i :: from <= i ==> !OccursAt(s, t, i))
            && (r >= 0 ==> OccursAt(s, t, r) && forall i :: from <= i < r ==> !OccursAt(s, t, i))
    decreases |s| - from
  {
    if |s| >= from + |t| && s[from..from + |t|] != t {
      FindFromSpec(s, t, from + 1);
    }
  }

  /** `s.find(t)`. */
  function Find(s: string, t: string): int {
    FindFrom(s, t, 0)
  }

  /** `t in s`. */
  predicate Contains(s: string, t: string) {
    Find(s, t) >= 0
  }

  lemma ContainsIff(s: string, t: string)
    ensures Contains(s, t) <==> exists i :: OccursAt(s, t, i)
  {
    FindFromSpec(s, t, 0);
  }

  /** A piece placed between two others is found in the concatenation. */
  lemma ContainsInfix(a: string, b: string, c: string)
    ensures Contains(a + b + c, b)
  {
    assert (a + b + c)[|a|..|a| + |b|] == b;
    assert OccursAt(a + b + c, b, |a|);
    ContainsIff(a + b + c, b);
  }

  /** The index of the first non-whitespace character of `s` at or after `i`, or `|s|`. */
  function SkipSpaces(s: string, i: nat): (j: nat)
    requires i <= |s|
    ensures i <= j <= |s|
    decreases |s| - i
  {
    if i < |s| && IsSpace(s[i]) then SkipSpaces(s, i + 1) else i
  }

  lemma {:induction false} SkipSpacesSpec(s: string, i: nat)
    requires i <= |s|
    ensures var j := SkipSpaces(s, i);
            (forall k :: i <= k < j ==> IsSpace(s[k])) && (j < |s| ==> !IsSpace(s[j]))
    decreases |s| - i
  {
    if i < |s| && IsSpace(s[i]) {
      SkipSpacesSpec(s, i + 1);
    }
  }

  /** The index just past the last non-whitespace character of `s[lo..j]`, or `lo`. */
  function SkipSpacesBack(s: string, lo: nat, j: nat): (e: nat)
    requires lo <= j <= |s|
    ensures lo <= e <= j
    decreases j
  {
    if j > lo && IsSpace(s[j - 1]) then SkipSpacesBack(s, lo, j - 1) else j
  }

  lemma {:induction false} SkipSpacesBackSpec(s: string, lo: nat, j: nat)
    requires lo <= j <= |s|
    ensures var e := SkipSpacesBack(s, lo, j);
            (forall k :: e <= k < j ==> IsSpace(s[k])) && (e > lo ==> !IsSpace(s[e - 1]))
    decreases j
  {
    if j > lo && IsSpace(s[j - 1]) {
      SkipSpacesBackSpec(s, lo, j - 1);
    }
  }

  /**
   * `r` is what is left of `s` once a run of whitespace is cut from each end,
   * `r` starting at index `i` of `s`, and `r` itself neither starts nor ends
   * with whitespace.
   */
  predicate IsStripped(s: string, r: string, i: int) {
    && 0 <= i && i + |r| <= |s| && s[i..i + |r|] == r
    && AllSpace(s[..i]) && AllSpace(s[i + |r|..])
    && (r == [] || (!IsSpace(r[0]) && !IsSpace(r[|r| - 1])))
  }

  /** `s[lo:].strip()`, computed on the indices of `s`. */
  function StripFrom(s: string, lo: nat): string
    requires lo <= |s|
  {
    var b := SkipSpaces(s, lo);
    s[b..SkipSpacesBack(s, b, |s|)]
  }

  /**
   * Cutting `s[lo..]` at `b` and `e`, where only whitespace lies outside
   * `[b, e)` and the characters at both ends inside are not whitespace,
   * strips it.
   */
  lemma {:induction false} StrippedSlice(s: string, lo: nat, b: nat, e: nat)
    requires lo <= b <= e <= |s|
    requires forall k :: lo <= k < b ==> IsSpace(s[k])
    requires forall k :: e <= k < |s| ==> IsSpace(s[k])
    requires b < e ==> !IsSpace(s[b]) && !IsSpace(s[e - 1])
    ensures IsStripped(s[lo..], s[b..e], b - lo)
  {
    var t := s[lo..];
    assert t[b - lo..e - lo] == s[b..e];
    var head, tail := t[..b - lo], t[e - lo..];
    forall k | 0 <= k < |head| ensures IsSpace(head[k]) {
      assert head[k] == s[lo + k];
    }
    forall k | 0 <= k < |tail| ensures IsSpace(tail[k]) {
      assert tail[k] == s[e + k];
    }
  }

  /** `StripFrom` leaves `s[lo..]` with its whitespace runs cut off. */
  lemma {:induction false} StripFromStripped(s: string, lo: nat)
    requires lo <= |s|
    ensures IsStripped(s[lo..], StripFrom(s, lo), SkipSpaces(s, lo) - lo)
  {
    var b := SkipSpaces(s, lo);
    var e := SkipSpacesBack(s, b, |s|);
    SkipSpacesSpec(s, lo);
    SkipSpacesBackSpec(s, b, |s|);
    StrippedSlice(s, lo, b, e);
  }

  /** `s.strip()`. */
  function Strip(s: string): (r: string)
    ensures exists i :: IsStripped(s, r, i)
  {
    StripFromStripped(s, 0);
    assert s[0..] == s;
    StripFrom(s, 0)
  }

  /** `IsStripped` pins the result down: there is only one way to strip a string. */
  lemma StrippedUnique(s: string, r1: string, i1: int, r2: string, i2: int)
    requires IsStripped(s, r1, i1) && IsStripped(s, r2, i2)
    ensures r1 == r2
  {
    // Restate the whitespace runs index by index in s.
    assert forall k :: 0 <= k < i1 ==> s[..i1][k] == s[k];
    assert forall k :: 0 <= k < i2 ==> s[..i2][k] == s[k];
    assert forall k :: i1 + |r1| <= k < |s| ==> s[i1 + |r1|..][k - i1 - |r1|] == s[k];
    assert forall k :: i2 + |r2| <= k < |s| ==> s[i2 + |r2|..][k - i2 - |r2|] == s[k];
    // The ends of a non-empty result are characters of s that are not whitespace.
    assert r1 != [] ==> s[i1] == r1[0] && s[i1 + |r1| - 1] == r1[|r1| - 1];
    assert r2 != [] ==> s[i2] == r2[0] && s[i2 + |r2| - 1] == r2[|r2| - 1];
  }

  /** Stripping from index `lo` is stripping the suffix that starts there. */
  lemma StripFromIsStrip(s: string, lo: nat)
    requires lo <= |s|
    ensures StripFrom(s, lo) == Strip(s[lo..])
  {
    StripFromStripped(s, lo);
    var i :| IsStripped(s[lo..], Strip(s[lo..]), i);
    StrippedUnique(s[lo..], StripFrom(s, lo), SkipSpaces(s, lo) - lo, Strip(s[lo..]), i);
  }

  /**
   * The start of the last piece of `s.split(sep)`, scanning from `from`:
   * Python splits at non-overlapping occurrences found left to right.
   */
  function LastPieceStart(s: string, sep: string, from: nat): (p: nat)
    requires |sep| > 0 && from <= |s|
    ensures from <= p <= |s|
    decreases |s| - from
  {
    var i := FindFrom(s, sep, from);
    if i < 0 then from else LastPieceStart(s, sep, i + |sep|)
  }

  /**
   * No occurrence starts at or after the last piece; the piece begins either
   * where the scan began, when nothing was found there, or right after an
   * occurrence.
   */
  lemma {:induction false} LastPieceStartSpec(s: string, sep: string, from: nat)
    requires |sep| > 0 && from <= |s|
    ensures var p := LastPieceStart(s, sep, from);
            && (forall i :: p <= i ==> !OccursAt(s, sep, i))
            && (p == from || (from + |sep| <= p && OccursAt(s, sep, p - |sep|)))
            && (p == from ==> forall i :: from <= i ==> !OccursAt(s, sep, i))
    decreases |s| - from
  {
    FindFromSpec(s, sep, from);
    var i := FindFrom(s, sep, from);
    if i >= 0 {
      LastPieceStartSpec(s, sep, i + |sep|);
    }
  }

  /** `s.split(sep)[-1]`. */
  function SplitLast(s: string, sep: string): (r: string)
    requires |sep| > 0
    ensures |r| <= |s| && r == s[|s| - |r|..]
    ensures forall i :: |s| - |r| <= i ==> !OccursAt(s, sep, i)
    ensures Contains(s, sep) ==> |r| + |sep| <= |s| && OccursAt(s, sep, |s| - |r| - |sep|)
    ensures !Contains(s, sep) ==> r == s
  {
    LastPieceStartSpec(s, sep, 0);
    ContainsIff(s, sep);
    assert s[0..] == s;
    s[LastPieceStart(s, sep, 0)..]
  }

  /** No proper prefix of `t` is also a suffix of `t`, so two occurrences of `t` never overlap. */
  predicate Borderless(t: string) {
    forall k :: 0 < k < |t| ==> t[k..] != t[..|t| - k]
  }

  /**
   * For a separator whose occurrences cannot overlap, the last piece of
   * `split` is exactly the text after the LAST occurrence of the separator.
   */
  lemma {:induction false} SplitLastFollowsLastOccurrence(s: string, sep: string)
    requires |sep| > 0 && Borderless(sep) && Contains(s, sep)
    ensures var p := |s| - |SplitLast(s, sep)| - |sep|;
            OccursAt(s, sep, p) && forall i :: OccursAt(s, sep, i) ==> i <= p
  {
    var r := SplitLast(s, sep);
    var p := |s| - |r| - |sep|;
    forall i | OccursAt(s, sep, i) ensures i <= p {
      if p < i < p + |sep| {
        OverlapIsBorder(s, sep, p, i);
        assert false;
      }
    }
  }

  /** Two occurrences of `t` that overlap make the overlap a border of `t`. */
  lemma OverlapIsBorder(s: string, t: string, p: int, i: int)
    requires OccursAt(s, t, p) && OccursAt(s, t, i) && p < i < p + |t|
    ensures t[i - p..] == t[..|t| - (i - p)]
  {
    assert t[i - p..] == s[i..p + |t|] by {
      assert s[p..p + |t|] == t;
    }
    assert t[..|t| - (i - p)] == s[i..p + |t|] by {
      assert s[i..i + |t|] == t;
    }
  }

  /** Every character of `t` after the first differs from the first: an easy way to be borderless. */
  lemma BorderlessByFirstChar(t: string)
    requires |t| > 0 && forall k :: 0 < k < |t| ==> t[k] != t[0]
    ensures Borderless(t)
  {
    forall k | 0 < k < |t| ensures t[k..] != t[..|t| - k] {
      assert t[k..][0] == t[k];
      assert t[..|t| - k][0] == t[0];
    }
  }

  /** `s[:n]`. */
  function Take(s: string, n: nat): (r: string)
    ensures |r| == if |s| < n then |s| else n
    ensures r <= s
  {
    if |s| <= n then s else s[..n]
  }

  /** `sep.join(parts)`. */
  function Join(sep: string, parts: seq<string>): string
    decreases |parts|
  {
    if |parts| == 0 then ""
    else if |parts| == 1 then parts[0]
    else parts[0] + sep + Join(sep, parts[1..])
  }

  /** Joining one more part adds the separator and that part at the end. */
  lemma {:induction false} JoinAppend(sep: string, parts: seq<string>, p: string)
    requires |parts| > 0
    ensures Join(sep, parts + [p]) == Join(sep, parts) + sep + p
    decreases |parts|
  {
    if |parts| == 1 {
      assert (parts + [p])[1..] == [p];
    } else {
      assert (parts + [p])[1..] == parts[1..] + [p];
      JoinAppend(sep, parts[1..], p);
    }
  }

  predicate IsDigit(c: char) {
    '0' <= c <= '9'
  }

  function DigitChar(d: nat): (c: char)
    requires d < 10
    ensures IsDigit(c)
  {
    ('0' as int + d) as char
  }

  /** `str(n)`: decimal digits, no leading zero. */
  function NatToString(n: nat): (r: string)
    ensures |r| > 0 && forall k :: 0 <= k < |r| ==> IsDigit(r[k])
    ensures r[0] == '0' <==> n == 0
    decreases n
  {
    if n < 10 then [DigitChar(n)] else NatToString(n / 10) + [DigitChar(n % 10)]
  }

  /** `int(s)` for a string of decimal digits. */
  function DecimalValue(s: string): nat
    requires forall k :: 0 <= k < |s| ==> IsDigit(s[k])
    decreases |s|
  {
    if |s| == 0 then 0
    else
      assert IsDigit(s[|s| - 1]);
      DecimalValue(s[..|s| - 1]) * 10 + (s[|s| - 1] as int - '0' as int)
  }

  /** Reading back the digits `str` writes gives the number again. */
  lemma {:induction false} DecimalRoundTrip(n: nat)
    ensures DecimalValue(NatToString(n)) == n
    decreases n
  {
    if n >= 10 {
      var s := NatToString(n);
      assert s[..|s| - 1] == NatToString(n / 10);
      DecimalRoundTrip(n / 10);
    }
  }
}
