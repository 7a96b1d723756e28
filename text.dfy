/**
 * The handful of JavaScript string operations the calibration page relies on,
 * over Dafny strings: `includes`, `replace` with a string pattern (first match
 * only), `toLowerCase` and `trim` (both restricted to ASCII), the removal of
 * carriage returns (`replace(/\r/g, '')`) and the decimal rendering of a
 * number inside a template literal.
 */
module JsText {

  datatype Option<+T> = None | Some(value: T)

  /** `pat` occurs in `s` starting at index `j`. */
  predicate OccursAt(s: string, pat: string, j: nat) {
    j + |pat| <= |s| && s[j..j + |pat|] == pat
  }

  /** The index of the first occurrence of `pat` in `s` (JavaScript `indexOf`). */
  function IndexOf(s: string, pat: string): (r: Option<nat>)
    ensures r.Some? ==> OccursAt(s, pat, r.value)
    ensures r.Some? ==> forall j: nat :: j < r.value ==> !OccursAt(s, pat, j)
    ensures r.None? ==> forall j: nat :: !OccursAt(s, pat, j)
    decreases |s|
  {
    if |s| < |pat| then None
    else if s[..|pat|] == pat then Some(0)
    else
      match IndexOf(s[1..], pat)
      case None =>
        assert forall j: nat :: !OccursAt(s, pat, j) by {
          forall j: nat ensures !OccursAt(s, pat, j) {
            if j > 0 { OccursShift(s, pat, j - 1); }
          }
        }
        None
      case Some(k) =>
        OccursShift(s, pat, k);
        assert forall j: nat :: j < k + 1 ==> !OccursAt(s, pat, j) by {
          forall j: nat | j < k + 1 ensures !OccursAt(s, pat, j) {
            if j > 0 { OccursShift(s, pat, j - 1); }
          }
        }
        Some(k + 1)
  }

  /** An occurrence one place further on in `s` is an occurrence in `s` without its first character. */
  lemma OccursShift(s: string, pat: string, j: nat)
    requires |s| > 0
    ensures OccursAt(s, pat, j + 1) <==> OccursAt(s[1..], pat, j)
  {
    if j + 1 + |pat| <= |s| {
      assert s[1..][j..j + |pat|] == s[j + 1..j + 1 + |pat|];
    }
  }

  /** JavaScript `s.includes(pat)`: `pat` starts here or somewhere further on. */
  predicate Includes(s: string, pat: string)
    decreases |s|
  {
    |pat| <= |s| && (s[..|pat|] == pat || Includes(s[1..], pat))
  }

  /** `includes` and `indexOf` agree: a text includes a phrase exactly when `indexOf` finds it. */
  lemma {:induction false} IncludesIndexOf(s: string, pat: string)
    ensures Includes(s, pat) <==> IndexOf(s, pat).Some?
    decreases |s|
  {
    if |pat| <= |s| && s[..|pat|] != pat {
      IncludesIndexOf(s[1..], pat);
    }
  }

  /** An occurrence anywhere makes `includes` hold. */
  lemma OccurrenceIncludes(s: string, pat: string, j: nat)
    requires OccursAt(s, pat, j)
    ensures Includes(s, pat)
  {
    IncludesIndexOf(s, pat);
  }

  /** Text appended on the right keeps every phrase a string includes. */
  lemma {:induction false} IncludesExtend(p: string, q: string, rest: string)
    requires Includes(p, q)
    ensures Includes(p + rest, q)
    decreases |p|
  {
    if p[..|q|] == q {
      assert (p + rest)[..|q|] == q;
    } else {
      IncludesExtend(p[1..], q, rest);
      assert (p + rest)[1..] == p[1..] + rest;
    }
  }

  /** An occurrence of an occurrence is an occurrence. */
  lemma {:induction false} IncludesTransitive(s: string, p: string, q: string)
    requires Includes(s, p) && Includes(p, q)
    ensures Includes(s, q)
    decreases |s|
  {
    if s[..|p|] == p {
      IncludesExtend(p, q, s[|p|..]);
      assert p + s[|p|..] == s;
    } else {
      IncludesTransitive(s[1..], p, q);
    }
  }

  /**
   * JavaScript `s.replace(pat, rep)` with a string pattern: only the FIRST
   * occurrence of `pat` is replaced; without one, `s` is returned as it is.
   */
  function ReplaceFirst(s: string, pat: string, rep: string): (r: string)
    ensures !Includes(s, pat) ==> r == s
    ensures Includes(s, pat) ==>
              IndexOf(s, pat).Some? &&
              var i := IndexOf(s, pat).value;
              r == s[..i] + rep + s[i + |pat|..]
  {
    IncludesIndexOf(s, pat);
    match IndexOf(s, pat)
    case None => s
    case Some(i) => s[..i] + rep + s[i + |pat|..]
  }

  /**
   * If `p` starts with a character that it does not repeat, then in `b + p + rest`
   * the first occurrence of `p` is the one right after `b`, provided `b` holds none.
   */
  lemma FirstOccurrenceAfter(b: string, p: string, rest: string)
    requires |p| > 0 && p[0] !in p[1..]
    requires !Includes(b, p)
    ensures IndexOf(b + p + rest, p) == Some(|b|)
  {
    IncludesIndexOf(b, p);
    var s := b + p + rest;
    assert s[|b|..|b| + |p|] == p;
    forall j: nat | j < |b| ensures !OccursAt(s, p, j) {
      if j + |p| <= |b| {
        assert s[j..j + |p|] == b[j..j + |p|];
        assert !OccursAt(b, p, j);
      } else if j + |p| <= |s| {
        var d := |b| - j;
        assert s[j..j + |p|][d] == p[0];
        assert p[d] == p[1..][d - 1] != p[0];
      }
    }
    OccurrenceIncludes(s, p, |b|);
  }

  /** A text lacking one of a phrase's characters does not include the phrase. */
  lemma {:induction false} MissingCharExcludes(s: string, pat: string, c: char)
    requires c in pat && c !in s
    ensures !Includes(s, pat)
    decreases |s|
  {
    if |pat| <= |s| {
      assert c !in s[..|pat|];
      MissingCharExcludes(s[1..], pat, c);
    }
  }

  /** An occurrence inside the left part of `b + q` is one in `b`. */
  lemma OccursAtLeft(b: string, q: string, p: string, j: nat)
    requires j + |p| <= |b|
    ensures OccursAt(b + q, p, j) == OccursAt(b, p, j)
  {
    assert (b + q)[j..j + |p|] == b[j..j + |p|];
  }

  /** An occurrence inside the right part of `b + q` is one in `q`. */
  lemma OccursAtRight(b: string, q: string, p: string, j: nat)
    requires j >= |b|
    ensures OccursAt(b + q, p, j) == OccursAt(q, p, j - |b|)
  {
    if j + |p| <= |b| + |q| {
      assert (b + q)[j..j + |p|] == q[j - |b|..j - |b| + |p|];
    }
  }

  /** No occurrence of `p` starts inside `b` and ends inside `q` when `q` starts with `p[0]`, which `p` does not repeat. */
  lemma NoStraddle(b: string, q: string, p: string, j: nat)
    requires |p| > 0 && p[0] !in p[1..]
    requires |q| > 0 && q[0] == p[0]
    requires j < |b| < j + |p|
    ensures !OccursAt(b + q, p, j)
  {
    var s := b + q;
    if j + |p| <= |s| {
      var d := |b| - j;
      assert s[j..j + |p|][d] == s[|b|] == p[0];
      assert p[d] == p[1..][d - 1];
    }
  }

  /**
   * Appending `q`, which starts with `p[0]`, to a string without `p` adds no
   * occurrence of `p` that straddles the seam, when `p[0]` is not repeated in `p`.
   */
  lemma NoOccurrenceAcrossSeam(b: string, q: string, p: string)
    requires |p| > 0 && p[0] !in p[1..]
    requires |q| > 0 && q[0] == p[0]
    requires !Includes(b, p) && !Includes(q, p)
    ensures !Includes(b + q, p)
  {
    IncludesIndexOf(b, p);
    IncludesIndexOf(q, p);
    var s := b + q;
    forall j: nat ensures !OccursAt(s, p, j) {
      if j + |p| <= |b| {
        OccursAtLeft(b, q, p, j);
      } else if j >= |b| {
        OccursAtRight(b, q, p, j);
      } else {
        NoStraddle(b, q, p, j);
      }
    }
    IncludesIndexOf(s, p);
  }

  /** ASCII `toLowerCase` of one character. */
  function LowerChar(c: char): char {
    if 'A' <= c <= 'Z' then (c as int + 32) as char else c
  }

  /** `toLowerCase`, restricted to the ASCII letters. */
  function Lower(s: string): (r: string) {
    seq(|s|, i requires 0 <= i < |s| => LowerChar(s[i]))
  }

  /** Lower-casing leaves no upper-case ASCII letter and keeps every other character. */
  lemma LowerMeaning(s: string)
    ensures |Lower(s)| == |s|
    ensures forall i :: 0 <= i < |s| ==> !('A' <= Lower(s)[i] <= 'Z')
    ensures forall i :: 0 <= i < |s| && !('A' <= s[i] <= 'Z') ==> Lower(s)[i] == s[i]
    ensures forall i :: 0 <= i < |s| && 'A' <= s[i] <= 'Z' ==> Lower(s)[i] as int == s[i] as int + 32
  {
  }

  lemma LowerIdempotent(s: string)
    ensures Lower(Lower(s)) == Lower(s)
  {
  }

  /** Lower-casing a text keeps every (lower-cased) phrase it contains. */
  lemma LowerKeepsIncludes(s: string, p: string)
    requires Includes(s, p)
    ensures Includes(Lower(s), Lower(p))
  {
    IncludesIndexOf(s, p);
    var i := IndexOf(s, p).value;
    assert Lower(s)[i..i + |p|] == Lower(s[i..i + |p|]);
    OccurrenceIncludes(Lower(s), Lower(p), i);
  }

  /** The characters JavaScript `trim` removes, restricted to ASCII. */
  predicate IsSpace(c: char) {
    c == ' ' || c == '\t' || c == '\n' || c == '\r' || c as int == 11 || c as int == 12
  }

  function TrimStart(s: string): (r: string)
    ensures |r| <= |s| && r == s[|s| - |r|..]
    ensures forall k :: 0 <= k < |s| - |r| ==> IsSpace(s[k])
    ensures r == [] || !IsSpace(r[0])
  {
    if |s| > 0 && IsSpace(s[0]) then TrimStart(s[1..]) else s
  }

  function TrimEnd(s: string): (r: string)
    ensures |r| <= |s| && r == s[..|r|]
    ensures forall k :: |r| <= k < |s| ==> IsSpace(s[k])
    ensures r == [] || !IsSpace(r[|r| - 1])
  {
    if |s| > 0 && IsSpace(s[|s| - 1]) then TrimEnd(s[..|s| - 1]) else s
  }

  /**
   * JavaScript `trim`: the longest middle part of `s` that neither starts nor
   * ends with white space; everything cut off on either side is white space.
   */
  /**
   * `r` is `s` with a white-space margin cut off at each end: a slice of `s`
   * starting where `TrimStart` starts, with only white space around it.
   */
  predicate TrimmedFrom(s: string, r: string) {
    TrimmedAt(s, |s| - |TrimStart(s)|, r)
  }

  /** `r` is the slice of `s` at `a`, with only white space before and after it. */
  predicate TrimmedAt(s: string, a: int, r: string) {
    && 0 <= a && a + |r| <= |s| && r == s[a..a + |r|]
    && (forall k :: 0 <= k < a ==> IsSpace(s[k]))
    && (forall k :: a + |r| <= k < |s| ==> IsSpace(s[k]))
  }

  function Trim(s: string): (r: string)
    ensures TrimmedFrom(s, r)
    ensures r == [] || (!IsSpace(r[0]) && !IsSpace(r[|r| - 1]))
  {
    var t := TrimStart(s);
    var r := TrimEnd(t);
    TrimSlice(s, t, r, |s| - |t|);
    r
  }

  /** A prefix `r` of the suffix `t == s[a..]`, with only white space before `a` in `s` and after `r` in `t`, is `s` trimmed at `a`. */
  lemma TrimSlice(s: string, t: string, r: string, a: nat)
    requires a + |t| == |s| && t == s[a..]
    requires forall k :: 0 <= k < a ==> IsSpace(s[k])
    requires |r| <= |t| && r == t[..|r|]
    requires forall k :: |r| <= k < |t| ==> IsSpace(t[k])
    ensures TrimmedAt(s, a, r)
  {
    forall k | a + |r| <= k < |s| ensures IsSpace(s[k]) {
      assert s[k] == t[k - a];
    }
  }

  lemma TrimIdempotent(s: string)
    ensures Trim(Trim(s)) == Trim(s)
  {
    var r := Trim(s);
    assert TrimStart(r) == r;
    assert TrimEnd(r) == r;
  }

  /** A character missing from a string is missing from each of its slices. */
  lemma SliceExcludes(s: string, i: int, j: int, c: char)
    requires 0 <= i <= j <= |s| && c !in s
    ensures c !in s[i..j]
  {
    assert forall k :: 0 <= k < j - i ==> s[i..j][k] == s[i + k];
  }

  /** `s.replace(/\r/g, '')`: drop every carriage return. */
  function StripCR(s: string): (r: string)
    ensures '\r' !in r
    ensures multiset(r) == multiset(s)['\r' := 0]
    ensures '\r' !in s ==> r == s
  {
    if s == [] then []
    else
      var rest := StripCR(s[1..]);
      assert s == [s[0]] + s[1..];
      assert multiset(s) == multiset([s[0]]) + multiset(s[1..]);
      if s[0] == '\r' then rest else [s[0]] + rest
  }

  /** Removing carriage returns works piece by piece, so the kept characters stay in order. */
  lemma {:induction false} StripCRAppend(a: string, b: string)
    ensures StripCR(a + b) == StripCR(a) + StripCR(b)
  {
    if a == [] {
      assert a + b == b;
    } else {
      assert (a + b)[1..] == a[1..] + b;
      StripCRAppend(a[1..], b);
    }
  }

  /** On one character: a carriage return goes, anything else stays. */
  lemma StripCRChar(c: char)
    ensures StripCR([c]) == if c == '\r' then [] else [c]
  {
    assert [c][1..] == [];
  }

  /** The parts of a template literal, joined in order. */
  function Concat(parts: seq<string>): string {
    if parts == [] then "" else parts[0] + Concat(parts[1..])
  }

  /** The decimal digit for `d`. */
  function Digit(d: nat): char
    requires d < 10
  {
    ('0' as int + d) as char
  }

  /** The decimal rendering of a number, as in `${n}`. */
  function Decimal(n: nat): (r: string)
    ensures |r| > 0
    ensures forall i :: 0 <= i < |r| ==> '0' <= r[i] <= '9'
    ensures r[0] == '0' ==> n == 0
  {
    if n < 10 then [Digit(n)] else Decimal(n / 10) + [Digit(n % 10)]
  }

  /** The number a string of decimal digits denotes (JavaScript `parseInt` on digits). */
  function DecimalValue(r: string): nat
    requires forall i :: 0 <= i < |r| ==> '0' <= r[i] <= '9'
  {
    if r == [] then 0
    else DecimalValue(r[..|r| - 1]) * 10 + (r[|r| - 1] as int - '0' as int)
  }

  /** The rendering denotes the number rendered. */
  lemma {:induction false} DecimalRoundTrip(n: nat)
    ensures DecimalValue(Decimal(n)) == n
  {
    if n >= 10 {
      var r := Decimal(n);
      assert r[..|r| - 1] == Decimal(n / 10);
      DecimalRoundTrip(n / 10);
    }
  }
}
