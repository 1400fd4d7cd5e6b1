/** The JavaScript string primitives the controllers rely on: case mapping, `includes`, `trim`,
    the character classes of the regular expressions, and decimal numbers. Strings are sequences
    of characters; case mapping is restricted to ASCII letters. */
module Strings {
  import opened Wrappers

  predicate IsUpper(c: char) { 'A' <= c <= 'Z' }

  predicate IsLower(c: char) { 'a' <= c <= 'z' }

  /** The regular-expression class `[a-zA-Z]`. */
  predicate IsLetter(c: char) { IsLower(c) || IsUpper(c) }

  /** The regular-expression class `\d` (ASCII digits, as in a JavaScript pattern without the `u` flag). */
  predicate IsDigit(c: char) { '0' <= c <= '9' }

  /** The regular-expression class `\w`, which decides where `\b` sits. */
  predicate IsWordChar(c: char) { IsLetter(c) || IsDigit(c) || c == '_' }

  /** The characters `String.prototype.trim` and `parseInt` skip: white space and line terminators. */
  predicate IsJsSpace(c: char)
  {
    c == '\t' || c == '\n' || c == '\U{000B}' || c == '\U{000C}' || c == '\r' || c == ' '
    || c == '\U{00A0}' || c == '\U{1680}' || ('\U{2000}' <= c <= '\U{200A}')
    || c == '\U{2028}' || c == '\U{2029}' || c == '\U{202F}' || c == '\U{205F}'
    || c == '\U{3000}' || c == '\U{FEFF}'
  }

  function LowerChar(c: char): (d: char)
    ensures !IsUpper(d)
    ensures IsLetter(d) <==> IsLetter(c)
    ensures !IsUpper(c) ==> d == c
  {
    if IsUpper(c) then (c as int + 32) as char else c
  }

  function UpperChar(c: char): (d: char)
    ensures !IsLower(d)
    ensures IsLetter(d) <==> IsLetter(c)
    ensures !IsLower(c) ==> d == c
  {
    if IsLower(c) then (c as int - 32) as char else c
  }

  /** `toLowerCase`, on ASCII letters. */
  function Lower(s: string): (r: string)
    ensures |r| == |s|
    ensures forall i :: 0 <= i < |s| ==> r[i] == LowerChar(s[i])
  {
    seq(|s|, i requires 0 <= i < |s| => LowerChar(s[i]))
  }

  /** `toUpperCase`, on ASCII letters. */
  function Upper(s: string): (r: string)
    ensures |r| == |s|
    ensures forall i :: 0 <= i < |s| ==> r[i] == UpperChar(s[i])
  {
    seq(|s|, i requires 0 <= i < |s| => UpperChar(s[i]))
  }

  /** A lower-cased string holds no upper-case letter, and lower-casing it again changes nothing. */
  lemma LowerIsLower(s: string)
    ensures forall i :: 0 <= i < |s| ==> !IsUpper(Lower(s)[i])
    ensures Lower(Lower(s)) == Lower(s)
  {
  }

  function Min(a: int, b: int): int { if a <= b then a else b }

  predicate StartsWith(s: string, prefix: string)
  {
    |prefix| <= |s| && s[..|prefix|] == prefix
  }

  /** `pat` sits in `s` at position `i`. */
  predicate OccursAt(s: string, pat: string, i: int)
  {
    0 <= i && i + |pat| <= |s| && s[i..i + |pat|] == pat
  }

  /** `String.prototype.includes`, written as the scan it performs. */
  predicate Contains(s: string, pat: string)
    decreases |s|
  {
    StartsWith(s, pat) || (|s| > 0 && Contains(s[1..], pat))
  }

  /** The scan finds `pat` exactly when `pat` occurs somewhere in `s`. */
  lemma {:induction false} ContainsIff(s: string, pat: string)
    ensures Contains(s, pat) <==> exists i :: OccursAt(s, pat, i)
    decreases |s|
  {
    if StartsWith(s, pat) {
      assert OccursAt(s, pat, 0);
    } else if |s| == 0 {
      assert forall i :: !OccursAt(s, pat, i);
    } else {
      assert !OccursAt(s, pat, 0) by {
        assert |pat| <= |s| ==> s[0..|pat|] == s[..|pat|];
      }
      ContainsIff(s[1..], pat);
      forall i | OccursAt(s[1..], pat, i)
        ensures OccursAt(s, pat, i + 1)
      {
        assert s[1..][i..i + |pat|] == s[i + 1..i + 1 + |pat|];
      }
      forall i | OccursAt(s, pat, i)
        ensures OccursAt(s[1..], pat, i - 1)
      {
        assert s[1..][i - 1..i - 1 + |pat|] == s[i..i + |pat|];
      }
    }
  }

  /** A string starts with each of its prefixes. */
  lemma StartsWithConcat(a: string, b: string)
    ensures StartsWith(a + b, a)
  {
    assert (a + b)[..|a|] == a;
  }

  /** The middle part of a concatenation occurs in it right after the first part. */
  lemma OccursInMiddle(a: string, t: string, b: string)
    ensures OccursAt(a + t + b, t, |a|)
  {
    assert (a + t + b)[|a|..|a| + |t|] == t;
  }

  /** An occurrence inside an occurrence is an occurrence. */
  lemma OccursAtNested(s: string, e: string, off: int, t: string, k: int)
    requires OccursAt(s, e, off) && OccursAt(e, t, k)
    ensures OccursAt(s, t, off + k)
  {
    forall j | 0 <= j < |t|
      ensures s[off + k + j] == t[j]
    {
      assert s[off..off + |e|][k + j] == e[k + j];
      assert e[k..k + |t|][j] == t[j];
    }
    assert s[off + k..off + k + |t|] == t;
  }

  /** An occurrence inside `t` is an occurrence inside `a + t`, shifted by `|a|`. */
  lemma OccursAtShift(a: string, t: string, pat: string, k: int)
    requires OccursAt(t, pat, k)
    ensures OccursAt(a + t, pat, |a| + k)
  {
    assert (a + t)[|a| + k..|a| + k + |pat|] == t[k..k + |pat|];
  }

  /** The pieces written one after another. */
  function Concat(parts: seq<string>): string
  {
    if parts == [] then "" else parts[0] + Concat(parts[1..])
  }

  /** `Array.prototype.join(sep)` on a sequence of strings. */
  function Join(parts: seq<string>, sep: string): string
  {
    if |parts| == 0 then ""
    else if |parts| == 1 then parts[0]
    else parts[0] + sep + Join(parts[1..], sep)
  }

  /** Where `parts[i]` starts in `Join(parts, sep)`. */
  function JoinOffset(parts: seq<string>, sep: string, i: nat): nat
    requires i < |parts|
  {
    if i == 0 then 0 else |parts[0]| + |sep| + JoinOffset(parts[1..], sep, i - 1)
  }

  /** Each part appears in the joined string at its offset, and with a non-empty separator the
      parts follow one another in order without overlapping. */
  lemma {:induction false} JoinInOrder(parts: seq<string>, sep: string, i: nat)
    requires i < |parts|
    ensures OccursAt(Join(parts, sep), parts[i], JoinOffset(parts, sep, i))
    ensures i + 1 < |parts| ==> JoinOffset(parts, sep, i) + |parts[i]| + |sep| == JoinOffset(parts, sep, i + 1)
    decreases i
  {
    var p0 := parts[0];
    if i == 0 {
      if |parts| == 1 {
        assert p0[0..|p0|] == p0;
      } else {
        assert Join(parts, sep) == p0 + (sep + Join(parts[1..], sep));
        StartsWithConcat(p0, sep + Join(parts[1..], sep));
      }
    } else {
      var tail := parts[1..];
      assert tail[i - 1] == parts[i];
      JoinInOrder(tail, sep, i - 1);
      OccursAtShift(p0 + sep, Join(tail, sep), parts[i], JoinOffset(tail, sep, i - 1));
      if i + 1 < |parts| {
        assert tail[i] == parts[i + 1];
      }
    }
  }

  /** The length of the longest run of characters satisfying `P` that starts at `i`: what a greedy
      `[...]+` or `\d{m,}` consumes. */
  function Span(s: string, i: nat, P: char -> bool): (n: nat)
    requires i <= |s|
    decreases |s| - i
    ensures i + n <= |s|
    ensures forall k :: i <= k < i + n ==> P(s[k])
    ensures i + n == |s| || !P(s[i + n])
  {
    if i == |s| || !P(s[i]) then 0 else 1 + Span(s, i + 1, P)
  }

  /** The number of `IsJsSpace` characters at the end of `s`. */
  function TrailingSpaces(s: string): (n: nat)
    decreases |s|
    ensures n <= |s|
    ensures forall k :: |s| - n <= k < |s| ==> IsJsSpace(s[k])
    ensures n == |s| || !IsJsSpace(s[|s| - n - 1])
  {
    if |s| == 0 || !IsJsSpace(s[|s| - 1]) then 0 else 1 + TrailingSpaces(s[..|s| - 1])
  }

  /** `r` is the slice of `s` starting at `i`, and everything around it is white space. */
  predicate TrimmedAt(s: string, r: string, i: int)
  {
    0 <= i <= |s| - |r| && r == s[i..i + |r|]
    && (forall k :: 0 <= k < i ==> IsJsSpace(s[k]))
    && (forall k :: i + |r| <= k < |s| ==> IsJsSpace(s[k]))
  }

  /** `String.prototype.trim`: the slice of `s` left once white space is removed from both ends. */
  function Trim(s: string): (r: string)
    ensures exists i :: TrimmedAt(s, r, i)
    ensures r == [] || (!IsJsSpace(r[0]) && !IsJsSpace(r[|r| - 1]))
  {
    var a := Span(s, 0, IsJsSpace);
    var t := s[a..];
    var r := t[..|t| - TrailingSpaces(t)];
    assert TrimmedAt(s, r, a);
    r
  }

  function DigitValue(c: char): nat
    requires IsDigit(c)
  {
    c as int - '0' as int
  }

  function DigitChar(d: nat): (c: char)
    requires d < 10
    ensures IsDigit(c) && DigitValue(c) == d
  {
    ('0' as int + d) as char
  }

  predicate AllDigits(s: string)
  {
    forall i :: 0 <= i < |s| ==> IsDigit(s[i])
  }

  /** The value of a string of decimal digits, most significant first. */
  function DecimalValue(ds: string): nat
    requires AllDigits(ds)
  {
    if ds == [] then 0 else 10 * DecimalValue(ds[..|ds| - 1]) + DigitValue(ds[|ds| - 1])
  }

  function Pow10(n: nat): (r: nat)
    ensures r >= 1
  {
    if n == 0 then 1 else 10 * Pow10(n - 1)
  }

  /** A string of `k` digits denotes a number below `10^k`. */
  lemma {:induction false} DecimalValueBound(ds: string)
    requires AllDigits(ds)
    ensures DecimalValue(ds) < Pow10(|ds|)
    decreases |ds|
  {
    if ds != [] {
      DecimalValueBound(ds[..|ds| - 1]);
    }
  }

  /** Decimal rendering of a natural number, as JavaScript's `String(n)` writes it. */
  function NatToString(n: nat): (r: string)
    ensures |r| >= 1 && AllDigits(r)
    ensures DecimalValue(r) == n
    ensures r[0] == '0' ==> n == 0
  {
    if n < 10 then [DigitChar(n)]
    else
      var r := NatToString(n / 10) + [DigitChar(n % 10)];
      assert r[..|r| - 1] == NatToString(n / 10);
      r
  }

  /** Decimal rendering of an integer, with a leading minus sign when it is negative. */
  function IntToString(i: int): (r: string)
    ensures |r| >= 1
    ensures i < 0 <==> r[0] == '-'
  {
    if i < 0 then "-" + NatToString(-i) else NatToString(i)
  }

  /** `parseInt(s)` with radix 10 (and `parseFloat(s)` on strings without a fraction or exponent):
      skip leading white space, read an optional sign and then the longest run of digits;
      `None` stands for `NaN`, returned when there is no digit. */
  function ParseInteger(s: string): Option<int>
  {
    var a := Span(s, 0, IsJsSpace);
    var signed := a < |s| && (s[a] == '-' || s[a] == '+');
    var b := if signed then a + 1 else a;
    var n := Span(s, b, IsDigit);
    var v: int := if n == 0 then 0 else DecimalValue(s[b..b + n]);
    if n == 0 then None
    else if signed && s[a] == '-' then Some(-v)
    else Some(v)
  }

  /** Parsing a rendered integer gives that integer back. */
  lemma ParseIntToString(i: int)
    ensures ParseInteger(IntToString(i)) == Some(i)
  {
    var s := IntToString(i);
    var b := if i < 0 then 1 else 0;
    var d := if i < 0 then NatToString(-i) else NatToString(i);
    assert s[b..] == d;
    assert Span(s, 0, IsJsSpace) == 0 by {
      assert IsDigit(s[b]);
    }
    DigitsToEnd(s, b);
    assert s[b..b + |d|] == d;
  }

  /** A digit run that reaches the end of `s` spans all of it. */
  lemma DigitsToEnd(s: string, b: nat)
    requires b <= |s| && AllDigits(s[b..])
    ensures Span(s, b, IsDigit) == |s| - b
  {
    var n := Span(s, b, IsDigit);
    if b + n < |s| {
      assert s[b + n] == s[b..][n];
    }
  }
}
