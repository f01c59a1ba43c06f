/**
 * The string operations of JavaScript that the modelled code relies on:
 * decimal rendering of numbers, `parseInt`, `Number`, white space (`\s`, `trim`),
 * `toUpperCase` on ASCII letters, `includes`, `split` and `join`.
 */
module Text {
  import opened Wrappers

  predicate IsDigit(c: char) { '0' <= c <= '9' }

  predicate AllDigits(s: string) { forall i :: 0 <= i < |s| ==> IsDigit(s[i]) }

  function DigitChar(d: nat): (c: char)
    requires d < 10
    ensures IsDigit(c)
  {
    ('0' as int + d) as char
  }

  function DigitValue(c: char): (d: nat)
    requires IsDigit(c)
    ensures d < 10
  {
    (c as int - '0' as int) as nat
  }

  lemma DigitRoundTrip(d: nat)
    requires d < 10
    ensures DigitValue(DigitChar(d)) == d
  {
  }

  /** `String(n)` for a non-negative integer: decimal digits, no leading zeros. */
  function NatToString(n: nat): (s: string)
    ensures |s| > 0 && AllDigits(s)
    decreases n
  {
    if n < 10 then [DigitChar(n)] else NatToString(n / 10) + [DigitChar(n % 10)]
  }

  /** `String(i)` for any integer. */
  function IntToString(i: int): string {
    if i < 0 then "-" + NatToString(-i) else NatToString(i)
  }

  /** The value of a string of decimal digits (the empty string has value 0). */
  function DigitsValue(s: string): nat
    requires AllDigits(s)
  {
    if |s| == 0 then 0 else DigitsValue(s[..|s| - 1]) * 10 + DigitValue(s[|s| - 1])
  }

  lemma {:induction false} DigitsValueOfNatToString(n: nat)
    ensures DigitsValue(NatToString(n)) == n
    decreases n
  {
    var s := NatToString(n);
    if n < 10 {
      DigitRoundTrip(n);
    } else {
      DigitsValueOfNatToString(n / 10);
      DigitRoundTrip(n % 10);
      assert s[..|s| - 1] == NatToString(n / 10);
    }
  }

  /** Two-digit zero-padded rendering, as "mm" and "HH" format tokens produce. */
  function Pad2(n: nat): (s: string)
    requires n < 100
    ensures |s| == 2 && AllDigits(s)
  {
    [DigitChar(n / 10), DigitChar(n % 10)]
  }

  lemma Pad2Value(n: nat)
    requires n < 100
    ensures DigitsValue(Pad2(n)) == n
  {
    var s := Pad2(n);
    DigitRoundTrip(n / 10);
    DigitRoundTrip(n % 10);
    assert s[..1] == [DigitChar(n / 10)];
    assert DigitsValue(s[..1]) == n / 10 by {
      assert s[..1][..0] == [];
    }
  }

  /** JavaScript's white space and line terminators (the `\s` class, and what `trim` removes). */
  predicate IsSpace(c: char) {
    c == ' ' || c == '\t' || c == '\n' || c == '\U{000B}' || c == '\U{000C}' || c == '\r'
    || c == '\U{00A0}' || c == '\U{1680}' || ('\U{2000}' <= c <= '\U{200A}')
    || c == '\U{2028}' || c == '\U{2029}' || c == '\U{202F}' || c == '\U{205F}'
    || c == '\U{3000}' || c == '\U{FEFF}'
  }

  /** Number of white-space characters starting at index `i`. */
  function SpaceRun(s: string, i: nat): (n: nat)
    requires i <= |s|
    ensures i + n <= |s|
    ensures forall k :: i <= k < i + n ==> IsSpace(s[k])
    ensures i + n < |s| ==> !IsSpace(s[i + n])
    decreases |s| - i
  {
    if i < |s| && IsSpace(s[i]) then 1 + SpaceRun(s, i + 1) else 0
  }

  /** Length of the run of decimal digits starting at index `i`. */
  function DigitRun(s: string, i: nat): (n: nat)
    requires i <= |s|
    ensures i + n <= |s|
    ensures AllDigits(s[i..i + n])
    ensures i + n < |s| ==> !IsDigit(s[i + n])
    decreases |s| - i
  {
    if i < |s| && IsDigit(s[i]) then
      var r := DigitRun(s, i + 1);
      assert s[i..i + 1 + r] == [s[i]] + s[i + 1..i + 1 + r];
      1 + r
    else 0
  }

  lemma {:induction false} DigitRunOfDigits(s: string, rest: string)
    requires AllDigits(s)
    requires rest == [] || !IsDigit(rest[0])
    ensures DigitRun(s + rest, 0) == |s|
  {
    DigitRunFrom(s, rest, 0);
  }

  lemma {:induction false} DigitRunFrom(s: string, rest: string, i: nat)
    requires AllDigits(s) && i <= |s|
    requires rest == [] || !IsDigit(rest[0])
    ensures DigitRun(s + rest, i) == |s| - i
    decreases |s| - i
  {
    if i < |s| {
      DigitRunFrom(s, rest, i + 1);
    } else if rest != [] {
      assert (s + rest)[i] == rest[0];
    }
  }

  /**
   * `parseInt(s)` (radix 10): leading white space, an optional sign, then the longest
   * run of decimal digits; `None` stands for `NaN` (no digit there).
   */
  function ParseInt(s: string): Option<int> {
    var i := SpaceRun(s, 0);
    var neg := i < |s| && s[i] == '-';
    var j := if i < |s| && (s[i] == '-' || s[i] == '+') then i + 1 else i;
    var n := DigitRun(s, j);
    if n == 0 then None
    else
      var v: int := DigitsValue(s[j..j + n]);
      Some(if neg then -v else v)
  }

  /** `parseInt` reads a decimal numeral back, whatever non-digit follows it. */
  lemma ParseIntNumeral(digits: string, rest: string)
    requires |digits| > 0 && AllDigits(digits)
    requires rest == [] || !IsDigit(rest[0])
    ensures ParseInt(digits + rest) == Some(DigitsValue(digits))
  {
    var s := digits + rest;
    assert !IsSpace(s[0]) && s[0] != '-' && s[0] != '+' by {
      assert s[0] == digits[0];
    }
    assert SpaceRun(s, 0) == 0;
    DigitRunOfDigits(digits, rest);
    assert s[0..|digits|] == digits;
    assert ParseInt(s) == Some(DigitsValue(s[0..|digits|]));
  }

  lemma ParseIntNatToString(n: nat, rest: string)
    requires rest == [] || !IsDigit(rest[0])
    ensures ParseInt(NatToString(n) + rest) == Some(n)
  {
    ParseIntNumeral(NatToString(n), rest);
    DigitsValueOfNatToString(n);
  }

  /**
   * `Number(s)` for the fields of a date string, read on runs of decimal digits only: the
   * empty string is 0, a run of digits is its value; anything else is `None`, which stands
   * for `NaN` and also for the forms with white space, a sign or a fraction not read here.
   */
  function NumberOf(s: string): (r: Option<int>)
    ensures r.Some? <==> AllDigits(s)
  {
    if AllDigits(s) then Some(DigitsValue(s)) else None
  }

  /** `toUpperCase` restricted to ASCII letters. */
  function UpperChar(c: char): (u: char)
    ensures 'a' <= c <= 'z' ==> u as int == c as int - 32
    ensures !('a' <= c <= 'z') ==> u == c
  {
    if 'a' <= c <= 'z' then (c as int - 32) as char else c
  }

  function Upper(s: string): (u: string)
    ensures |u| == |s|
    ensures forall i :: 0 <= i < |s| ==> u[i] == UpperChar(s[i])
  {
    seq(|s|, i requires 0 <= i < |s| => UpperChar(s[i]))
  }

  /** `t` occurs in `s` at index `i`. */
  predicate MatchAt(s: string, t: string, i: nat) {
    i + |t| <= |s| && s[i..i + |t|] == t
  }

  /** `s.includes(t)`. */
  predicate Contains(s: string, t: string) {
    exists i: nat | i <= |s| :: MatchAt(s, t, i)
  }

  lemma NotContainsWithoutFirstChar(s: string, t: string)
    requires |t| > 0 && t[0] !in s
    ensures !Contains(s, t)
  {
    forall i: nat | i + |t| <= |s|
      ensures !MatchAt(s, t, i)
    {
      assert s[i..i + |t|][0] == s[i];
    }
  }

  lemma ContainsSuffix(s: string, t: string)
    ensures Contains(s + t, t)
  {
    var w := s + t;
    assert MatchAt(w, t, |s|);
  }

  /** `s.trim()`: drop leading and trailing white space. */
  function Trim(s: string): (r: string)
    ensures |r| <= |s|
    ensures |r| > 0 ==> !IsSpace(r[0]) && !IsSpace(r[|r| - 1])
    ensures Trimmed(s, r)
    decreases |s|
  {
    if |s| > 0 && IsSpace(s[0]) then
      var r := Trim(s[1..]);
      TrimmedFront(s, r);
      r
    else if |s| > 0 && IsSpace(s[|s| - 1]) then
      var r := Trim(s[..|s| - 1]);
      TrimmedBack(s, r);
      r
    else
      assert s == s[0..|s|];
      s
  }

  /** `r` is `s` with some white space taken off each end. */
  predicate Trimmed(s: string, r: string) {
    exists i, j :: 0 <= i <= j <= |s| && r == s[i..j]
      && (forall k :: 0 <= k < i ==> IsSpace(s[k])) && (forall k :: j <= k < |s| ==> IsSpace(s[k]))
  }

  lemma TrimmedFront(s: string, r: string)
    requires |s| > 0 && IsSpace(s[0]) && Trimmed(s[1..], r)
    ensures Trimmed(s, r)
  {
    var t := s[1..];
    var i, j :| 0 <= i <= j <= |t| && r == t[i..j]
      && (forall k :: 0 <= k < i ==> IsSpace(t[k])) && (forall k :: j <= k < |t| ==> IsSpace(t[k]));
    assert r == s[i + 1..j + 1];
    assert forall k :: 0 < k < i + 1 ==> s[k] == t[k - 1];
    assert forall k :: j + 1 <= k < |s| ==> s[k] == t[k - 1];
  }

  lemma TrimmedBack(s: string, r: string)
    requires |s| > 0 && IsSpace(s[|s| - 1]) && Trimmed(s[..|s| - 1], r)
    ensures Trimmed(s, r)
  {
    var t := s[..|s| - 1];
    var i, j :| 0 <= i <= j <= |t| && r == t[i..j]
      && (forall k :: 0 <= k < i ==> IsSpace(t[k])) && (forall k :: j <= k < |t| ==> IsSpace(t[k]));
    assert r == s[i..j];
    assert forall k :: 0 <= k < |t| ==> s[k] == t[k];
  }

  lemma TrimNoSpaceEnds(s: string)
    requires |s| > 0 ==> !IsSpace(s[0]) && !IsSpace(s[|s| - 1])
    ensures Trim(s) == s
  {
  }

  /** `s.split(sep)`: the pieces between separators, empty pieces included. */
  function Split(s: string, sep: char): (parts: seq<string>)
    ensures |parts| > 0
    ensures forall k :: 0 <= k < |parts| ==> sep !in parts[k]
    decreases |s|
  {
    if |s| == 0 then [""]
    else
      var tail := Split(s[1..], sep);
      if s[0] == sep then [""] + tail
      else [[s[0]] + tail[0]] + tail[1..]
  }

  /** `parts.join(sep)`. */
  function Join(parts: seq<string>, sep: string): string {
    if |parts| == 0 then ""
    else if |parts| == 1 then parts[0]
    else parts[0] + sep + Join(parts[1..], sep)
  }

  lemma {:induction false} SplitPrefix(w: string, sep: char, rest: string)
    requires sep !in w
    ensures Split(w + [sep] + rest, sep) == [w] + Split(rest, sep)
    decreases |w|
  {
    if |w| == 0 {
      assert w + [sep] + rest == [sep] + rest;
      assert ([sep] + rest)[1..] == rest;
    } else {
      var s := w + [sep] + rest;
      assert s[1..] == w[1..] + [sep] + rest;
      SplitPrefix(w[1..], sep, rest);
      assert [w[0]] + w[1..] == w;
    }
  }

  lemma {:induction false} SplitNoSep(w: string, sep: char)
    requires sep !in w
    ensures Split(w, sep) == [w]
    decreases |w|
  {
    if |w| > 0 {
      SplitNoSep(w[1..], sep);
      assert [w[0]] + w[1..] == w;
    }
  }

  /** Splitting undoes joining, when no piece holds the separator. */
  lemma {:induction false} SplitJoin(parts: seq<string>, sep: char)
    requires |parts| > 0
    requires forall k :: 0 <= k < |parts| ==> sep !in parts[k]
    ensures Split(Join(parts, [sep]), sep) == parts
    decreases |parts|
  {
    if |parts| == 1 {
      SplitNoSep(parts[0], sep);
    } else {
      SplitJoin(parts[1..], sep);
      SplitPrefix(parts[0], sep, Join(parts[1..], [sep]));
      assert [parts[0]] + parts[1..] == parts;
    }
  }

  /** `s.split(sep)[0]`: everything before the first separator. */
  function FirstField(s: string, sep: char): string {
    Split(s, sep)[0]
  }

  lemma FirstFieldOf(w: string, sep: char, rest: string)
    requires sep !in w
    ensures FirstField(w + [sep] + rest, sep) == w
  {
    SplitPrefix(w, sep, rest);
  }
}
