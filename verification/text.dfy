/**
  String helpers the harness relies on: `Option`, substring search as done by
  `str::contains`, right padding as done by `{: <w$}`, and decimal rendering
  as done by `{}` on an unsigned integer.
 */
module Text {

  /** Rust's `Option`. */
  datatype Option<T> = None | Some(value: T) {
    /** `Option::unwrap_or`. */
    function GetOr(default: T): T {
      match this
      case Some(v) => v
      case None => default
    }
  }

  function Max(a: nat, b: nat): nat {
    if a >= b then a else b
  }

  /** `sub` occurs in `s` at some position (the specification of `Contains`). */
  ghost predicate OccursIn(sub: string, s: string) {
    exists i :: 0 <= i <= |s| && sub <= s[i..]
  }

  /** `s.contains(sub)`: scans `s` from the left for an occurrence of `sub`.
      The empty string occurs in every string. */
  predicate Contains(s: string, sub: string)
    decreases |s|
  {
    sub <= s || (|s| > 0 && Contains(s[1..], sub))
  }

  /** No string holds a longer one. */
  lemma {:induction false} LongerNeverContained(s: string, sub: string)
    requires |sub| > |s|
    ensures !Contains(s, sub)
    decreases |s|
  {
    if |s| > 0 {
      LongerNeverContained(s[1..], sub);
    }
  }

  /** The left-to-right scan finds an occurrence exactly when there is one. */
  lemma {:induction false} ContainsIffOccurs(s: string, sub: string)
    ensures Contains(s, sub) <==> OccursIn(sub, s)
    decreases |s|
  {
    assert s[0..] == s;
    if |s| > 0 {
      ContainsIffOccurs(s[1..], sub);
      if Contains(s[1..], sub) {
        var i :| 0 <= i <= |s[1..]| && sub <= s[1..][i..];
        assert s[1..][i..] == s[i + 1..];
      }
      if OccursIn(sub, s) && !(sub <= s) {
        var i :| 0 <= i <= |s| && sub <= s[i..];
        assert i > 0;
        assert s[1..][i - 1..] == s[i..];
      }
    }
  }

  /** A string of `n` spaces. */
  function Spaces(n: nat): (r: string)
    ensures |r| == n
    ensures forall i :: 0 <= i < n ==> r[i] == ' '
  {
    seq(n, _ => ' ')
  }

  /** `format!("{: <w$}", s)`: left-aligned, filled with spaces up to `width`
      characters, never truncated. */
  function PadRight(s: string, width: nat): (r: string)
    ensures |r| == Max(|s|, width)
    ensures s <= r
    ensures forall i :: |s| <= i < |r| ==> r[i] == ' '
  {
    if |s| >= width then s else s + Spaces(width - |s|)
  }

  predicate IsDigit(c: char) {
    '0' <= c <= '9'
  }

  predicate AllDigits(s: string) {
    forall i :: 0 <= i < |s| ==> IsDigit(s[i])
  }

  function DigitChar(d: nat): (c: char)
    requires d < 10
    ensures IsDigit(c)
  {
    (48 + d) as char
  }

  function DigitValue(c: char): (d: nat)
    requires IsDigit(c)
    ensures d < 10
  {
    c as int - 48
  }

  /** `format!("{}", n)` for an unsigned integer: decimal, no sign, no
      leading zeros. */
  function NatToString(n: nat): (s: string)
    ensures 1 <= |s|
    ensures AllDigits(s)
    ensures |s| > 1 ==> s[0] != '0'
    decreases n
  {
    if n < 10 then [DigitChar(n)] else NatToString(n / 10) + [DigitChar(n % 10)]
  }

  /** Reads a string of decimal digits back as a number. */
  function ParseDecimal(s: string): nat
    requires AllDigits(s)
    decreases |s|
  {
    if s == [] then 0 else ParseDecimal(s[..|s| - 1]) * 10 + DigitValue(s[|s| - 1])
  }

  /** Rendering a count and reading it back gives the count. */
  lemma {:induction false} DecimalRoundTrip(n: nat)
    ensures ParseDecimal(NatToString(n)) == n
    decreases n
  {
    var s := NatToString(n);
    if n >= 10 {
      DecimalRoundTrip(n / 10);
      assert s[..|s| - 1] == NatToString(n / 10);
    }
  }

  /** The longest prefix of `s` made of decimal digits. */
  function LeadingDigits(s: string): (d: string)
    ensures d <= s
    ensures AllDigits(d)
    ensures |d| < |s| ==> !IsDigit(s[|d|])
    decreases |s|
  {
    if s != [] && IsDigit(s[0]) then [s[0]] + LeadingDigits(s[1..]) else []
  }

  /** A digit string followed by a non-digit (or nothing) is exactly what
      `LeadingDigits` takes. */
  lemma {:induction false} LeadingDigitsOf(d: string, rest: string)
    requires AllDigits(d)
    requires rest == [] || !IsDigit(rest[0])
    ensures LeadingDigits(d + rest) == d
    decreases |d|
  {
    if d != [] {
      assert (d + rest)[1..] == d[1..] + rest;
      LeadingDigitsOf(d[1..], rest);
    } else {
      assert d + rest == rest;
    }
  }

  /** What follows `lit` when `s` starts with it. */
  function SkipLiteral(s: string, lit: string): Option<string> {
    if lit <= s then Some(s[|lit|..]) else None
  }

  /** The number spelled by the digits `s` starts with, and what follows
      them; nothing when `s` does not start with a digit or when the digits
      have a leading zero, which `{}` never writes. */
  function ReadNumber(s: string): Option<(nat, string)> {
    var d := LeadingDigits(s);
    if d == [] || (|d| > 1 && d[0] == '0') then None else Some((ParseDecimal(d), s[|d|..]))
  }

  /** A zero-padded number is refused. */
  lemma ReadNumberRefusesLeadingZero(n: nat, rest: string)
    requires rest == [] || !IsDigit(rest[0])
    ensures ReadNumber("0" + NatToString(n) + rest) == None
  {
    LeadingDigitsOf("0" + NatToString(n), rest);
  }

  /** A rendered count followed by a non-digit reads back as that count. */
  lemma ReadNumberOf(n: nat, rest: string)
    requires rest == [] || !IsDigit(rest[0])
    ensures ReadNumber(NatToString(n) + rest) == Some((n, rest))
  {
    var d := NatToString(n);
    LeadingDigitsOf(d, rest);
    DecimalRoundTrip(n);
    AfterPrefix(d, rest);
  }

  /** A literal followed by a rendered count: the count and what follows it. */
  function ReadField(s: string, lit: string): Option<(nat, string)> {
    match SkipLiteral(s, lit)
    case None => None
    case Some(after) => ReadNumber(after)
  }

  lemma ReadFieldOf(lit: string, n: nat, rest: string)
    requires rest == [] || !IsDigit(rest[0])
    ensures ReadField(lit + (NatToString(n) + rest), lit) == Some((n, rest))
  {
    AfterPrefix(lit, NatToString(n) + rest);
    ReadNumberOf(n, rest);
  }

  /** Where each of four concatenated parts sits. */
  lemma FourParts<T>(a: seq<T>, b: seq<T>, c: seq<T>, d: seq<T>)
    ensures var t := a + b + c + d;
      && |t| == |a| + |b| + |c| + |d|
      && t[..|a|] == a
      && t[|a|..|a| + |b|] == b
      && t[|a| + |b|..|a| + |b| + |c|] == c
      && t[|t| - |d|..] == d
      && (forall j :: |a| <= j < |a| + |b| ==> t[j] == b[j - |a|])
      && (forall j :: |a| + |b| <= j < |a| + |b| + |c| ==> t[j] == c[j - |a| - |b|])
  {
  }

  /** Moving the first part of what follows `a` onto `a`. */
  lemma RegroupFirst<T>(a: seq<T>, b: seq<T>, c: seq<T>)
    ensures a + (b + c) == (a + b) + c
  {
  }

  /** What follows a prefix, and the suffix of matching length. */
  lemma AfterPrefix<T>(a: seq<T>, b: seq<T>)
    ensures (a + b)[|a|..] == b
    ensures (a + b)[|a + b| - |b|..] == b
  {
  }
}
