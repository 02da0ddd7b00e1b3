/**
 * The string operations the tools apply to attribute values and group keys:
 * Python's str.strip(), str.lower(), str.startswith(), the last token of
 * str.split(" "), int() on a decimal token and str() of an integer.
 * Only the ASCII part of Python's behaviour is modelled (see README).
 */
module Text {
  import opened Wrappers

  /** The ASCII characters for which Python's str.isspace() holds. */
  predicate IsSpace(c: char) {
    c == ' ' || c == '\t' || c == '\n' || c == '\r' || c == '\U{B}' || c == '\U{C}'
    || c == '\U{1C}' || c == '\U{1D}' || c == '\U{1E}' || c == '\U{1F}'
  }

  predicate IsDigit(c: char) { '0' <= c <= '9' }

  /** Drops leading whitespace: the result is the longest suffix that does not start with a space. */
  function TrimLeft(s: string): (r: string)
    ensures |r| <= |s| && r == s[|s| - |r|..]
    ensures forall i :: 0 <= i < |s| - |r| ==> IsSpace(s[i])
    ensures r == [] || !IsSpace(r[0])
  {
    if s != [] && IsSpace(s[0]) then TrimLeft(s[1..]) else s
  }

  /** Drops trailing whitespace: the result is the longest prefix that does not end with a space. */
  function TrimRight(s: string): (r: string)
    ensures |r| <= |s| && r == s[..|r|]
    ensures forall i :: |r| <= i < |s| ==> IsSpace(s[i])
    ensures r == [] || !IsSpace(r[|r| - 1])
  {
    if s != [] && IsSpace(s[|s| - 1]) then TrimRight(s[..|s| - 1]) else s
  }

  /** The number of leading whitespace characters strip() cuts. */
  function LeadingSpaces(s: string): (n: nat)
    ensures n <= |s|
    ensures forall k :: 0 <= k < n ==> IsSpace(s[k])
    ensures n == |s| || !IsSpace(s[n])
  {
    |s| - |TrimLeft(s)|
  }

  /** Python's s.strip(). */
  function Strip(s: string): (r: string)
    ensures r == [] || (!IsSpace(r[0]) && !IsSpace(r[|r| - 1]))
    ensures (forall i :: 0 <= i < |s| ==> !IsSpace(s[i])) ==> r == s
  {
    TrimRight(TrimLeft(s))
  }

  /**
   * What strip() removes: the result is the slice of s that starts after the
   * leading whitespace and is followed only by whitespace.
   */
  lemma StripSlice(s: string)
    ensures LeadingSpaces(s) + |Strip(s)| <= |s|
    ensures Strip(s) == s[LeadingSpaces(s)..LeadingSpaces(s) + |Strip(s)|]
    ensures forall k :: LeadingSpaces(s) + |Strip(s)| <= k < |s| ==> IsSpace(s[k])
  {
    TrimBothEnds(s, TrimLeft(s), Strip(s), LeadingSpaces(s));
  }

  /** Cutting a space-only prefix of length n and then a space-only suffix of t leaves a slice of s. */
  lemma TrimBothEnds(s: string, t: string, r: string, n: nat)
    requires n == |s| - |t| && t == s[n..]
    requires |r| <= |t| && r == t[..|r|] && forall i :: |r| <= i < |t| ==> IsSpace(t[i])
    ensures n + |r| <= |s| && r == s[n..n + |r|]
    ensures forall k :: n + |r| <= k < |s| ==> IsSpace(s[k])
  {
    assert forall k :: n <= k < |s| ==> s[k] == t[k - n];
  }

  function LowerChar(c: char): char {
    if 'A' <= c <= 'Z' then (c as int + 32) as char else c
  }

  /** Python's s.lower() on ASCII letters. */
  function Lower(s: string): (r: string)
    ensures |r| == |s|
    ensures forall i :: 0 <= i < |s| ==> r[i] == LowerChar(s[i])
  {
    if s == [] then [] else [LowerChar(s[0])] + Lower(s[1..])
  }

  predicate StartsWith(s: string, prefix: string) {
    |prefix| <= |s| && s[..|prefix|] == prefix
  }

  /** s.split(" ")[-1]: everything after the last space (all of s when it has none). */
  function LastToken(s: string): (r: string)
    ensures |r| <= |s| && r == s[|s| - |r|..]
    ensures ' ' !in r
    ensures |r| < |s| ==> s[|s| - |r| - 1] == ' '
  {
    if s == [] then []
    else if s[|s| - 1] == ' ' then []
    else LastToken(s[..|s| - 1]) + [s[|s| - 1]]
  }

  /**
   * The digit part accepted by int(): ASCII digits, where a single '_' may
   * separate two digits.
   */
  predicate WellFormedDigits(d: string) {
    && |d| > 0
    && IsDigit(d[0]) && IsDigit(d[|d| - 1])
    && forall i :: 0 <= i < |d| ==> (IsDigit(d[i]) || (d[i] == '_' && 0 < i < |d| - 1 && IsDigit(d[i + 1])))
  }

  /** The number the digits of d spell, underscores skipped. */
  function DigitsValue(d: string): nat {
    if d == [] then 0
    else if d[|d| - 1] == '_' then DigitsValue(d[..|d| - 1])
    else DigitsValue(d[..|d| - 1]) * 10 + (if IsDigit(d[|d| - 1]) then d[|d| - 1] as int - '0' as int else 0)
  }

  /** Python's int(t) in base 10: None where int() raises ValueError. */
  function ParseInt(t: string): (r: Option<int>)
    ensures r.Some? ==> |Strip(t)| > 0
  {
    var u := Strip(t);
    if |u| > 0 && (u[0] == '+' || u[0] == '-') then
      if WellFormedDigits(u[1..]) then
        Some(if u[0] == '-' then -(DigitsValue(u[1..]) as int) else DigitsValue(u[1..]))
      else None
    else if WellFormedDigits(u) then Some(DigitsValue(u))
    else None
  }

  function NatToString(n: nat): (r: string)
    ensures |r| > 0
    ensures forall i :: 0 <= i < |r| ==> IsDigit(r[i])
  {
    var last := [('0' as int + n % 10) as char];
    if n < 10 then last else NatToString(n / 10) + last
  }

  /** Python's str(n) for an int. */
  function IntToString(n: int): string {
    if n < 0 then "-" + NatToString(-n) else NatToString(n)
  }

  /** str(n) is a '-' for a negative n followed by digits; it holds no space. */
  lemma IntToStringChars(n: int)
    ensures var r := IntToString(n);
      && |r| > 0 && (r[0] == '-' <==> n < 0)
      && (forall i :: 0 <= i < |r| ==> IsDigit(r[i]) || (i == 0 && r[i] == '-'))
      && ' ' !in r
  {
  }

  lemma {:induction false} NatToStringValue(n: nat)
    ensures WellFormedDigits(NatToString(n))
    ensures DigitsValue(NatToString(n)) == n
  {
    var s := NatToString(n);
    if n >= 10 {
      NatToStringValue(n / 10);
      var p := NatToString(n / 10);
      assert s[..|s| - 1] == p;
    }
  }

  lemma NoSpaceStrips(s: string)
    requires forall i :: 0 <= i < |s| ==> !IsSpace(s[i])
    ensures Strip(s) == s
  {
  }

  /** int(str(n)) == n: the text form of a level index reads back as that index. */
  lemma {:induction false} ParseIntRoundTrip(n: int)
    ensures ParseInt(IntToString(n)) == Some(n)
  {
    var s := IntToString(n);
    var m := if n < 0 then -n else n;
    NatToStringValue(m);
    IntToStringChars(n);
    NoSpaceStrips(s);
    if n < 0 {
      assert s[1..] == NatToString(m);
    }
  }
}
