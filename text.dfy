/**
 * String helpers the client relies on: `String.prototype.trim` (used by the
 * save and ask guards) and the decimal rendering of a count inside a
 * template literal (used by the dashboard subtitle).
 */
module Text {

  /**
   * The characters `trim` removes: the WhiteSpace and LineTerminator code
   * points of ECMA-262 (sections 12.2 and 12.3 of ECMAScript 2024).
   */
  predicate IsTrimmable(c: char) {
    c == '\t' || c == '\n' || c == '\U{B}' || c == '\U{C}' || c == '\r' || c == ' '
    || c == '\U{A0}' || c == '\U{1680}' || ('\U{2000}' <= c <= '\U{200A}')
    || c == '\U{2028}' || c == '\U{2029}' || c == '\U{202F}' || c == '\U{205F}'
    || c == '\U{3000}' || c == '\U{FEFF}'
  }

  /** Every character of `s` is one that `trim` removes. */
  predicate AllTrimmable(s: string) {
    forall i :: 0 <= i < |s| ==> IsTrimmable(s[i])
  }

  /** `s` with its leading trimmable characters removed. */
  function TrimStart(s: string): (r: string)
    ensures |r| <= |s| && r == s[|s| - |r|..]
    ensures forall i :: 0 <= i < |s| - |r| ==> IsTrimmable(s[i])
    ensures r != [] ==> !IsTrimmable(r[0])
  {
    if s != [] && IsTrimmable(s[0]) then TrimStart(s[1..]) else s
  }

  /** `s` with its trailing trimmable characters removed. */
  function TrimEnd(s: string): (r: string)
    ensures |r| <= |s| && r == s[..|r|]
    ensures forall i :: |r| <= i < |s| ==> IsTrimmable(s[i])
    ensures r != [] ==> !IsTrimmable(r[|r| - 1])
  {
    if s != [] && IsTrimmable(s[|s| - 1]) then TrimEnd(s[..|s| - 1]) else s
  }

  /**
   * `s.trim()`: `s` with only a trimmable prefix and a trimmable suffix
   * removed, leaving an infix that neither starts nor ends with a
   * trimmable character.
   */
  function Trim(s: string): (r: string)
    ensures |r| <= |s|
    ensures exists i, j :: 0 <= i <= j <= |s| && r == s[i..j] && AllTrimmable(s[..i]) && AllTrimmable(s[j..])
    ensures r != [] ==> !IsTrimmable(r[0]) && !IsTrimmable(r[|r| - 1])
  {
    var t := TrimStart(s);
    var u := TrimEnd(t);
    TrimmedInfix(s, t, u);
    u
  }

  /**
   * Removing a trimmable prefix of `s` (leaving `t`) and then a trimmable
   * suffix of `t` (leaving `u`) leaves an infix of `s` between a trimmable
   * prefix and a trimmable suffix.
   */
  lemma TrimmedInfix(s: string, t: string, u: string)
    requires |t| <= |s| && t == s[|s| - |t|..] && forall i :: 0 <= i < |s| - |t| ==> IsTrimmable(s[i])
    requires |u| <= |t| && u == t[..|u|] && forall i :: |u| <= i < |t| ==> IsTrimmable(t[i])
    ensures exists i, j :: 0 <= i <= j <= |s| && u == s[i..j] && AllTrimmable(s[..i]) && AllTrimmable(s[j..])
  {
    var i := |s| - |t|;
    var j := i + |u|;
    assert s[i..j] == t[..|u|];
    assert s[j..] == t[|u|..];
  }

  /** `!s.trim()`: the trimmed string is empty, so JavaScript treats it as falsy. */
  predicate IsBlank(s: string) {
    Trim(s) == ""
  }

  /** A string is blank exactly when every one of its characters is trimmable. */
  lemma BlankIffAllTrimmable(s: string)
    ensures IsBlank(s) <==> AllTrimmable(s)
  {
    var t := TrimStart(s);
    if t == [] {
      assert s[..|s|] == s;
    } else {
      assert !IsTrimmable(s[|s| - |t|]);
      assert TrimEnd(t) != [];
    }
  }

  /** A decimal digit character. */
  predicate IsDigit(c: char) {
    '0' <= c <= '9'
  }

  predicate AllDigits(s: string) {
    forall i :: 0 <= i < |s| ==> IsDigit(s[i])
  }

  /** The digit character for `d`. */
  function DigitChar(d: nat): (c: char)
    requires d < 10
    ensures IsDigit(c) && c as int - '0' as int == d
  {
    "0123456789"[d]
  }

  /**
   * `${n}` for a non-negative integer: its shortest decimal numeral, which
   * starts with '0' only when it is "0".
   */
  function DecimalString(n: nat): (r: string)
    ensures r != [] && AllDigits(r)
    ensures |r| > 1 ==> r[0] != '0'
  {
    if n < 10 then [DigitChar(n)] else DecimalString(n / 10) + [DigitChar(n % 10)]
  }

  /** The number a decimal numeral denotes. */
  function DecimalValue(s: string): nat
    requires AllDigits(s)
  {
    if s == [] then 0 else DecimalValue(s[..|s| - 1]) * 10 + (s[|s| - 1] as int - '0' as int)
  }

  /** Reading back the numeral of `n` gives `n`. */
  lemma {:induction false} DecimalRoundTrip(n: nat)
    ensures DecimalValue(DecimalString(n)) == n
  {
    var r := DecimalString(n);
    if n >= 10 {
      DecimalRoundTrip(n / 10);
      assert r[..|r| - 1] == DecimalString(n / 10);
    }
  }

  /** Different counts render as different numerals. */
  lemma DecimalStringInjective(m: nat, n: nat)
    requires DecimalString(m) == DecimalString(n)
    ensures m == n
  {
    DecimalRoundTrip(m);
    DecimalRoundTrip(n);
  }
}
