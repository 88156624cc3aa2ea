/** The pieces of JavaScript string behaviour the screens rely on: the `\s`
    character class (which is also what `String.prototype.trim` strips) and
    the decimal rendering of an integer inside a template literal. */
module JsText {

  import opened Replies

  /** ECMAScript WhiteSpace or LineTerminator: the class `\s` in a regular
      expression and the characters `trim` removes. */
  predicate IsSpace(c: char)
  {
    || c == '\t' || c == '\n' || c == '\U{000B}' || c == '\U{000C}' || c == '\r'
    || c == ' ' || c == '\U{00A0}' || c == '\U{1680}'
    || ('\U{2000}' <= c <= '\U{200A}')
    || c == '\U{2028}' || c == '\U{2029}' || c == '\U{202F}' || c == '\U{205F}'
    || c == '\U{3000}' || c == '\U{FEFF}'
  }

  predicate AllSpace(s: string)
  {
    forall k :: 0 <= k < |s| ==> IsSpace(s[k])
  }

  /** The end of the run of `sp` characters that starts at `lo`. */
  function RunEnd(s: string, lo: nat, sp: char -> bool): (n: nat)
    requires lo <= |s|
    ensures lo <= n <= |s|
    ensures forall k :: lo <= k < n ==> sp(s[k])
    ensures n < |s| ==> !sp(s[n])
    decreases |s| - lo
  {
    if lo == |s| || !sp(s[lo]) then lo else RunEnd(s, lo + 1, sp)
  }

  /** The start of the run of `sp` characters that ends at `hi`, looking no
      further back than `lo`. */
  function RunStart(s: string, lo: nat, hi: nat, sp: char -> bool): (n: nat)
    requires lo <= hi <= |s|
    ensures lo <= n <= hi
    ensures forall k :: n <= k < hi ==> sp(s[k])
    ensures lo < n ==> !sp(s[n - 1])
  {
    if hi == lo || !sp(s[hi - 1]) then hi else RunStart(s, lo, hi - 1, sp)
  }

  /** `s` without its leading and trailing runs of `sp` characters: the
      slice that starts where the leading run ends. */
  function TrimBy(s: string, sp: char -> bool): (r: string)
    ensures r == "" <==> forall k :: 0 <= k < |s| ==> sp(s[k])
    ensures r != "" ==> !sp(r[0]) && !sp(r[|r| - 1])
    ensures RunEnd(s, 0, sp) + |r| <= |s|
    ensures r == s[RunEnd(s, 0, sp)..RunEnd(s, 0, sp) + |r|]
    ensures forall k :: RunEnd(s, 0, sp) + |r| <= k < |s| ==> sp(s[k])
  {
    var a := RunEnd(s, 0, sp);
    var e := RunStart(s, a, |s|, sp);
    assert a < e ==> s[a..e][0] == s[a] && s[a..e][e - a - 1] == s[e - 1];
    assert (forall k :: 0 <= k < |s| ==> sp(s[k])) ==> a == |s|;
    s[a..e]
  }

  /** Where `trim` starts keeping characters: the first one that is not
      white space, or the end. */
  function TrimStart(s: string): (i: nat)
    ensures i <= |s|
    ensures forall k :: 0 <= k < i ==> IsSpace(s[k])
    ensures i < |s| ==> !IsSpace(s[i])
  {
    RunEnd(s, 0, IsSpace)
  }

  /** `String.prototype.trim`: `s` without its leading and trailing white
      space. */
  function Trim(s: string): (r: string)
    ensures r == "" <==> AllSpace(s)
    ensures r != "" ==> !IsSpace(r[0]) && !IsSpace(r[|r| - 1])
    ensures TrimStart(s) + |r| <= |s| && r == s[TrimStart(s)..TrimStart(s) + |r|]
    ensures forall k :: TrimStart(s) + |r| <= k < |s| ==> IsSpace(s[k])
  {
    TrimBy(s, IsSpace)
  }

  /** `s.length`: the number of UTF-16 code units, so a character outside
      the Basic Multilingual Plane counts twice. */
  function Utf16Length(s: string): (n: nat)
    ensures |s| <= n <= 2 * |s|
    ensures (forall k :: 0 <= k < |s| ==> s[k] as int <= 0xFFFF) ==> n == |s|
    ensures n == |s| + |set k | 0 <= k < |s| && s[k] as int > 0xFFFF|
  {
    if |s| == 0 then 0
    else
      var p := s[..|s| - 1];
      assert forall k :: 0 <= k < |p| ==> p[k] == s[k];
      assert (set k | 0 <= k < |s| && s[k] as int > 0xFFFF) ==
        (set k | 0 <= k < |p| && p[k] as int > 0xFFFF) + (if s[|s| - 1] as int > 0xFFFF then {|s| - 1} else {});
      Utf16Length(p) + (if s[|s| - 1] as int > 0xFFFF then 2 else 1)
  }

  predicate IsDigit(c: char)
  {
    '0' <= c <= '9'
  }

  function DigitChar(d: nat): (c: char)
    requires d < 10
    ensures IsDigit(c)
  {
    ('0' as int + d) as char
  }

  function DigitValue(c: char): nat
    requires IsDigit(c)
  {
    (c as int - '0' as int) as nat
  }

  /** Decimal digits of `n` without leading zeros, as `${n}` renders a
      non-negative integer. */
  function NatToString(n: nat): (s: string)
    ensures |s| > 0
    ensures forall k :: 0 <= k < |s| ==> IsDigit(s[k])
    ensures s[0] == '0' ==> s == "0"
  {
    if n < 10 then [DigitChar(n)]
    else NatToString(n / 10) + [DigitChar(n % 10)]
  }

  /** `${n}` for an integer: a minus sign before the digits of a negative
      value. */
  function IntToString(n: int): (s: string)
    ensures |s| > 0
    ensures n < 0 <==> s[0] == '-'
    ensures forall k :: 0 <= k < |s| ==> IsDigit(s[k]) || (k == 0 && s[k] == '-')
  {
    if n < 0 then "-" + NatToString(-n) else NatToString(n)
  }

  /** The value of a string of decimal digits. */
  function ParseDigits(s: string): nat
    requires forall k :: 0 <= k < |s| ==> IsDigit(s[k])
  {
    if |s| == 0 then 0
    else ParseDigits(s[..|s| - 1]) * 10 + DigitValue(s[|s| - 1])
  }

  /** Reads back a rendered integer: an optional minus sign and at least one
      digit; anything else is refused. */
  function ParseInt(s: string): Option<int>
  {
    if |s| > 0 && s[0] == '-' then
      var d := s[1..];
      if |d| > 0 && forall k :: 0 <= k < |d| ==> IsDigit(d[k]) then Some(0 - ParseDigits(d) as int) else None
    else if |s| > 0 && forall k :: 0 <= k < |s| ==> IsDigit(s[k]) then Some(ParseDigits(s) as int)
    else None
  }

  lemma {:induction false} ParseNatToString(n: nat)
    ensures ParseDigits(NatToString(n)) == n
  {
    if n >= 10 {
      var s := NatToString(n);
      assert s[..|s| - 1] == NatToString(n / 10);
      ParseNatToString(n / 10);
    }
  }

  /** Rendering an integer and reading it back gives the integer. */
  lemma IntToStringRoundTrip(n: int)
    ensures ParseInt(IntToString(n)) == Some(n)
  {
    if n < 0 {
      assert IntToString(n)[1..] == NatToString(-n);
      ParseNatToString(-n);
    } else {
      ParseNatToString(n);
    }
  }
}
