/**
 * The two JavaScript number conversions the routes rely on: the global `parseInt` with no radix
 * (section 19.2.5 of ECMA-262) and the decimal rendering of an integral Number, which is what a
 * Number becomes when it is used as a property key or interpolated into a template string
 * (Number::toString, section 6.1.6.1.20 of ECMA-262).
 *
 * Numbers are modelled as unbounded integers: a `NaN` result is `None`, and `-0` is `0`, which
 * agrees with `ToString(-0) == "0"`.
 */
module JsNumbers {
  import opened Outcomes

  /** StrWhiteSpaceChar: the WhiteSpace and LineTerminator code points that parseInt skips. */
  predicate IsStrWhiteSpace(c: char) {
    || c == '\t' || c == '\n' || c == '\U{000B}' || c == '\U{000C}' || c == '\r' || c == ' '
    || c == '\U{00A0}' || c == '\U{1680}' || ('\U{2000}' <= c <= '\U{200A}')
    || c == '\U{2028}' || c == '\U{2029}' || c == '\U{202F}' || c == '\U{205F}'
    || c == '\U{3000}' || c == '\U{FEFF}'
  }

  predicate IsDecimalDigit(c: char) {
    '0' <= c <= '9'
  }

  predicate IsHexDigit(c: char) {
    IsDecimalDigit(c) || 'a' <= c <= 'f' || 'A' <= c <= 'F'
  }

  /** The only radixes `parseInt(s)` ends up with when no radix is passed. */
  type Radix = r: nat | r == 10 || r == 16 witness 10

  predicate IsDigit(c: char, radix: Radix) {
    IsHexDigit(c) && (radix == 16 || IsDecimalDigit(c))
  }

  function DigitValue(c: char): (d: nat)
    requires IsHexDigit(c)
    ensures d < 16
    ensures IsDecimalDigit(c) <==> d < 10
  {
    if IsDecimalDigit(c) then c as nat - '0' as nat
    else if 'a' <= c <= 'f' then c as nat - 'a' as nat + 10
    else c as nat - 'A' as nat + 10
  }

  /** TrimString(s, start): the index of the first character of `s` at or after `i` that is not white space. */
  function SpaceEnd(s: string, i: nat): (j: nat)
    requires i <= |s|
    ensures i <= j <= |s|
    ensures forall k :: i <= k < j ==> IsStrWhiteSpace(s[k])
    ensures j == |s| || !IsStrWhiteSpace(s[j])
    decreases |s| - i
  {
    if i < |s| && IsStrWhiteSpace(s[i]) then SpaceEnd(s, i + 1) else i
  }

  /** The end of the longest run of digits of `radix` in `s` that starts at `i`. */
  function DigitEnd(s: string, i: nat, radix: Radix): (j: nat)
    requires i <= |s|
    ensures i <= j <= |s|
    ensures forall k :: i <= k < j ==> IsDigit(s[k], radix)
    ensures j == |s| || !IsDigit(s[j], radix)
    decreases |s| - i
  {
    if i < |s| && IsDigit(s[i], radix) then DigitEnd(s, i + 1, radix) else i
  }

  /** The mathematical value of a numeral written with digits of `radix`, most significant first. */
  function ValueOf(z: string, radix: Radix): nat
    requires forall i :: 0 <= i < |z| ==> IsDigit(z[i], radix)
  {
    if z == [] then 0
    else
      assert IsDigit(z[|z| - 1], radix);
      ValueOf(z[..|z| - 1], radix) * radix + DigitValue(z[|z| - 1])
  }

  /**
   * What `parseInt(s)` yields: skip leading white space, take one optional sign, switch to radix 16
   * after a "0x" or "0X" prefix, then read the longest run of digits; no digits at all is NaN.
   */
  function ParseInt(s: string): (r: Option<int>)
    ensures r.Some? <==> StartsWithNumeral(s)
    ensures r.Some? ==> SpaceEnd(s, 0) < |s| && (r.value < 0 ==> s[SpaceEnd(s, 0)] == '-')
  {
    var i := SpaceEnd(s, 0);
    var negative := i < |s| && s[i] == '-';
    var start := if i < |s| && (s[i] == '-' || s[i] == '+') then i + 1 else i;
    var hex := HasHexPrefixAt(s, start);
    var radix: Radix := if hex then 16 else 10;
    var from := if hex then start + 2 else start;
    var end := DigitEnd(s, from, radix);
    if end == from then None
    else
      assert forall k :: 0 <= k < end - from ==> s[from..end][k] == s[from + k];
      var magnitude: int := ValueOf(s[from..end], radix);
      Some(if negative then 0 - magnitude else magnitude)
  }

  predicate HasHexPrefixAt(s: string, i: nat) {
    i + 2 <= |s| && s[i] == '0' && (s[i + 1] == 'x' || s[i + 1] == 'X')
  }

  /**
   * When `parseInt(s)` is not NaN: after the leading white space and an optional sign, the next
   * character is a decimal digit, except that "0x"/"0X" must be followed by a hexadecimal digit.
   */
  predicate StartsWithNumeral(s: string) {
    var i := SpaceEnd(s, 0);
    var start := if i < |s| && (s[i] == '-' || s[i] == '+') then i + 1 else i;
    if HasHexPrefixAt(s, start) then start + 2 < |s| && IsHexDigit(s[start + 2])
    else start < |s| && IsDecimalDigit(s[start])
  }

  function DecimalDigit(d: nat): (c: char)
    requires d < 10
    ensures IsDecimalDigit(c) && DigitValue(c) == d
  {
    ('0' as nat + d) as char
  }

  /** The decimal numeral of `n`, without leading zeros. */
  function NatDigits(n: nat): (s: string)
    ensures s != []
    ensures forall i :: 0 <= i < |s| ==> IsDecimalDigit(s[i])
    ensures s[0] == '0' <==> n == 0
    ensures n == 0 ==> s == "0"
  {
    if n < 10 then [DecimalDigit(n)] else NatDigits(n / 10) + [DecimalDigit(n % 10)]
  }

  /** A string Number::toString can produce for an integer: "0", or an optional '-' and digits without a leading zero. */
  predicate IsCanonicalDecimal(s: string) {
    && Unsigned(s) != []
    && (forall i :: 0 <= i < |Unsigned(s)| ==> IsDecimalDigit(Unsigned(s)[i]))
    && (Unsigned(s)[0] == '0' ==> s == "0")
  }

  /** `s` without its leading '-', if it has one. */
  function Unsigned(s: string): string {
    if s != [] && s[0] == '-' then s[1..] else s
  }

  /** The decimal rendering of an integral Number, as used for a property key. */
  function DecimalString(n: int): (s: string)
    ensures IsCanonicalDecimal(s)
    ensures (s[0] == '-') <==> n < 0
  {
    if n < 0 then "-" + NatDigits(-n) else NatDigits(n)
  }

  lemma {:induction false} ValueOfNatDigits(n: nat)
    ensures ValueOf(NatDigits(n), 10) == n
  {
    if n >= 10 {
      var init := NatDigits(n / 10);
      var s := init + [DecimalDigit(n % 10)];
      assert s[..|s| - 1] == init;
      ValueOfNatDigits(n / 10);
    }
  }

  /** A numeral that is all decimal digits after at most a leading '-' is read whole. */
  lemma ParseIntOfNumeral(s: string, from: nat)
    requires from < |s| && (from == 0 || (from == 1 && s[0] == '-'))
    requires forall k :: from <= k < |s| ==> IsDecimalDigit(s[k])
    ensures forall k :: 0 <= k < |s[from..]| ==> IsDigit(s[from..][k], 10)
    ensures ParseInt(s) == Some(if from == 1 then 0 - ValueOf(s[from..], 10) else ValueOf(s[from..], 10))
  {
    assert SpaceEnd(s, 0) == 0;
    assert !HasHexPrefixAt(s, from) by {
      if from + 2 <= |s| {
        assert IsDecimalDigit(s[from + 1]);
      }
    }
    var end := DigitEnd(s, from, 10);
    if end < |s| {
      assert IsDigit(s[end], 10);
    }
    assert s[from..end] == s[from..];
  }

  /** Scanning white space in `s` stops where it stops in its prefix `a` when `s` has no white space after `a`. */
  lemma {:induction false} SpaceEndOfPrefix(a: string, s: string, i: nat)
    requires i <= |a| < |s| && s[..|a|] == a && !IsStrWhiteSpace(s[|a|])
    ensures SpaceEnd(s, i) == SpaceEnd(a, i)
    decreases |a| - i
  {
    if i < |a| {
      assert s[i] == a[i];
      if IsStrWhiteSpace(a[i]) {
        SpaceEndOfPrefix(a, s, i + 1);
      }
    }
  }

  /** Scanning digits in `s` stops where it stops in its prefix `a` when `s` has no digit after `a`. */
  lemma {:induction false} DigitEndOfPrefix(a: string, s: string, i: nat, radix: Radix)
    requires i <= |a| < |s| && s[..|a|] == a && !IsDigit(s[|a|], radix)
    ensures DigitEnd(s, i, radix) == DigitEnd(a, i, radix)
    decreases |a| - i
  {
    if i < |a| {
      assert s[i] == a[i];
      if IsDigit(a[i], radix) {
        DigitEndOfPrefix(a, s, i + 1, radix);
      }
    }
  }

  lemma SliceOfPrefix(a: string, s: string, from: nat, end: nat)
    requires from <= end <= |a| <= |s| && s[..|a|] == a
    ensures s[from..end] == a[from..end]
  {
    assert forall k :: from <= k < end ==> s[k] == s[..|a|][k];
    assert forall k :: 0 <= k < end - from ==> s[from..end][k] == a[from..end][k];
  }

  /** Two texts that agree on every step of the scan `parseInt` makes give the same result. */
  lemma ParseIntAgree(a: string, s: string, i: nat, start: nat, from: nat, radix: Radix)
    requires i == SpaceEnd(a, 0) == SpaceEnd(s, 0)
    requires (i < |a| && a[i] == '-') == (i < |s| && s[i] == '-')
    requires start == (if i < |a| && (a[i] == '-' || a[i] == '+') then i + 1 else i)
    requires start == (if i < |s| && (s[i] == '-' || s[i] == '+') then i + 1 else i)
    requires HasHexPrefixAt(a, start) == HasHexPrefixAt(s, start)
    requires radix == if HasHexPrefixAt(a, start) then 16 else 10
    requires from == if HasHexPrefixAt(a, start) then start + 2 else start
    requires from <= |a| && from <= |s|
    requires DigitEnd(a, from, radix) == DigitEnd(s, from, radix)
    requires a[from..DigitEnd(a, from, radix)] == s[from..DigitEnd(s, from, radix)]
    ensures ParseInt(s) == ParseInt(a)
  {
  }

  /**
   * `parseInt` reads nothing past a character that is no white space, sign, digit or "x":
   * the text up to that character gives the same result.
   */
  lemma ParseIntStopsAt(a: string, s: string)
    requires |a| < |s| && s[..|a|] == a
    requires var c := s[|a|]; !IsStrWhiteSpace(c) && !IsHexDigit(c) && c !in {'-', '+', 'x', 'X'}
    ensures ParseInt(s) == ParseInt(a)
  {
    assert forall k :: 0 <= k < |a| ==> s[k] == a[k];
    SpaceEndOfPrefix(a, s, 0);
    var i := SpaceEnd(a, 0);
    var start := if i < |a| && (a[i] == '-' || a[i] == '+') then i + 1 else i;
    assert HasHexPrefixAt(s, start) == HasHexPrefixAt(a, start);
    var radix: Radix := if HasHexPrefixAt(a, start) then 16 else 10;
    var from := if HasHexPrefixAt(a, start) then start + 2 else start;
    DigitEndOfPrefix(a, s, from, radix);
    var end := DigitEnd(a, from, radix);
    SliceOfPrefix(a, s, from, end);
    ParseIntAgree(a, s, i, start, from, radix);
  }

  /** `parseInt` stops at a comma: whatever follows it is never read. */
  lemma ParseIntStopsAtComma(a: string, b: string)
    ensures ParseInt(a + "," + b) == ParseInt(a)
  {
    var s := a + "," + b;
    assert s[..|a|] == a;
    assert s[|a|] == ',';
    ParseIntStopsAt(a, s);
  }

  /** Reading back the decimal rendering of an integer gives that integer. */
  lemma ParseIntOfDecimalString(n: int)
    ensures ParseInt(DecimalString(n)) == Some(n)
  {
    var s := DecimalString(n);
    var magnitude := if n < 0 then -n else n;
    var from := if n < 0 then 1 else 0;
    assert s[from..] == NatDigits(magnitude);
    ParseIntOfNumeral(s, from);
    ValueOfNatDigits(magnitude);
  }

  /** Different integers have different renderings, so a property key names one number. */
  lemma DecimalStringInjective(m: int, n: int)
    requires DecimalString(m) == DecimalString(n)
    ensures m == n
  {
    ParseIntOfDecimalString(m);
    ParseIntOfDecimalString(n);
  }

  /** Text without a leading numeral, and a bare "0x" prefix, are NaN. */
  lemma ParseIntRejectsNonNumerals()
    ensures ParseInt("abc") == None
    ensures ParseInt("") == None
    ensures ParseInt("0x") == None
  {
    assert SpaceEnd("abc", 0) == 0 && !HasHexPrefixAt("abc", 0);
    assert DigitEnd("abc", 0, 10) == 0;
    assert SpaceEnd("0x", 0) == 0 && HasHexPrefixAt("0x", 0);
    assert DigitEnd("0x", 2, 16) == 2;
  }

  lemma ParseIntReadsDecimal()
    ensures ParseInt("42") == Some(42)
  {
    assert SpaceEnd("42", 0) == 0 && !HasHexPrefixAt("42", 0);
    assert DigitEnd("42", 0, 10) == 2;
    assert "42"[0..2] == "42";
    assert ValueOf("42", 10) == 42 by {
      assert "42"[..1] == "4";
    }
  }

  lemma ParseIntStopsAtFirstNonDigit()
    ensures ParseInt("12abc") == Some(12)
  {
    assert DigitEnd("12abc", 0, 10) == 2;
    assert "12abc"[0..2] == "12";
    assert ValueOf("12", 10) == 12 by {
      assert "12"[..1] == "1";
    }
  }

  lemma ParseIntSkipsSpaceAndSign()
    ensures ParseInt(" -3") == Some(-3)
    ensures ParseInt("-0") == Some(0)
  {
    assert SpaceEnd(" -3", 0) == 1;
    assert !HasHexPrefixAt(" -3", 2);
    assert DigitEnd(" -3", 2, 10) == 3;
    assert " -3"[2..3] == "3";
    assert ValueOf("3", 10) == 3;
    assert "-0"[1..2] == "0";
  }

  lemma ParseIntLeadingZeros()
    ensures ParseInt("042") == Some(42)
  {
    assert "042"[0..3] == "042";
    assert ValueOf("042", 10) == 42 by {
      assert "042"[..2] == "04";
      assert "04"[..1] == "0";
    }
  }

  lemma ParseIntHexPrefix()
    ensures ParseInt("0x1f") == Some(31)
  {
    assert DigitEnd("0x1f", 2, 16) == 4;
    assert "0x1f"[2..4] == "1f";
    assert ValueOf("1f", 16) == 31 by {
      assert "1f"[..1] == "1";
    }
  }
}
