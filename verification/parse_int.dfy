/**
 * JavaScript's global `parseInt(string)` with no radix argument, as the list
 * controller applies it to query parameters: leading white space is skipped, an
 * optional sign is read, a `0x`/`0X` prefix selects base 16, and the longest run
 * of digits that follows is converted. No digits at all gives NaN, written None.
 */
module JsParseInt {
  import opened Wrappers
  import opened Text

  /** ECMAScript WhiteSpace and LineTerminator code points (section 12.2 and 12.3 of ECMA-262). */
  predicate IsJsWhiteSpace(c: char) {
    var u := c as int;
    || (0x09 <= u <= 0x0D)   // tab, line feed, vertical tab, form feed, carriage return
    || u == 0x20 || u == 0xA0 || u == 0x1680
    || (0x2000 <= u <= 0x200A)
    || u == 0x2028 || u == 0x2029 || u == 0x202F || u == 0x205F || u == 0x3000
    || u == 0xFEFF
  }

  /** Drops leading white space. */
  function TrimStart(s: string): (r: string)
    ensures |r| <= |s|
    ensures |r| > 0 ==> !IsJsWhiteSpace(r[0])
    ensures (|s| > 0 && !IsJsWhiteSpace(s[0])) ==> r == s
  {
    if |s| > 0 && IsJsWhiteSpace(s[0]) then TrimStart(s[1..]) else s
  }

  /** What `TrimStart` keeps is a suffix of its input, and only white space was dropped. */
  lemma {:induction false} TrimStartIsSuffix(s: string)
    ensures var r := TrimStart(s);
            && r == s[|s| - |r|..]
            && forall i | 0 <= i < |s| - |r| :: IsJsWhiteSpace(s[i])
    decreases |s|
  {
    if |s| > 0 && IsJsWhiteSpace(s[0]) {
      TrimStartIsSuffix(s[1..]);
      var r := TrimStart(s);
      assert s[1..][|s| - 1 - |r|..] == s[|s| - |r|..];
      assert forall i | 1 <= i < |s| - |r| :: s[i] == s[1..][i - 1];
    }
  }

  /** The value of `c` as a digit in `radix` (10 or 16), if it is one. */
  function DigitValue(c: char, radix: nat): (d: Option<nat>)
    requires radix == 10 || radix == 16
    ensures d.Some? ==> d.value < radix
  {
    if '0' <= c <= '9' then Some(c as nat - '0' as nat)
    else if radix == 16 && 'a' <= c <= 'f' then Some(c as nat - 'a' as nat + 10)
    else if radix == 16 && 'A' <= c <= 'F' then Some(c as nat - 'A' as nat + 10)
    else None
  }

  /** The longest prefix of `s` made of digits in `radix`. */
  function LeadingDigits(s: string, radix: nat): (r: string)
    requires radix == 10 || radix == 16
    ensures |r| <= |s|
    ensures forall i | 0 <= i < |r| :: DigitValue(r[i], radix).Some?
    ensures |r| < |s| ==> DigitValue(s[|r|], radix).None?
  {
    if |s| > 0 && DigitValue(s[0], radix).Some? then [s[0]] + LeadingDigits(s[1..], radix)
    else ""
  }

  /** The number a string of digits denotes, most significant digit first. */
  function DigitsValue(ds: string, radix: nat): nat
    requires radix == 10 || radix == 16
    requires forall i | 0 <= i < |ds| :: DigitValue(ds[i], radix).Some?
  {
    if ds == [] then 0
    else DigitsValue(ds[..|ds| - 1], radix) * radix + DigitValue(ds[|ds| - 1], radix).value
  }

  /** The unsigned part of `parseInt`: a `0x`/`0X` prefix selects base 16, then the leading digits are read. */
  function ParseMagnitude(u: string): Option<nat> {
    var hex := |u| >= 2 && u[0] == '0' && (u[1] == 'x' || u[1] == 'X');
    var radix := if hex then 16 else 10;
    var digits := LeadingDigits(if hex then u[2..] else u, radix);
    if |digits| == 0 then None else Some(DigitsValue(digits, radix))
  }

  /** `parseInt` once leading white space is gone: an optional sign, then the magnitude. */
  function ParseSigned(t: string): Option<int> {
    if |t| > 0 && t[0] == '-' then
      match ParseMagnitude(t[1..])
      case None => None
      case Some(m) => Some(-(m as int))
    else if |t| > 0 && t[0] == '+' then
      match ParseMagnitude(t[1..])
      case None => None
      case Some(m) => Some(m as int)
    else
      match ParseMagnitude(t)
      case None => None
      case Some(m) => Some(m as int)
  }

  /** `parseInt(s)`; None is NaN. */
  function ParseInt(s: string): Option<int> {
    ParseSigned(TrimStart(s))
  }

  /** `parseInt(q) || fallback` for a query parameter that may be absent: absent, NaN and 0 all fall back. */
  function ParseIntOr(q: Option<string>, fallback: int): (r: int)
    ensures q.None? ==> r == fallback
    ensures q.Some? && ParseInt(q.value).None? ==> r == fallback
    ensures q.Some? && ParseInt(q.value) == Some(0) ==> r == fallback
    ensures q.Some? && ParseInt(q.value).Some? && ParseInt(q.value).value != 0 ==> r == ParseInt(q.value).value
    ensures r != fallback ==> q.Some? && ParseInt(q.value) == Some(r)
  {
    match q
    case None => fallback
    case Some(text) =>
      match ParseInt(text)
      case Some(n) => if n != 0 then n else fallback
      case None => fallback
  }

  /** The decimal value of a rendered natural number is that number. */
  lemma {:induction false} DigitsValueOfNatToString(n: nat)
    ensures forall i | 0 <= i < |NatToString(n)| :: DigitValue(NatToString(n)[i], 10).Some?
    ensures DigitsValue(NatToString(n), 10) == n
    decreases n
  {
    var r := NatToString(n);
    if n >= 10 {
      DigitsValueOfNatToString(n / 10);
      assert r[..|r| - 1] == NatToString(n / 10);
    }
  }

  /** A string made only of digits is its own longest digit prefix. */
  lemma {:induction false} LeadingDigitsOfDigits(s: string, radix: nat)
    requires radix == 10 || radix == 16
    requires forall i | 0 <= i < |s| :: DigitValue(s[i], radix).Some?
    ensures LeadingDigits(s, radix) == s
  {
    if |s| > 0 {
      LeadingDigitsOfDigits(s[1..], radix);
      assert [s[0]] + s[1..] == s;
    }
  }

  /** A rendered natural number is read back in base 10 as itself. */
  lemma {:induction false} ParseMagnitudeOfNatToString(m: nat)
    ensures ParseMagnitude(NatToString(m)) == Some(m)
  {
    var ds := NatToString(m);
    DigitsValueOfNatToString(m);
    assert !(|ds| >= 2 && ds[0] == '0');
    LeadingDigitsOfDigits(ds, 10);
  }

  /** A negative number's rendering is read back as that number. */
  lemma {:induction false} ParseNegative(m: nat)
    requires m > 0
    ensures ParseInt("-" + NatToString(m)) == Some(-(m as int))
  {
    var ds := NatToString(m);
    var s := "-" + ds;
    assert TrimStart(s) == s;
    assert s[1..] == ds;
    ParseMagnitudeOfNatToString(m);
  }

  /** A natural number's rendering is read back as that number. */
  lemma {:induction false} ParseNonNegative(n: nat)
    ensures ParseInt(NatToString(n)) == Some(n as int)
  {
    var ds := NatToString(n);
    assert IsDecimalDigit(ds[0]);
    assert TrimStart(ds) == ds;
    ParseMagnitudeOfNatToString(n);
  }

  /** `parseInt` reads back every integer rendered in decimal. */
  lemma {:induction false} ParseIntOfIntToString(n: int)
    ensures ParseInt(IntToString(n)) == Some(n)
  {
    if n < 0 {
      var m: nat := -n;
      assert IntToString(n) == "-" + NatToString(m);
      ParseNegative(m);
    } else {
      assert IntToString(n) == NatToString(n);
      ParseNonNegative(n);
    }
  }
}
