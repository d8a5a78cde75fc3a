/**
 * The `decimal1` fixed-point type: an integer holding tenths. A value written by the user
 * (a str or a bool) is scaled by ten; a value read off the wire (an int) is kept as it is.
 * Rendering prints the tenths as a decimal with exactly one fractional digit.
 */
module Decimal1 {
  import opened Results

  /** What `decimal1(...)` is called with. */
  datatype Argument =
    | Wire(n: int)      // an int read from the device: passed through
    | Text(s: string)   // a written str: scaled by ten
    | Flag(b: bool)     // a written bool: scaled by ten

  datatype Error = NotADecimal(s: string)

  predicate IsDigit(c: char) {
    '0' <= c <= '9'
  }

  function DigitValue(c: char): (d: nat)
    requires IsDigit(c)
    ensures d < 10
  {
    c as int - '0' as int
  }

  function DigitChar(d: nat): (c: char)
    requires d < 10
    ensures IsDigit(c) && DigitValue(c) == d
  {
    ('0' as int + d) as char
  }

  predicate AllDigits(s: string) {
    forall i :: 0 <= i < |s| ==> IsDigit(s[i])
  }

  /** The natural number a string of decimal digits denotes. */
  function DigitsValue(s: string): nat
    requires AllDigits(s)
  {
    if s == [] then 0 else DigitsValue(s[..|s| - 1]) * 10 + DigitValue(s[|s| - 1])
  }

  /** The decimal digits of `n`, without leading zeros. */
  function NatToDigits(n: nat): (r: string)
    ensures |r| > 0 && AllDigits(r)
    ensures |r| > 1 ==> r[0] != '0'
  {
    if n < 10 then [DigitChar(n)] else NatToDigits(n / 10) + [DigitChar(n % 10)]
  }

  lemma {:induction false} DigitsRoundTrip(n: nat)
    ensures DigitsValue(NatToDigits(n)) == n
  {
    if n >= 10 {
      var r := NatToDigits(n);
      assert r[..|r| - 1] == NatToDigits(n / 10);
      DigitsRoundTrip(n / 10);
    }
  }

  /**
   * Tenths denoted by an unsigned decimal with at most one fractional digit:
   * digits, optionally followed by "." and at most one digit.
   */
  function ParseUnsignedTenths(s: string): Option<nat> {
    if |s| > 0 && AllDigits(s) then
      Some(10 * DigitsValue(s))
    else if |s| >= 2 && s[|s| - 1] == '.' && AllDigits(s[..|s| - 1]) then
      Some(10 * DigitsValue(s[..|s| - 1]))
    else if |s| >= 3 && s[|s| - 2] == '.' && IsDigit(s[|s| - 1]) && AllDigits(s[..|s| - 2]) then
      Some(10 * DigitsValue(s[..|s| - 2]) + DigitValue(s[|s| - 1]))
    else
      None
  }

  /** Tenths denoted by an optionally signed decimal with at most one fractional digit. */
  function ParseTenths(s: string): Option<int> {
    if |s| > 0 && s[0] == '-' then
      match ParseUnsignedTenths(s[1..])
      case Some(v) => Some(-(v as int))
      case None => None
    else if |s| > 0 && s[0] == '+' then
      match ParseUnsignedTenths(s[1..])
      case Some(v) => Some(v)
      case None => None
    else
      match ParseUnsignedTenths(s)
      case Some(v) => Some(v)
      case None => None
  }

  /** The tenths an unsigned spelling `ip + frac` denotes. */
  function SpelledTenths(ip: string, frac: string): nat
    requires AllDigits(ip)
    requires frac == "" || frac == "." || (|frac| == 2 && frac[0] == '.' && IsDigit(frac[1]))
  {
    10 * DigitsValue(ip) + (if |frac| == 2 then DigitValue(frac[1]) else 0)
  }

  lemma UnsignedTenthsOfSpelling(ip: string, frac: string)
    requires |ip| > 0 && AllDigits(ip)
    requires frac == "" || frac == "." || (|frac| == 2 && frac[0] == '.' && IsDigit(frac[1]))
    ensures ParseUnsignedTenths(ip + frac) == Some(SpelledTenths(ip, frac))
    ensures IsDigit((ip + frac)[0])
  {
    var u := ip + frac;
    if frac == "" {
      assert u == ip;
    } else if frac == "." {
      assert u[..|u| - 1] == ip;
      assert !AllDigits(u) by { assert !IsDigit(u[|u| - 1]); }
    } else {
      assert u[..|u| - 2] == ip;
      assert !AllDigits(u) by { assert !IsDigit(u[|u| - 2]); }
    }
  }

  /**
   * What an accepted spelling denotes: an optional sign, a non-empty run of digits `ip` and
   * an optional "." followed by at most one digit give the tenths +-(10 * ip + digit).
   */
  lemma ParseTenthsOfSpelling(sign: string, ip: string, frac: string)
    requires sign in {"", "+", "-"}
    requires |ip| > 0 && AllDigits(ip)
    requires frac == "" || frac == "." || (|frac| == 2 && frac[0] == '.' && IsDigit(frac[1]))
    ensures ParseTenths(sign + ip + frac)
      == Some(if sign == "-" then -(SpelledTenths(ip, frac) as int) else SpelledTenths(ip, frac) as int)
  {
    var u := ip + frac;
    UnsignedTenthsOfSpelling(ip, frac);
    assert sign + ip + frac == sign + u;
    if sign == "-" {
      assert ("-" + u)[1..] == u;
    } else if sign == "+" {
      assert ("+" + u)[1..] == u;
    } else {
      assert sign + u == u;
    }
  }

  /** `s` is spelled as a sign, a non-empty run of digits and an optional "." with at most one digit. */
  predicate IsSpelling(s: string, sign: string, ip: string, frac: string) {
    && sign in {"", "+", "-"}
    && |ip| > 0 && AllDigits(ip)
    && (frac == "" || frac == "." || (|frac| == 2 && frac[0] == '.' && IsDigit(frac[1])))
    && s == sign + ip + frac
  }

  lemma UnsignedAcceptedOnlySpellings(u: string)
    requires ParseUnsignedTenths(u) != None
    ensures exists ip, frac :: IsSpelling(u, "", ip, frac)
  {
    var ip, frac;
    if |u| > 0 && AllDigits(u) {
      ip, frac := u, "";
    } else if |u| >= 2 && u[|u| - 1] == '.' && AllDigits(u[..|u| - 1]) {
      ip, frac := u[..|u| - 1], ".";
    } else {
      ip, frac := u[..|u| - 2], u[|u| - 2..];
    }
    assert u == "" + ip + frac;
    assert IsSpelling(u, "", ip, frac);
  }

  /** Only such spellings are accepted: "", "nan", "1e3", " 5" and ".5" are all rejected. */
  lemma AcceptedOnlySpellings(s: string)
    requires ParseTenths(s) != None
    ensures exists sign, ip, frac :: IsSpelling(s, sign, ip, frac)
  {
    var sign := if |s| > 0 && s[0] in {'-', '+'} then [s[0]] else "";
    var u := s[|sign|..];
    assert s == sign + u;
    UnsignedAcceptedOnlySpellings(u);
    var ip, frac :| IsSpelling(u, "", ip, frac);
    assert s == sign + ip + frac;
    assert IsSpelling(s, sign, ip, frac);
  }

  /** `decimal1(arg)`: the integer the new value holds. */
  function Construct(arg: Argument): (r: Result<int, Error>)
    ensures arg.Wire? ==> r == Ok(arg.n)
    ensures arg.Flag? ==> r == Ok(if arg.b then 10 else 0)
    ensures arg.Text? ==> (r.Ok? <==> ParseTenths(arg.s) != None)
    ensures arg.Text? && r.Ok? ==> r.value == ParseTenths(arg.s).value
    ensures arg.Text? && r.Err? ==> r.error == NotADecimal(arg.s)
  {
    match arg
    case Wire(n) => Ok(n)
    case Flag(b) => Ok(if b then 10 else 0)
    case Text(s) =>
      match ParseTenths(s)
      case Some(v) => Ok(v)
      case None => Err(NotADecimal(s))
  }

  /** `str(d)` for a `decimal1` holding `n`: the value n / 10 with one fractional digit. */
  function Render(n: int): (r: string)
    ensures |r| >= 3 && r[|r| - 2] == '.'
    ensures IsDigit(r[|r| - 1]) && DigitValue(r[|r| - 1]) == (if n < 0 then -n else n) % 10
    ensures (r[0] == '-') <==> n < 0
    ensures var ip := r[(if n < 0 then 1 else 0)..|r| - 2];
      |ip| > 0 && AllDigits(ip) && (|ip| > 1 ==> ip[0] != '0')
  {
    var m := if n < 0 then -n else n;
    (if n < 0 then "-" else "") + NatToDigits(m / 10) + "." + [DigitChar(m % 10)]
  }

  /** Reading back the rendering of any `decimal1` gives the same integer. */
  lemma RenderRoundTrip(n: int)
    ensures ParseTenths(Render(n)) == Some(n)
    ensures Construct(Text(Render(n))) == Ok(n)
  {
    var m := if n < 0 then -n else n;
    var digits := NatToDigits(m / 10);
    var unsigned := digits + "." + [DigitChar(m % 10)];
    DigitsRoundTrip(m / 10);
    assert unsigned[..|unsigned| - 2] == digits;
    assert !AllDigits(unsigned) by {
      assert !IsDigit(unsigned[|unsigned| - 2]);
    }
    assert ParseUnsignedTenths(unsigned) == Some(m);
    if n < 0 {
      assert Render(n) == "-" + unsigned;
      assert Render(n)[1..] == unsigned;
    } else {
      assert Render(n) == unsigned;
      assert IsDigit(unsigned[0]);
    }
  }

  /**
   * The asymmetry of the constructor: the written text of a value and the wire integer of
   * the same value construct the same `decimal1`, while the same digits given as an int
   * stay unscaled.
   */
  lemma WrittenAndWireAgree(n: int)
    ensures Construct(Text(Render(n))) == Construct(Wire(n)) == Ok(n)
  {
    RenderRoundTrip(n);
  }

  /** A written whole number is scaled by ten: `decimal1("39") == 390`. */
  lemma WrittenIntegerScaled(k: int)
    ensures Construct(Text(if k < 0 then "-" + NatToDigits(-k) else NatToDigits(k))) == Ok(10 * k)
  {
    var m := if k < 0 then -k else k;
    DigitsRoundTrip(m);
    var digits := NatToDigits(m);
    if k < 0 {
      assert ("-" + digits)[1..] == digits;
    } else {
      assert IsDigit(digits[0]);
    }
  }

  /** A written bool is scaled by ten: `decimal1(True) == 10`, `decimal1(False) == 0`. */
  lemma FlagScaled(b: bool)
    ensures Construct(Flag(b)) == Ok(if b then 10 else 0)
    ensures Construct(Flag(b)) == Construct(Text(if b then "1" else "0"))
  {
    var s := if b then "1" else "0";
    assert AllDigits(s) && DigitsValue(s) == (if b then 1 else 0) by {
      assert s[..0] == [];
    }
  }

  /** The examples beside the attribute declarations: 390 renders as "39.0", 6 as "0.6". */
  lemma Examples()
    ensures Construct(Text("39.0")) == Ok(390) && Render(390) == "39.0"
    ensures Construct(Wire(390)) == Ok(390)
    ensures Render(6) == "0.6"
  {
    assert NatToDigits(3) == "3" && NatToDigits(0) == "0";
    assert NatToDigits(39) == "39";
    assert Render(390) == "39.0";
    RenderRoundTrip(390);
  }
}
