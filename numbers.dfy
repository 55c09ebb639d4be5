/** Decimal number parsing in the manner of JavaScript's `Number.parseFloat`
    and `parseInt`: leading white space is skipped and the longest numeric
    prefix is read; `None` stands for `NaN`. */
module Numbers {
  import opened Values

  predicate IsDigit(c: char) { '0' <= c <= '9' }

  predicate IsSpace(c: char) { c == ' ' || c == '\t' || c == '\n' || c == '\r' }

  predicate AllDigits(s: string) { forall i :: 0 <= i < |s| ==> IsDigit(s[i]) }

  function DigitValue(c: char): (d: nat)
    requires IsDigit(c)
    ensures d < 10
  {
    (c as int) - ('0' as int)
  }

  function DigitChar(d: nat): (c: char)
    requires d < 10
    ensures IsDigit(c) && DigitValue(c) == d
  {
    (('0' as int) + d) as char
  }

  /** The string with its leading white space removed. */
  function TrimStart(s: string): (r: string)
    ensures |r| <= |s|
    ensures r == [] || !IsSpace(r[0])
  {
    if s != [] && IsSpace(s[0]) then TrimStart(s[1..]) else s
  }

  /** What is left is a suffix of the string. */
  lemma {:induction false} TrimStartSuffix(s: string)
    ensures TrimStart(s) == s[|s| - |TrimStart(s)|..]
  {
    if s != [] && IsSpace(s[0]) {
      TrimStartSuffix(s[1..]);
    }
  }

  /** Length of the run of digits that starts `s`. */
  function DigitRun(s: string): (n: nat)
    ensures n <= |s| && AllDigits(s[..n])
    ensures n < |s| ==> !IsDigit(s[n])
  {
    if s != [] && IsDigit(s[0]) then
      var n := 1 + DigitRun(s[1..]);
      assert forall i :: 1 <= i < n ==> s[..n][i] == s[1..][..n - 1][i - 1];
      n
    else 0
  }

  /** The value of a string of decimal digits, most significant first. */
  function DigitsValue(s: string): nat
    requires AllDigits(s)
  {
    if s == [] then 0 else 10 * DigitsValue(s[..|s| - 1]) + DigitValue(s[|s| - 1])
  }

  /** The value of the digits of a fraction, `0.d1d2...`: each digit weighs a
      tenth of the one before. */
  function FractionValue(s: string): (v: real)
    requires AllDigits(s)
    ensures 0.0 <= v < 1.0
  {
    if s == [] then 0.0 else (DigitValue(s[0]) as real + FractionValue(s[1..])) / 10.0
  }

  /** Whether a numeric literal starts with a minus sign, and what follows its
      sign. */
  function SignOf(s: string): (r: (bool, string))
    ensures r.1 == s || (s != [] && r.1 == s[1..])
  {
    if s != [] && s[0] == '-' then (true, s[1..])
    else if s != [] && s[0] == '+' then (false, s[1..])
    else (false, s)
  }

  /** An unsigned decimal literal at the start of `u`: digits with an optional
      fraction, or a fraction alone; `None` when `u` starts with neither. */
  function UnsignedFloat(u: string): Option<real>
  {
    var k := DigitRun(u);
    if k < |u| && u[k] == '.' then
      var frac := u[k + 1..];
      var m := DigitRun(frac);
      if k == 0 && m == 0 then None
      else Some(DigitsValue(u[..k]) as real + FractionValue(frac[..m]))
    else if k == 0 then None
    else Some(DigitsValue(u[..k]) as real)
  }

  /** `Number.parseFloat(s)` restricted to plain decimal literals
      (`[+-]digits[.digits]` or `[+-].digits`); `None` is `NaN`. */
  function ParseFloat(s: string): Option<real>
  {
    var (negative, u) := SignOf(TrimStart(s));
    match UnsignedFloat(u)
    case None => None
    case Some(v) => Some(if negative then -v else v)
  }

  predicate IsHexDigit(c: char) { IsDigit(c) || 'a' <= c <= 'f' || 'A' <= c <= 'F' }

  predicate AllHexDigits(s: string) { forall i :: 0 <= i < |s| ==> IsHexDigit(s[i]) }

  function HexDigitValue(c: char): (d: nat)
    requires IsHexDigit(c)
    ensures d < 16
    ensures IsDigit(c) ==> d == DigitValue(c)
  {
    if IsDigit(c) then DigitValue(c)
    else if 'a' <= c <= 'f' then (c as int) - ('a' as int) + 10
    else (c as int) - ('A' as int) + 10
  }

  /** Length of the run of hexadecimal digits that starts `s`. */
  function HexRun(s: string): (n: nat)
    ensures n <= |s| && AllHexDigits(s[..n])
    ensures n < |s| ==> !IsHexDigit(s[n])
  {
    if s != [] && IsHexDigit(s[0]) then
      var n := 1 + HexRun(s[1..]);
      assert forall i :: 1 <= i < n ==> s[..n][i] == s[1..][..n - 1][i - 1];
      n
    else 0
  }

  /** The value of a string of hexadecimal digits, most significant first. */
  function HexValue(s: string): nat
    requires AllHexDigits(s)
  {
    if s == [] then 0 else 16 * HexValue(s[..|s| - 1]) + HexDigitValue(s[|s| - 1])
  }

  /** Whether an unsigned literal is written in hexadecimal, `0x` or `0X`
      first. */
  predicate HasHexPrefix(u: string) {
    |u| >= 2 && u[0] == '0' && (u[1] == 'x' || u[1] == 'X')
  }

  /** An unsigned integer literal at the start of `u`: hexadecimal digits
      after a `0x`/`0X` prefix, decimal digits otherwise; `None` when no digit
      of that base follows. */
  function UnsignedInt(u: string): Option<nat>
  {
    if HasHexPrefix(u) then
      var k := HexRun(u[2..]);
      if k == 0 then None else Some(HexValue(u[2..][..k]))
    else
      var k := DigitRun(u);
      if k == 0 then None else Some(DigitsValue(u[..k]))
  }

  /** `parseInt(s)` without a radix: base sixteen after a `0x`/`0X` prefix,
      base ten otherwise; `None` is `NaN`. */
  function ParseInt(s: string): Option<int>
  {
    var (negative, u) := SignOf(TrimStart(s));
    match UnsignedInt(u)
    case None => None
    case Some(v) => Some(if negative then -(v as int) else v as int)
  }

  /** A string of hexadecimal digits is read whole by `HexRun`. */
  lemma HexRunOfHexDigits(s: string)
    requires AllHexDigits(s)
    ensures HexRun(s) == |s|
  {
  }

  /** Behind `0x` or `0X`, a non-empty string of hexadecimal digits is read
      whole, in base sixteen, by `parseInt`; `parseFloat` stops at the `x` and
      reads 0. */
  lemma ParseOfHexDigits(s: string, x: char)
    requires s != [] && AllHexDigits(s) && (x == 'x' || x == 'X')
    ensures ParseInt(['0', x] + s) == Some(HexValue(s))
    ensures ParseFloat(['0', x] + s) == Some(0.0)
  {
    var t := ['0', x] + s;
    assert t[2..] == s && t[..1] == "0";
    assert TrimStart(t) == t && SignOf(t) == (false, t);
    HexRunOfHexDigits(s);
    assert s[..|s|] == s;
    assert DigitRun(t) == 1;
    assert DigitsValue("0") == 0;
  }

  /** `parseInt("0x10")` is sixteen. */
  lemma ParseIntHexExample()
    ensures ParseInt("0x10") == Some(16)
  {
    ParseOfHexDigits("10", 'x');
    assert ['0', 'x'] + "10" == "0x10";
    assert "10"[..1] == "1";
    assert HexValue("10") == 16;
  }

  /** The decimal notation of `n`, as `String(n)` writes it. */
  function NatToString(n: nat): (s: string)
    ensures s != [] && AllDigits(s)
  {
    if n < 10 then [DigitChar(n)]
    else
      var s := NatToString(n / 10) + [DigitChar(n % 10)];
      assert forall i :: 0 <= i < |s| - 1 ==> s[i] == NatToString(n / 10)[i];
      s
  }

  /** Reading back the decimal notation of `n` gives `n`. */
  lemma {:induction false} DigitsValueOfNatToString(n: nat)
    ensures DigitsValue(NatToString(n)) == n
  {
    if n >= 10 {
      var s := NatToString(n);
      assert s[..|s| - 1] == NatToString(n / 10);
      DigitsValueOfNatToString(n / 10);
    }
  }

  /** A string of digits is read whole by `DigitRun`. */
  lemma DigitRunOfDigits(s: string)
    requires AllDigits(s)
    ensures DigitRun(s) == |s|
  {
  }

  /** The unsigned part of a literal made of digits only is their value. */
  lemma UnsignedOfDigits(s: string)
    requires s != [] && AllDigits(s)
    ensures UnsignedFloat(s) == Some(DigitsValue(s) as real)
    ensures DigitRun(s) == |s| && s[..DigitRun(s)] == s
  {
    DigitRunOfDigits(s);
    assert s[..|s|] == s;
  }

  /** A non-empty string of decimal digits has no hexadecimal prefix, and is
      read whole as a decimal integer. */
  lemma UnsignedIntOfDigits(s: string)
    requires s != [] && AllDigits(s)
    ensures UnsignedInt(s) == Some(DigitsValue(s))
  {
    if |s| >= 2 {
      assert IsDigit(s[1]);
    }
    DigitRunOfDigits(s);
    assert s[..|s|] == s;
  }

  /** A string of digits carries no sign and no leading white space. */
  lemma SignOfDigits(s: string)
    requires s != [] && AllDigits(s)
    ensures SignOf(TrimStart(s)) == (false, s)
  {
    assert IsDigit(s[0]);
    assert TrimStart(s) == s;
  }

  /** A non-empty string of digits is read whole, by both parsers. */
  lemma ParseOfDigits(s: string)
    requires s != [] && AllDigits(s)
    ensures ParseInt(s) == Some(DigitsValue(s))
    ensures ParseFloat(s) == Some(DigitsValue(s) as real)
  {
    UnsignedOfDigits(s);
    UnsignedIntOfDigits(s);
    SignOfDigits(s);
  }

  /** ... and so it is behind a minus sign. */
  lemma ParseOfNegatedDigits(s: string)
    requires s != [] && AllDigits(s)
    ensures ParseInt("-" + s) == Some(-(DigitsValue(s) as int))
    ensures ParseFloat("-" + s) == Some(-(DigitsValue(s) as real))
  {
    IntOfNegatedDigits(s);
    FloatOfNegatedDigits(s);
  }

  lemma IntOfNegatedDigits(s: string)
    requires s != [] && AllDigits(s)
    ensures ParseInt("-" + s) == Some(-(DigitsValue(s) as int))
  {
    NegatedSign(s);
    UnsignedIntOfDigits(s);
  }

  lemma FloatOfNegatedDigits(s: string)
    requires s != [] && AllDigits(s)
    ensures ParseFloat("-" + s) == Some(-(DigitsValue(s) as real))
  {
    NegatedSign(s);
    UnsignedOfDigits(s);
  }

  /** A leading minus sign is read as such, and what follows it is the rest. */
  lemma NegatedSign(s: string)
    ensures SignOf(TrimStart("-" + s)) == (true, s)
  {
    var t := "-" + s;
    assert t[0] == '-' && t[1..] == s;
  }

  /** `parseInt` and `parseFloat` read back the decimal notation of a natural
      number. */
  lemma ParseOfNatToString(n: nat)
    ensures ParseInt(NatToString(n)) == Some(n)
    ensures ParseFloat(NatToString(n)) == Some(n as real)
  {
    var s := NatToString(n);
    DigitsValueOfNatToString(n);
    ParseOfDigits(s);
  }

  /** A string that starts with anything but white space, a sign, a digit or a
      point is `NaN` to both parsers. */
  lemma NotANumber(s: string)
    requires s != [] && !IsSpace(s[0]) && !IsDigit(s[0]) && s[0] !in "+-."
    ensures ParseFloat(s) == None && ParseInt(s) == None
  {
  }
}
