/**
 * JavaScript's `parseInt(text)` (no radix argument) and the decimal rendering
 * of an integer (`Number.prototype.toString`, template literals,
 * `String.prototype.padStart`), on unbounded integers.
 */
module JsNumber {
  import opened Wrappers
  import opened JsString

  /** A digit in base 10 or base 16 (letters in either case). */
  predicate IsRadixDigit(c: char, radix: int) {
    if radix == 16 then IsDigit(c) || ('a' <= c <= 'f') || ('A' <= c <= 'F') else IsDigit(c)
  }

  function RadixDigitValue(c: char, radix: int): (v: nat)
    requires IsRadixDigit(c, radix)
    ensures v < (if radix == 16 then 16 else 10)
  {
    if IsDigit(c) then c as int - '0' as int
    else if 'a' <= c <= 'f' then c as int - 'a' as int + 10
    else c as int - 'A' as int + 10
  }

  predicate AllRadixDigits(ds: string, radix: int) {
    forall i | 0 <= i < |ds| :: IsRadixDigit(ds[i], radix)
  }

  /** The value of a digit string, most significant digit first. */
  function DigitsValue(ds: string, radix: int): nat
    requires radix == 10 || radix == 16
    requires AllRadixDigits(ds, radix)
  {
    if ds == [] then 0
    else
      var high := DigitsValue(ds[..|ds| - 1], radix);
      var low := RadixDigitValue(ds[|ds| - 1], radix);
      if radix == 16 then high * 16 + low else high * 10 + low
  }

  /** The value of a decimal digit string. */
  function DecimalValue(ds: string): nat
    requires AllDigits(ds)
  {
    assert AllRadixDigits(ds, 10);
    DigitsValue(ds, 10)
  }

  /** The longest prefix of `s` made of digits of the radix. */
  function DigitPrefix(s: string, radix: int): (ds: string)
    ensures |ds| <= |s| && ds == s[..|ds|]
    ensures AllRadixDigits(ds, radix)
    ensures |ds| == |s| || !IsRadixDigit(s[|ds|], radix)
  {
    if s != [] && IsRadixDigit(s[0], radix) then
      var rest := DigitPrefix(s[1..], radix);
      assert [s[0]] + rest == s[..|rest| + 1];
      [s[0]] + rest
    else []
  }

  /** `0x` or `0X`, which `parseInt` reads as the start of a hexadecimal number. */
  predicate HasHexPrefix(u: string) {
    |u| >= 2 && u[0] == '0' && (u[1] == 'x' || u[1] == 'X')
  }

  /** An optional leading sign: whether it was `-`, and the text after it. */
  function StripSign(t: string): (r: (bool, string))
    ensures r.1 == t || (t != [] && r.1 == t[1..])
  {
    if |t| > 0 && (t[0] == '-' || t[0] == '+') then (t[0] == '-', t[1..]) else (false, t)
  }

  /** The radix `parseInt` settles on, and the text after a `0x` prefix if there is one. */
  function StripHexPrefix(u: string): (r: (int, string))
    ensures r.0 == 10 || r.0 == 16
    ensures r.0 == 10 ==> r.1 == u
    ensures r.0 == 16 ==> |u| >= 2 && IsDigit(u[0]) && r.1 == u[2..]
  {
    if HasHexPrefix(u) then (16, u[2..]) else (10, u)
  }

  /**
   * `parseInt(s)`: skip leading white space, read an optional sign and an
   * optional hexadecimal prefix, then read the longest run of digits and ignore
   * whatever follows. NaN (no digits at all) is `None`.
   */
  function ParseInt(s: string): (r: Option<int>)
  {
    var t := TrimStart(s);
    var (negative, u) := StripSign(t);
    var (radix, v) := StripHexPrefix(u);
    var ds := DigitPrefix(v, radix);
    if ds == [] then None
    else
      var m: int := DigitsValue(ds, radix);
      Some(if negative then 0 - m else m)
  }

  /** A run of decimal digits followed by text that cannot continue the number. */
  predicate EndsNumber(rest: string) {
    rest == [] || !(IsDigit(rest[0]) || rest[0] == 'x' || rest[0] == 'X')
  }

  /** `parseInt` reads a leading run of decimal digits and ignores what follows it. */
  lemma ParseIntDigitsThen(ds: string, rest: string)
    requires ds != [] && AllDigits(ds) && EndsNumber(rest)
    ensures ParseInt(ds + rest) == Some(DecimalValue(ds))
  {
    var s := ds + rest;
    assert s[0] == ds[0];
    assert !HasHexPrefix(s) by {
      if |ds| >= 2 { assert s[1] == ds[1]; } else if |s| >= 2 { assert s[1] == rest[0]; }
    }
    DigitPrefixOf(ds, rest);
    ParseIntUnsigned(s);
  }

  /** Decimal digits alone read as their value. */
  lemma ParseIntOfDigits(ds: string)
    requires ds != [] && AllDigits(ds)
    ensures ParseInt(ds) == Some(DecimalValue(ds))
  {
    ParseIntDigitsThen(ds, "");
    assert ds + "" == ds;
  }

  /** Text with no leading space, sign or `0x` reads as its leading decimal digits. */
  lemma ParseIntUnsigned(s: string)
    requires s != [] && IsDigit(s[0]) && !HasHexPrefix(s)
    ensures var ds := DigitPrefix(s, 10);
      AllDigits(ds) && ParseInt(s) == Some(DecimalValue(ds))
  {
    var ds := DigitPrefix(s, 10);
    assert ds != [];
    assert TrimStart(s) == s;
    assert StripSign(s) == (false, s);
    assert StripHexPrefix(s) == (10, s);
  }

  lemma {:induction false} DigitPrefixOf(ds: string, rest: string)
    requires AllDigits(ds) && (rest == [] || !IsDigit(rest[0]))
    ensures DigitPrefix(ds + rest, 10) == ds
  {
    if ds != [] {
      assert (ds + rest)[1..] == ds[1..] + rest;
      DigitPrefixOf(ds[1..], rest);
    } else {
      assert ds + rest == rest;
    }
  }

  /** A string with no decimal digit is NaN to `parseInt`. */
  lemma ParseIntNoDigit(s: string)
    requires forall i | 0 <= i < |s| :: !IsDigit(s[i])
    ensures ParseInt(s) == None
  {
  }

  function DigitChar(d: nat): (c: char)
    requires d < 10
    ensures IsDigit(c) && c as int - '0' as int == d
  {
    ('0' as int + d) as char
  }

  /** The decimal rendering of a non-negative integer, without leading zeros. */
  function NatToString(n: nat): (s: string)
    ensures s != [] && AllDigits(s)
    ensures |s| > 1 ==> s[0] != '0'
  {
    if n < 10 then [DigitChar(n)] else NatToString(n / 10) + [DigitChar(n % 10)]
  }

  /** `String(n)` / `n.toString()` for an integer. */
  function IntToString(n: int): (s: string)
    ensures s != []
  {
    if n < 0 then "-" + NatToString(-n) else NatToString(n)
  }

  /** Reading back a rendered natural number gives the number. */
  lemma {:induction false} DecimalValueOfNatToString(n: nat)
    ensures DecimalValue(NatToString(n)) == n
  {
    var s := NatToString(n);
    assert AllRadixDigits(s, 10);
    if n >= 10 {
      DecimalValueOfNatToString(n / 10);
      var p := NatToString(n / 10);
      assert s[..|s| - 1] == p;
      assert AllRadixDigits(p, 10);
      assert RadixDigitValue(s[|s| - 1], 10) == n % 10;
      calc {
        DecimalValue(s);
        DigitsValue(s, 10);
        DigitsValue(p, 10) * 10 + n % 10;
        (n / 10) * 10 + n % 10;
        n;
      }
    } else {
      assert DigitsValue(s, 10) == DigitsValue([], 10) * 10 + n;
    }
  }

  /** `parseInt(String(n)) == n` for every integer `n`. */
  lemma ParseIntOfIntToString(n: int)
    ensures ParseInt(IntToString(n)) == Some(n)
  {
    if n >= 0 {
      var ds := NatToString(n);
      assert ParseInt(ds) == Some(DecimalValue(ds)) by {
        ParseIntDigitsThen(ds, "");
        assert ds + "" == ds;
      }
      DecimalValueOfNatToString(n);
    } else {
      ParseIntOfNegative(NatToString(-n));
      DecimalValueOfNatToString(-n);
    }
  }

  /** A minus sign followed by decimal digits reads as the negated value. */
  lemma ParseIntOfNegative(ds: string)
    requires ds != [] && AllDigits(ds)
    ensures ParseInt("-" + ds) == Some(0 - DecimalValue(ds))
  {
    var s := "-" + ds;
    assert TrimStart(s) == s;
    StripSignMinus(ds);
    StripHexPrefixOfDigits(ds);
    DigitPrefixOfDigits(ds);
    assert AllRadixDigits(ds, 10);
  }

  /** A plus sign followed by decimal digits reads as the value itself. */
  lemma ParseIntOfPlus(ds: string)
    requires ds != [] && AllDigits(ds)
    ensures ParseInt("+" + ds) == Some(DecimalValue(ds))
  {
    var s := "+" + ds;
    assert TrimStart(s) == s;
    assert s[1..] == ds;
    assert StripSign(s) == (false, ds);
    StripHexPrefixOfDigits(ds);
    DigitPrefixOfDigits(ds);
    assert AllRadixDigits(ds, 10);
  }

  lemma StripSignMinus(ds: string)
    ensures StripSign("-" + ds) == (true, ds)
  {
    assert ("-" + ds)[1..] == ds;
  }

  /** Digits never start a `0x` prefix, so the radix stays ten. */
  lemma StripHexPrefixOfDigits(ds: string)
    requires AllDigits(ds)
    ensures StripHexPrefix(ds) == (10, ds)
  {
    if |ds| >= 2 { assert IsDigit(ds[1]); }
  }

  lemma DigitPrefixOfDigits(ds: string)
    requires AllDigits(ds)
    ensures DigitPrefix(ds, 10) == ds
  {
    DigitPrefixOf(ds, "");
    assert ds + "" == ds;
  }

  /** Distinct integers render differently. */
  lemma IntToStringInjective(a: int, b: int)
    requires IntToString(a) == IntToString(b)
    ensures a == b
  {
    ParseIntOfIntToString(a);
    ParseIntOfIntToString(b);
  }

  /** Distinct natural numbers render differently. */
  lemma NatToStringInjective(a: nat, b: nat)
    requires NatToString(a) == NatToString(b)
    ensures a == b
  {
    DecimalValueOfNatToString(a);
    DecimalValueOfNatToString(b);
  }

  /** `String(n).padStart(2, '0')` for a natural number. */
  function PadStart2(n: nat): string {
    if n < 10 then "0" + NatToString(n) else NatToString(n)
  }

  /** The padded text is at least two digits long and reads back as the number; below 100 it is exactly two. */
  lemma PadStart2Digits(n: nat)
    ensures var s := PadStart2(n);
      |s| >= 2 && AllDigits(s) && (n < 100 ==> |s| == 2 && DecimalValue(s) == n)
  {
    DecimalValueOfNatToString(n);
    if n < 10 {
      var s := PadStart2(n);
      assert s[1..] == NatToString(n) && s[..1] == "0";
      assert AllRadixDigits(s, 10);
      assert DigitsValue(s[..1], 10) == 0;
    }
  }
}
