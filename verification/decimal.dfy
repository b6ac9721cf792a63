/** Decimal digit strings: their value, `String(n)` for integers, `padStart`
    with zeros, and `parseInt(s, 10)`. */
module Decimal {
  import opened Domain
  import opened JsText

  predicate IsDigit(c: char)
  {
    '0' <= c <= '9'
  }

  predicate IsDigits(s: string)
  {
    forall i | 0 <= i < |s| :: IsDigit(s[i])
  }

  function DigitValue(c: char): nat
    requires IsDigit(c)
  {
    c as int - '0' as int
  }

  function DigitChar(d: nat): char
    requires d < 10
  {
    ('0' as int + d) as char
  }

  function Pow10(n: nat): (p: nat)
    ensures p >= 1
  {
    if n == 0 then 1 else 10 * Pow10(n - 1)
  }

  /** The number a digit string denotes, most significant digit first. */
  function DecimalValue(s: string): nat
    requires IsDigits(s)
  {
    if |s| == 0 then 0 else 10 * DecimalValue(s[..|s| - 1]) + DigitValue(s[|s| - 1])
  }

  /** `String(n)` for a non-negative integer: shortest decimal form. */
  function ToDecimal(n: nat): (s: string)
    ensures IsDigits(s) && |s| >= 1
    ensures DecimalValue(s) == n
    ensures s[0] == '0' ==> n == 0
    ensures n == 0 ==> s == "0"
  {
    if n < 10 then [DigitChar(n)]
    else
      var prefix := ToDecimal(n / 10);
      var s := prefix + [DigitChar(n % 10)];
      assert s[..|s| - 1] == prefix;
      s
  }

  /** `String(i)` for any integer. */
  function IntToString(i: int): string
  {
    if i < 0 then "-" + ToDecimal(-i) else ToDecimal(i)
  }

  /** `s.padStart(width, c)`. */
  function PadStart(s: string, width: nat, c: char): (r: string)
    ensures |r| == if |s| >= width then |s| else width
    ensures r[|r| - |s|..] == s
    ensures forall i | 0 <= i < |r| - |s| :: r[i] == c
  {
    if |s| >= width then s else seq(width - |s|, _ => c) + s
  }

  /** The longest prefix of `s` made of digits. */
  function DigitPrefix(s: string): (d: string)
    ensures |d| <= |s| && d == s[..|d|] && IsDigits(d)
    ensures |d| == |s| || !IsDigit(s[|d|])
  {
    if |s| > 0 && IsDigit(s[0]) then
      var rest := DigitPrefix(s[1..]);
      assert [s[0]] + rest == s[..1 + |rest|];
      [s[0]] + rest
    else []
  }

  /** `parseInt(s, 10)`: skip leading white space, accept one sign, read the
      longest run of digits; `None` stands for NaN. A negative zero is just 0. */
  function ParseInt(s: string): Option<int>
  {
    ReadSigned(TrimStart(s))
  }

  /** The part of `parseInt` after the white space: an optional sign and the
      longest run of digits. */
  function ReadSigned(t: string): Option<int>
  {
    var unsigned := if |t| > 0 && (t[0] == '-' || t[0] == '+') then t[1..] else t;
    var digits := DigitPrefix(unsigned);
    if digits == [] then None
    else if t[0] == '-' then Some(-(DecimalValue(digits) as int))
    else Some(DecimalValue(digits))
  }

  /** The magnitude `parseInt` reads never has more digits than the text
      holds, and a sign takes one of them. */
  lemma ParseIntBound(s: string)
    ensures ParseInt(s).Some? && ParseInt(s).value >= 0 ==> ParseInt(s).value < Pow10(|s|)
    ensures ParseInt(s).Some? && ParseInt(s).value < 0 ==> |s| >= 1 && -ParseInt(s).value < Pow10(|s| - 1)
  {
    var t := TrimStart(s);
    ReadSignedBound(t);
    Pow10Monotone(|t|, |s|);
    if |t| >= 1 {
      Pow10Monotone(|t| - 1, |s| - 1);
    }
  }

  lemma ReadSignedBound(t: string)
    ensures ReadSigned(t).Some? && ReadSigned(t).value >= 0 ==> ReadSigned(t).value < Pow10(|t|)
    ensures ReadSigned(t).Some? && ReadSigned(t).value < 0 ==> |t| >= 1 && -ReadSigned(t).value < Pow10(|t| - 1)
  {
    var unsigned := if |t| > 0 && (t[0] == '-' || t[0] == '+') then t[1..] else t;
    var digits := DigitPrefix(unsigned);
    DecimalValueBound(digits);
    Pow10Monotone(|digits|, |t|);
    if digits != [] && t[0] == '-' {
      Pow10Monotone(|digits|, |t| - 1);
    }
  }

  lemma Pow10Monotone(m: nat, n: nat)
    requires m <= n
    ensures Pow10(m) <= Pow10(n)
  {
  }

  /** A digit string of length n denotes a number below 10^n. */
  lemma {:induction false} DecimalValueBound(s: string)
    requires IsDigits(s)
    ensures DecimalValue(s) < Pow10(|s|)
  {
    if |s| > 0 {
      DecimalValueBound(s[..|s| - 1]);
    }
  }

  /** Splitting a digit string splits its value positionally. */
  lemma {:induction false} DecimalValueAppend(a: string, b: string)
    requires IsDigits(a) && IsDigits(b)
    ensures IsDigits(a + b)
    ensures DecimalValue(a + b) == DecimalValue(a) * Pow10(|b|) + DecimalValue(b)
    decreases |b|
  {
    if |b| == 0 {
      assert a + b == a;
    } else {
      var ab := a + b;
      var b' := b[..|b| - 1];
      var d := DigitValue(b[|b| - 1]);
      assert ab[..|ab| - 1] == a + b';
      assert ab[|ab| - 1] == b[|b| - 1];
      DecimalValueAppend(a, b');
      var va, vb', p := DecimalValue(a), DecimalValue(b'), Pow10(|b'|);
      assert DecimalValue(ab) == 10 * (va * p + vb') + d;
      assert DecimalValue(b) == 10 * vb' + d;
      assert Pow10(|b|) == 10 * p;
      MulShift(va, p);
    }
  }

  lemma MulShift(x: nat, p: nat)
    ensures 10 * (x * p) == x * (10 * p)
  {
  }

  /** Leading zeros do not change the value. */
  lemma LeadingZeros(z: string, s: string)
    requires forall i | 0 <= i < |z| :: z[i] == '0'
    requires IsDigits(s)
    ensures IsDigits(z + s) && DecimalValue(z + s) == DecimalValue(s)
  {
    assert DecimalValue(z) == 0 by { ZerosValue(z); }
    DecimalValueAppend(z, s);
  }

  lemma {:induction false} ZerosValue(z: string)
    requires forall i | 0 <= i < |z| :: z[i] == '0'
    ensures IsDigits(z) && DecimalValue(z) == 0
  {
    if |z| > 0 {
      ZerosValue(z[..|z| - 1]);
    }
  }

  /** For two digit strings of the same width, JavaScript's string `<` is the
      numeric `<` of the numbers they denote. */
  lemma {:induction false} LessIsNumeric(a: string, b: string)
    requires IsDigits(a) && IsDigits(b) && |a| == |b|
    ensures Less(a, b) <==> DecimalValue(a) < DecimalValue(b)
    decreases |a|
  {
    if |a| > 0 {
      var p := Pow10(|a| - 1);
      var da, va := FrontDigit(a);
      var db, vb := FrontDigit(b);
      if a[0] == b[0] {
        LessIsNumeric(a[1..], b[1..]);
      } else if a[0] < b[0] {
        FrontDigitDominates(da, db, va, vb, p);
      } else {
        FrontDigitDominates(db, da, vb, va, p);
      }
    }
  }

  /** A non-empty digit string is its first digit times 10^(n-1) plus the value of the rest. */
  lemma FrontDigit(s: string) returns (d: nat, v: nat)
    requires IsDigits(s) && |s| > 0
    ensures d == DigitValue(s[0]) && v == DecimalValue(s[1..])
    ensures v < Pow10(|s| - 1)
    ensures DecimalValue(s) == d * Pow10(|s| - 1) + v
  {
    d, v := DigitValue(s[0]), DecimalValue(s[1..]);
    assert s == [s[0]] + s[1..];
    DecimalValueAppend([s[0]], s[1..]);
    assert DecimalValue([s[0]]) == d by { assert [s[0]][..0] == []; }
    DecimalValueBound(s[1..]);
  }

  lemma FrontDigitDominates(da: nat, db: nat, va: nat, vb: nat, p: nat)
    requires da < db && va < p
    ensures da * p + va < db * p + vb
  {
    assert (da + 1) * p <= db * p;
  }

  /** Equal width and equal value means the same digit string. */
  lemma DecimalValueInjective(a: string, b: string)
    requires IsDigits(a) && IsDigits(b) && |a| == |b|
    requires DecimalValue(a) == DecimalValue(b)
    ensures a == b
  {
    LessIsNumeric(a, b);
    LessIsNumeric(b, a);
    LessTrichotomy(a, b);
  }

  /** A number below 10^w has at most w digits. */
  lemma {:induction false} ToDecimalWidth(n: nat, w: nat)
    requires 1 <= w && n < Pow10(w)
    ensures |ToDecimal(n)| <= w
  {
    if n >= 10 {
      ToDecimalWidth(n / 10, w - 1);
    }
  }

  /** Re-printing the value of a digit string zero-padded to its own width
      gives the string back. */
  lemma PadRoundTrip(s: string)
    requires IsDigits(s) && |s| >= 1
    ensures PadStart(ToDecimal(DecimalValue(s)), |s|, '0') == s
  {
    var n := DecimalValue(s);
    var t := ToDecimal(n);
    assert |t| <= |s| by {
      DecimalValueBound(s);
      ToDecimalWidth(n, |s|);
    }
    ZeroPadded(t, |s|);
    DecimalValueInjective(PadStart(t, |s|, '0'), s);
  }

  /** Zero-padding a digit string to a width it fits in keeps its value. */
  lemma ZeroPadded(t: string, w: nat)
    requires IsDigits(t) && |t| <= w
    ensures var r := PadStart(t, w, '0');
      |r| == w && IsDigits(r) && DecimalValue(r) == DecimalValue(t)
  {
    var r := PadStart(t, w, '0');
    var z := r[..|r| - |t|];
    assert r == z + t;
    LeadingZeros(z, t);
  }

  /** `parseInt` reads a plain digit string as its decimal value. */
  lemma ParseIntOfDigits(s: string)
    requires IsDigits(s) && |s| >= 1
    ensures ParseInt(s) == Some(DecimalValue(s))
  {
    assert TrimStart(s) == s by {
      assert IsDigit(s[0]);
    }
    DigitPrefixOfDigits(s);
    assert !(s[0] == '-' || s[0] == '+');
  }

  /** A minus sign followed by digits reads as the negated value. */
  lemma ParseIntOfNegative(t: string)
    requires |t| >= 2 && t[0] == '-' && IsDigits(t[1..])
    ensures ParseInt(t) == Some(-(DecimalValue(t[1..]) as int))
  {
    assert TrimStart(t) == t;
    var digits := t[1..];
    DigitPrefixOfDigits(digits);
  }

  lemma DigitPrefixOfDigits(s: string)
    requires IsDigits(s)
    ensures DigitPrefix(s) == s
  {
    var d := DigitPrefix(s);
    assert |d| == |s|;
  }
}
