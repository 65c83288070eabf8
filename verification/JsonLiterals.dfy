/**
 What a number literal denotes, by section 6 of RFC 8259: an optional minus, digits without a
 leading zero, and optionally a fraction and a power of ten. The number texts of JsonNumbers
 are such literals and denote the numbers they are written for.
 */
module JsonLiterals {
  import opened Wrappers
  import opened Decimals
  import opened JsonNumbers

  // ----- the parts of a literal -------------------------------------------------------------------

  /** Where one of the marks first stands, or the end. */
  function Find(s: string, marks: string): (k: nat)
    ensures k <= |s| && (k < |s| ==> s[k] in marks)
    ensures forall i :: 0 <= i < k ==> s[i] !in marks
  {
    if s == "" || s[0] in marks then 0 else 1 + Find(s[1..], marks)
  }

  /** The literal without its minus. */
  function Body(s: string): string {
    if s != "" && s[0] == '-' then s[1..] else s
  }

  function Front(s: string, marks: string): string {
    s[..Find(s, marks)]
  }

  function Back(s: string, marks: string): Option<string> {
    var k := Find(s, marks);
    if k == |s| then None else Some(s[k + 1..])
  }

  const POWER_MARKS: string := "eE"
  const POINT: string := "."

  predicate IsPower(s: string) {
    var digits := if s != "" && (s[0] == '+' || s[0] == '-') then s[1..] else s;
    digits != "" && Digits(digits)
  }

  predicate IsCoefficient(s: string) {
    IsNatural(Front(s, POINT)) &&
    (Back(s, POINT).Some? ==> Back(s, POINT).value != "" && Digits(Back(s, POINT).value))
  }

  /** The grammar of numbers. */
  predicate IsNumber(s: string) {
    var body := Body(s);
    IsCoefficient(Front(body, POWER_MARKS)) && (Back(body, POWER_MARKS).Some? ==> IsPower(Back(body, POWER_MARKS).value))
  }

  // ----- the number it denotes --------------------------------------------------------------------

  /** A whole number times a power of ten. */
  function Scaled(n: int, power: int): real
    decreases AbsoluteValue(power)
  {
    if power == 0 then n as real
    else if power > 0 then Scaled(10 * n, power - 1)
    else Scaled(n, power + 1) / 10.0
  }

  function PowerValue(s: string): int
    requires IsPower(s)
  {
    if s[0] == '-' then 0 - Value(s[1..]) else if s[0] == '+' then Value(s[1..]) else Value(s)
  }

  /** The digits as a whole number, scaled by the power of ten that the fraction and the power call for. */
  function CoefficientValue(s: string, power: int): real
    requires IsCoefficient(s)
  {
    var fraction := if Back(s, POINT).Some? then Back(s, POINT).value else "";
    Scaled(Value(Front(s, POINT) + fraction), power - |fraction|)
  }

  function Denotes(s: string): real
    requires IsNumber(s)
  {
    var body := Body(s);
    var power := Back(body, POWER_MARKS);
    var size := CoefficientValue(Front(body, POWER_MARKS), if power.Some? then PowerValue(power.value) else 0);
    if s[0] == '-' then -size else size
  }

  /** The value of a double without its sign: its digits, the first of them before the point, times a power of ten. */
  function DoubleSize(d: Float): real
    requires d.Finite? || d.Zero?
  {
    if d.Zero? then 0.0 else Scaled(Value(d.digits), d.exponent + 1 - |d.digits|)
  }

  // ----- digits and zeros ---------------------------------------------------------------------------

  lemma {:induction false} ScaledNext(n: int, power: int)
    ensures Scaled(10 * n, power) == Scaled(n, power + 1)
    decreases AbsoluteValue(power)
  {
    if power < 0 {
      ScaledNext(n, power + 1);
    }
  }

  lemma ValueNext(s: string, c: char)
    requires Digits(s) && IsDigit(c)
    ensures Digits(s + [c]) && Value(s + [c]) == 10 * Value(s) + DigitValue(c)
  {
    assert (s + [c])[..|s + [c]| - 1] == s;
  }

  lemma {:induction false} ZerosBefore(n: nat, s: string)
    requires Digits(s)
    ensures Digits(Zeros(n) + s) && Value(Zeros(n) + s) == Value(s)
    decreases |s|, n
  {
    if s != "" {
      var last := |s| - 1;
      ZerosBefore(n, s[..last]);
      assert s == s[..last] + [s[last]];
      assert s[last] in s;
      assert Zeros(n) + s == (Zeros(n) + s[..last]) + [s[last]];
      ValueNext(Zeros(n) + s[..last], s[last]);
      ValueNext(s[..last], s[last]);
    } else if n > 0 {
      ZerosBefore(n - 1, s);
      assert Zeros(n) + s == (Zeros(n - 1) + s) + ['0'];
      ValueNext(Zeros(n - 1) + s, '0');
    }
  }

  lemma ZeroAfter(s: string, t: string)
    requires Digits(s) && t == s + ['0']
    ensures Digits(t) && Value(t) == 10 * Value(s)
  {
    ValueNext(s, '0');
  }

  /** Zeros behind a whole number are powers of ten. */
  lemma {:induction false} ZerosAfter(s: string, n: nat, power: int, t: string, value: nat)
    requires Digits(s) && t == s + Zeros(n) && value == Value(s)
    ensures Digits(t) && Scaled(Value(t), power) == Scaled(value, power + n)
    decreases n
  {
    if n == 0 {
      assert t == s;
    } else {
      var shorter := s + Zeros(n - 1);
      assert t == shorter + ['0'];
      ZerosAfter(s, n - 1, power + 1, shorter, value);
      ZeroAfter(shorter, t);
      ScaledNext(Value(shorter), power);
    }
  }

  // ----- cutting a literal --------------------------------------------------------------------------

  predicate NoneOf(s: string, marks: string) {
    forall i :: 0 <= i < |s| ==> s[i] !in marks
  }

  lemma Unmarked(s: string, marks: string)
    requires NoneOf(s, marks)
    ensures Front(s, marks) == s && Back(s, marks) == None
  {
  }

  lemma Marked(a: string, mark: char, b: string, marks: string)
    requires NoneOf(a, marks) && mark in marks
    ensures Front(a + [mark] + b, marks) == a && Back(a + [mark] + b, marks) == Some(b)
  {
    var s := a + [mark] + b;
    assert forall i :: 0 <= i < |a| ==> s[i] == a[i];
    assert s[|a|] == mark;
    assert Find(s, marks) == |a|;
    assert s[..|a|] == a && s[|a| + 1..] == b;
  }

  lemma DigitsAreUnmarked(s: string)
    requires Digits(s)
    ensures NoneOf(s, POWER_MARKS) && NoneOf(s, POINT) && (s != "" ==> s[0] != '-' && s[0] != '+')
  {
    assert forall i :: 0 <= i < |s| ==> s[i] in s;
  }

  lemma BodyOfSigned(negative: bool, m: string)
    requires m != "" && m[0] != '-'
    ensures Body(Sign(negative) + m) == m && ((Sign(negative) + m)[0] == '-' <==> negative)
  {
    assert negative ==> (Sign(negative) + m)[1..] == m;
    assert !negative ==> Sign(negative) + m == m;
  }

  /** A text of digits, a point and digits. */
  lemma PointedCoefficient(whole: string, fraction: string, power: int)
    requires IsNatural(whole) && fraction != "" && Digits(fraction)
    ensures var s := whole + "." + fraction;
      && IsCoefficient(s) && Digits(whole + fraction)
      && CoefficientValue(s, power) == Scaled(Value(whole + fraction), power - |fraction|)
  {
    assert NoneOf(whole, POINT) by { DigitsAreUnmarked(whole); }
    Marked(whole, '.', fraction, POINT);
  }

  lemma PointedIsUnmarked(whole: string, fraction: string)
    requires Digits(whole) && Digits(fraction)
    ensures NoneOf(whole + "." + fraction, POWER_MARKS)
  {
    var s := whole + "." + fraction;
    forall i | 0 <= i < |s| ensures s[i] !in POWER_MARKS {
      assert s[i] in whole || s[i] == '.' || s[i] in fraction;
    }
  }

  // ----- what is written is denoted -------------------------------------------------------------------

  lemma WholeIsNatural(digits: string, exponent: int)
    requires Plain(digits) && IsFixed(exponent)
    ensures IsNatural(Whole(digits, exponent))
  {
    FixedIsDigits(digits, exponent);
  }

  lemma BelowOneValue(digits: string, n: nat, whole: string, fraction: string)
    requires Digits(digits) && whole == "0" && fraction == Zeros(n) + digits
    ensures Digits(whole + fraction) && Value(whole + fraction) == Value(digits)
  {
    ZerosBefore(n + 1, digits);
    assert whole + fraction == Zeros(n + 1) + digits;
  }

  lemma PaddedValue(digits: string, n: nat, whole: string, fraction: string)
    requires Digits(digits) && whole == digits + Zeros(n) && fraction == "0"
    ensures Digits(whole + fraction) && Scaled(Value(whole + fraction), -1) == Scaled(Value(digits), n)
  {
    assert whole + fraction == digits + Zeros(n + 1);
    ZerosAfter(digits, n + 1, -1, whole + fraction, Value(digits));
  }

  /** The digits before and behind the point are those of the number, up to zeros. */
  lemma FixedValue(digits: string, exponent: int, whole: string, fraction: string)
    requires Plain(digits) && IsFixed(exponent)
    requires whole == Whole(digits, exponent) && fraction == Fraction(digits, exponent)
    ensures Digits(whole + fraction)
    ensures Scaled(Value(whole + fraction), -|fraction|) == Scaled(Value(digits), exponent + 1 - |digits|)
  {
    var point := exponent + 1;
    if point <= 0 {
      BelowOneValue(digits, -point, whole, fraction);
    } else if point >= |digits| {
      PaddedValue(digits, point - |digits|, whole, fraction);
    } else {
      assert whole + fraction == digits;
    }
  }

  /** The text is a literal of the given size, with a minus exactly if it is negative. */
  predicate Writes(s: string, negative: bool, size: real) {
    IsNumber(s) && (s[0] == '-' <==> negative) && Denotes(s) == if negative then -size else size
  }

  /** A signed text of digits, a point and digits. */
  lemma PointedDenotes(negative: bool, whole: string, fraction: string, size: real)
    requires IsNatural(whole) && fraction != "" && Digits(fraction)
    requires Digits(whole + fraction) && size == Scaled(Value(whole + fraction), -|fraction|)
    ensures Writes(Sign(negative) + (whole + "." + fraction), negative, size)
  {
    var m := whole + "." + fraction;
    assert IsCoefficient(m) && CoefficientValue(m, 0) == size by {
      PointedCoefficient(whole, fraction, 0);
    }
    assert Front(m, POWER_MARKS) == m && Back(m, POWER_MARKS) == None by {
      PointedIsUnmarked(whole, fraction);
      Unmarked(m, POWER_MARKS);
    }
    assert Body(Sign(negative) + m) == m && ((Sign(negative) + m)[0] == '-' <==> negative) by {
      DigitsAreUnmarked(whole);
      BodyOfSigned(negative, m);
    }
  }

  lemma FixedDenotes(negative: bool, digits: string, exponent: int, size: real)
    requires Plain(digits) && IsFixed(exponent) && size == Scaled(Value(digits), exponent + 1 - |digits|)
    ensures Writes(Sign(negative) + Magnitude(digits, exponent), negative, size)
  {
    var whole, fraction := Whole(digits, exponent), Fraction(digits, exponent);
    assert IsNatural(whole) && fraction != "" && Digits(fraction) by {
      WholeIsNatural(digits, exponent);
      FixedIsDigits(digits, exponent);
    }
    assert Digits(whole + fraction) && size == Scaled(Value(whole + fraction), -|fraction|) by {
      FixedValue(digits, exponent, whole, fraction);
    }
    PointedDenotes(negative, whole, fraction, size);
    assert Magnitude(digits, exponent) == whole + "." + fraction;
  }

  lemma ExponentDenotes(exponent: int)
    ensures IsPower(Exponent(exponent)) && PowerValue(Exponent(exponent)) == exponent
  {
    var text := Decimal(AbsoluteValue(exponent));
    DecimalReads(AbsoluteValue(exponent));
    ZerosBefore(1, text);
    assert Zeros(1) + text == "0" + text;
    assert Exponent(exponent)[1..] == if |text| < 2 then "0" + text else text;
  }

  lemma MantissaDenotes(digits: string, power: int)
    requires Plain(digits)
    ensures IsCoefficient(Mantissa(digits)) && NoneOf(Mantissa(digits), POWER_MARKS)
    ensures CoefficientValue(Mantissa(digits), power) == Scaled(Value(digits), power + 1 - |digits|)
  {
    if |digits| > 1 {
      assert digits[..1] + digits[1..] == digits;
      PointedCoefficient(digits[..1], digits[1..], power);
      PointedIsUnmarked(digits[..1], digits[1..]);
    } else {
      DigitsAreUnmarked(digits);
      Unmarked(digits, POINT);
      assert digits + "" == digits;
    }
  }

  /** A signed text of a coefficient and a power. */
  lemma PoweredDenotes(negative: bool, a: string, b: string, size: real)
    requires IsCoefficient(a) && NoneOf(a, POWER_MARKS) && a != "" && a[0] != '-' && IsPower(b)
    requires size == CoefficientValue(a, PowerValue(b))
    ensures Writes(Sign(negative) + (a + "e" + b), negative, size)
  {
    var m := a + "e" + b;
    assert Front(m, POWER_MARKS) == a && Back(m, POWER_MARKS) == Some(b) by {
      Marked(a, 'e', b, POWER_MARKS);
    }
    assert m[0] == a[0];
    BodyOfSigned(negative, m);
  }

  lemma ScientificDenotes(negative: bool, digits: string, exponent: int, size: real)
    requires Plain(digits) && !IsFixed(exponent) && size == Scaled(Value(digits), exponent + 1 - |digits|)
    ensures Writes(Sign(negative) + Magnitude(digits, exponent), negative, size)
  {
    var a, b := Mantissa(digits), Exponent(exponent);
    assert IsPower(b) && PowerValue(b) == exponent by { ExponentDenotes(exponent); }
    assert IsCoefficient(a) && NoneOf(a, POWER_MARKS) && size == CoefficientValue(a, exponent) by {
      MantissaDenotes(digits, exponent);
    }
    assert a != "" && a[0] != '-' by { MantissaShape(digits); }
    PoweredDenotes(negative, a, b, size);
    assert Magnitude(digits, exponent) == a + "e" + b;
  }

  lemma TwoZeros(zero: string)
    requires zero == Zeros(1)
    ensures Digits(zero + zero) && Value(zero + zero) == 0 && IsNatural(zero)
  {
    ZerosBefore(2, "");
    assert zero + zero == Zeros(2) + "";
    assert zero == "0";
  }

  lemma ZeroDenotes(negative: bool)
    ensures Writes(Sign(negative) + "0.0", negative, 0.0)
  {
    var zero := Zeros(1);
    TwoZeros(zero);
    ScaledNext(0, -1);
    PointedDenotes(negative, zero, zero, 0.0);
    assert zero + "." + zero == "0.0";
  }

  /** The text of a double is a number literal that denotes exactly the double's value, minus zero included. */
  lemma FloatDenotes(d: Float)
    requires d.Finite? || d.Zero?
    ensures Writes(PythonFloat(d), d.negative, DoubleSize(d))
  {
    match d
    case Zero(negative) => ZeroDenotes(negative);
    case Finite(negative, digits, exponent) =>
      if IsFixed(exponent) {
        FixedDenotes(negative, digits, exponent, DoubleSize(d));
      } else {
        ScientificDenotes(negative, digits, exponent, DoubleSize(d));
      }
  }

  /** It has a power of ten exactly outside 1e-4 to 1e16. */
  lemma FloatForm(d: Float)
    requires d.Finite?
    ensures 'e' in PythonFloat(d) <==> d.exponent < -4 || d.exponent >= 16
  {
    MagnitudeShape(d.digits, d.exponent);
  }

  // ----- integers -------------------------------------------------------------------------------------

  /** Integer literals are the number literals without a point and without a power. */
  lemma IntegerIsNumber(s: string)
    ensures IsInteger(s) <==> IsNumber(s) && NoneOf(s, POWER_MARKS) && NoneOf(s, POINT)
  {
    var body := Body(s);
    assert IsInteger(s) <==> IsNatural(body) by {
      assert s != "" ==> s[0] in s;
    }
    assert NoneOf(s, POWER_MARKS) && NoneOf(s, POINT) <==> NoneOf(body, POWER_MARKS) && NoneOf(body, POINT) by {
      if body != s {
        assert forall i :: 0 <= i < |s| ==> s[i] == if i == 0 then '-' else body[i - 1];
        assert forall i :: 0 <= i < |body| ==> body[i] == s[i + 1];
      }
    }
    if IsNatural(body) {
      DigitsAreUnmarked(body);
    }
    if NoneOf(body, POWER_MARKS) && NoneOf(body, POINT) {
      Unmarked(body, POWER_MARKS);
      Unmarked(body, POINT);
    }
  }

  /** An integer is written by a literal that denotes the same number, and never as minus zero. */
  lemma IntegerDenotes(literal: string, read: string -> Float)
    requires IsInteger(literal)
    ensures var s := NumberText(MeaningOf(literal, read));
      IsNumber(literal) && IsInteger(s) && IsNumber(s) && Denotes(s) == Denotes(literal) && s != "-0"
  {
    IntegerIsNumber(literal);
    IntegerIsNumber("0");
    if literal == "-0" {
      assert "-0"[1..] == "0";
      Unmarked("0", POWER_MARKS);
      Unmarked("0", POINT);
      assert Value("0" + "") == 0 by { assert "0" + "" == Zeros(1) + ""; ZerosBefore(1, ""); }
    }
  }
}
