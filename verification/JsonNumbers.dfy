/**
 Numbers in canonical JSON. An integer literal keeps its digits; any other literal is read
 as a double and written the way Python writes floats. How a literal becomes a double, and
 a double its shortest digits, is not part of this model.
 */
module JsonNumbers {
  import opened Decimals

  /** A double by its shortest decimal digits, the first of them before the point. */
  datatype Double =
    | NotANumber
    | Infinite(negative: bool)
    | Zero(negative: bool)
    | Finite(negative: bool, digits: string, exponent: int)

  predicate Digits(s: string) {
    forall c :: c in s ==> IsDigit(c)
  }

  /** The digits start and end where the number does. */
  predicate Plain(digits: string) {
    digits != "" && Digits(digits) && digits[0] != '0' && digits[|digits| - 1] != '0'
  }

  predicate Shortest(d: Double) {
    d.Finite? ==> Plain(d.digits)
  }

  type Float = d: Double | Shortest(d) witness NotANumber

  function Zeros(n: nat): (s: string)
    ensures |s| == n && forall i :: 0 <= i < n ==> s[i] == '0'
  {
    seq(n, i => '0')
  }

  function Sign(negative: bool): string {
    if negative then "-" else ""
  }

  function AbsoluteValue(n: int): nat {
    if n < 0 then -n else n
  }

  predicate IsFixed(exponent: int) {
    -4 <= exponent < 16
  }

  /** Digits before the point. */
  function Whole(digits: string, exponent: int): string
    requires IsFixed(exponent)
  {
    var point := exponent + 1;
    if point <= 0 then "0"
    else if point >= |digits| then digits + Zeros(point - |digits|)
    else digits[..point]
  }

  /** Digits behind the point. */
  function Fraction(digits: string, exponent: int): string
    requires IsFixed(exponent)
  {
    var point := exponent + 1;
    if point <= 0 then Zeros(-point) + digits
    else if point >= |digits| then "0"
    else digits[point..]
  }

  function Mantissa(digits: string): string
    requires digits != ""
  {
    if |digits| > 1 then digits[..1] + "." + digits[1..] else digits
  }

  /** At least two digits, after a sign. */
  function Exponent(exponent: int): string {
    var text := Decimal(AbsoluteValue(exponent));
    (if exponent >= 0 then "+" else "-") + (if |text| < 2 then "0" + text else text)
  }

  function Magnitude(digits: string, exponent: int): string
    requires digits != ""
  {
    if IsFixed(exponent) then Whole(digits, exponent) + "." + Fraction(digits, exponent)
    else Mantissa(digits) + "e" + Exponent(exponent)
  }

  function PythonFloat(d: Float): string {
    match d
    case NotANumber => "NaN"
    case Infinite(negative) => Sign(negative) + "Infinity"
    case Zero(negative) => Sign(negative) + "0.0"
    case Finite(negative, digits, exponent) => Sign(negative) + Magnitude(digits, exponent)
  }

  // ----- number literals ------------------------------------------------------------------------

  const MAX_INTEGER_DIGITS: nat := 4300

  /** Digits without a leading zero. */
  predicate IsNatural(s: string) {
    s != "" && Digits(s) && (s[0] == '0' ==> s == "0")
  }

  predicate IsInteger(s: string) {
    IsNatural(s) || (s != "" && s[0] == '-' && IsNatural(s[1..]))
  }

  function DigitCount(s: string): nat
    requires IsInteger(s)
  {
    if s[0] == '-' then |s| - 1 else |s|
  }

  predicate TooLong(s: string) {
    IsInteger(s) && DigitCount(s) > MAX_INTEGER_DIGITS
  }

  /** What a literal means: an integer by its digits, or a double. */
  datatype Meaning = Integer(text: string) | Floating(value: Float)

  function MeaningOf(literal: string, read: string -> Float): Meaning {
    if IsInteger(literal) then Integer(if literal == "-0" then "0" else literal)
    else Floating(read(literal))
  }

  function NumberText(meaning: Meaning): string {
    match meaning
    case Integer(text) => text
    case Floating(value) => PythonFloat(value)
  }

  // ----- injectivity ----------------------------------------------------------------------------

  /** Texts around a mark that occurs in neither front part can be told apart. */
  lemma SplitAtMark(a: string, b: string, c: string, d: string, mark: char)
    requires a + [mark] + b == c + [mark] + d
    requires mark !in a && mark !in c
    ensures a == c && b == d
  {
    var s, t := a + [mark] + b, c + [mark] + d;
    assert s[|a|] == mark && t[|c|] == mark;
    assert forall i :: 0 <= i < |a| ==> s[i] == a[i] != mark;
    assert forall i :: 0 <= i < |c| ==> t[i] == c[i] != mark;
    assert |a| == |c|;
    assert a == s[..|a|] && c == t[..|c|];
    assert b == s[|a| + 1..] && d == t[|c| + 1..];
  }

  lemma LeadingZeros(i: nat, s: string, j: nat, t: string)
    requires Zeros(i) + s == Zeros(j) + t
    requires s != "" && t != "" && s[0] != '0' && t[0] != '0'
    ensures i == j && s == t
  {
    var x, y := Zeros(i) + s, Zeros(j) + t;
    assert x[i] == s[0] && y[j] == t[0];
    assert s == x[i..] && t == y[j..];
  }

  lemma TrailingZeros(s: string, i: nat, t: string, j: nat)
    requires s + Zeros(i) == t + Zeros(j)
    requires s != "" && t != "" && s[|s| - 1] != '0' && t[|t| - 1] != '0'
    ensures i == j && s == t
  {
    var x, y := s + Zeros(i), t + Zeros(j);
    assert x[|s| - 1] == s[|s| - 1] && y[|t| - 1] == t[|t| - 1];
    assert s == x[..|s|] && t == y[..|t|];
  }

  lemma FixedIsDigits(digits: string, exponent: int)
    requires Plain(digits) && IsFixed(exponent)
    ensures Digits(Whole(digits, exponent)) && Digits(Fraction(digits, exponent))
    ensures Whole(digits, exponent) != "" && (Whole(digits, exponent)[0] == '0' <==> exponent < 0)
    ensures Fraction(digits, exponent) != ""
    ensures Fraction(digits, exponent) == "0" <==> exponent + 1 >= |digits|
  {
    var f := Fraction(digits, exponent);
    if exponent + 1 < |digits| {
      assert f[|f| - 1] == digits[|digits| - 1];
    }
  }

  lemma FixedInjective(digits: string, exponent: int, digits': string, exponent': int)
    requires Plain(digits) && Plain(digits') && IsFixed(exponent) && IsFixed(exponent')
    requires Whole(digits, exponent) == Whole(digits', exponent')
    requires Fraction(digits, exponent) == Fraction(digits', exponent')
    ensures digits == digits' && exponent == exponent'
  {
    FixedIsDigits(digits, exponent);
    FixedIsDigits(digits', exponent');
    if exponent < 0 {
      LeadingZeros(-exponent - 1, digits, -exponent' - 1, digits');
    } else if exponent + 1 >= |digits| {
      TrailingZeros(digits, exponent + 1 - |digits|, digits', exponent' + 1 - |digits'|);
    } else {
      assert digits == Whole(digits, exponent) + Fraction(digits, exponent);
      assert digits' == Whole(digits', exponent') + Fraction(digits', exponent');
    }
  }

  lemma ExponentInjective(m: int, n: int)
    requires Exponent(m) == Exponent(n)
    ensures m == n
  {
    var s, t := Decimal(AbsoluteValue(m)), Decimal(AbsoluteValue(n));
    DecimalReads(AbsoluteValue(m));
    DecimalReads(AbsoluteValue(n));
    assert Exponent(m)[0] == Exponent(n)[0];
    assert Exponent(m)[1..] == (if |s| < 2 then "0" + s else s);
    assert Exponent(n)[1..] == (if |t| < 2 then "0" + t else t);
    if |s| < 2 && |t| < 2 {
      assert s == ("0" + s)[1..] && t == ("0" + t)[1..];
    }
    assert s == t;
  }

  lemma MantissaShape(digits: string)
    requires Plain(digits)
    ensures Mantissa(digits) != "" && IsDigit(Mantissa(digits)[0])
    ensures forall c :: c in Mantissa(digits) ==> IsDigit(c) || c == '.'
  {
    assert digits[0] in digits;
  }

  lemma MantissaInjective(digits: string, digits': string)
    requires digits != "" && digits' != "" && Mantissa(digits) == Mantissa(digits')
    ensures digits == digits'
  {
    assert digits[0] == Mantissa(digits)[0] == Mantissa(digits')[0] == digits'[0];
    if |digits| > 1 {
      assert digits[1..] == Mantissa(digits)[2..] == Mantissa(digits')[2..] == digits'[1..];
    }
    assert digits == [digits[0]] + digits[1..] && digits' == [digits'[0]] + digits'[1..];
  }

  lemma MagnitudeShape(digits: string, exponent: int)
    requires Plain(digits)
    ensures var m := Magnitude(digits, exponent);
      && m != "" && IsDigit(m[0]) && ('e' in m <==> !IsFixed(exponent))
      && (exists c :: c in m && !IsDigit(c)) && (forall c :: c in m ==> IsTokenChar(c))
  {
    var m := Magnitude(digits, exponent);
    if IsFixed(exponent) {
      FixedIsDigits(digits, exponent);
      assert m[|Whole(digits, exponent)|] == '.';
      assert '.' in m;
      assert Whole(digits, exponent)[0] in Whole(digits, exponent);
    } else {
      MantissaShape(digits);
      ExponentShape(exponent);
      assert m[|Mantissa(digits)|] == 'e';
    }
  }

  lemma ExponentShape(exponent: int)
    ensures forall c :: c in Exponent(exponent) ==> IsTokenChar(c)
  {
    DecimalReads(AbsoluteValue(exponent));
  }

  lemma MagnitudeInjective(digits: string, exponent: int, digits': string, exponent': int)
    requires Plain(digits) && Plain(digits')
    requires Magnitude(digits, exponent) == Magnitude(digits', exponent')
    ensures digits == digits' && exponent == exponent'
  {
    MagnitudeShape(digits, exponent);
    MagnitudeShape(digits', exponent');
    if IsFixed(exponent) {
      FixedIsDigits(digits, exponent);
      FixedIsDigits(digits', exponent');
      SplitAtMark(Whole(digits, exponent), Fraction(digits, exponent),
                  Whole(digits', exponent'), Fraction(digits', exponent'), '.');
      FixedInjective(digits, exponent, digits', exponent');
    } else {
      MantissaShape(digits);
      MantissaShape(digits');
      SplitAtMark(Mantissa(digits), Exponent(exponent), Mantissa(digits'), Exponent(exponent'), 'e');
      MantissaInjective(digits, digits');
      ExponentInjective(exponent, exponent');
    }
  }

  /** The characters of number texts, none of which stands beside one in a document. */
  predicate IsTokenChar(c: char) {
    IsDigit(c) || c in "+-.eNaInfity"
  }

  predicate StartsToken(c: char) {
    IsDigit(c) || c == '-' || c == 'N' || c == 'I'
  }

  predicate IsToken(s: string) {
    s != "" && StartsToken(s[0]) && forall c :: c in s ==> IsTokenChar(c)
  }

  /** The text without its sign. */
  function Unsigned(d: Float): string
    requires !d.NotANumber?
  {
    match d
    case Infinite(_) => "Infinity"
    case Zero(_) => "0.0"
    case Finite(_, digits, exponent) => Magnitude(digits, exponent)
  }

  lemma UnsignedShape(d: Float)
    requires !d.NotANumber?
    ensures var m := Unsigned(d);
      && m != "" && (IsDigit(m[0]) || m[0] == 'I') && (d.Infinite? <==> m[0] == 'I')
      && (exists c :: c in m && !IsDigit(c)) && (forall c :: c in m ==> IsTokenChar(c))
    ensures PythonFloat(d) == Sign(d.negative) + Unsigned(d)
  {
    match d
    case Infinite(_) => assert "Infinity"[0] == 'I' && 'I' in "Infinity";
    case Zero(_) => assert "0.0"[1] == '.' && '.' in "0.0";
    case Finite(_, digits, exponent) => MagnitudeShape(digits, exponent);
  }

  lemma FloatIsToken(d: Float)
    ensures IsToken(PythonFloat(d)) && !IsInteger(PythonFloat(d))
  {
    if d.NotANumber? {
      assert "NaN"[0] == 'N' && 'N' in "NaN";
    } else {
      UnsignedShape(d);
      var m, s := Unsigned(d), PythonFloat(d);
      if d.negative {
        assert s[1..] == m && s[0] == '-';
      } else {
        assert s == m;
      }
    }
  }

  lemma UnsignedInjective(d: Float, e: Float)
    requires !d.NotANumber? && !e.NotANumber? && d.negative == e.negative && Unsigned(d) == Unsigned(e)
    ensures d == e
  {
    UnsignedShape(d);
    UnsignedShape(e);
    if d.Finite? && e.Finite? {
      MagnitudeInjective(d.digits, d.exponent, e.digits, e.exponent);
    } else if d.Finite? && e.Zero? {
      ZeroIsNotFinite(d.digits, d.exponent);
    } else if d.Zero? && e.Finite? {
      ZeroIsNotFinite(e.digits, e.exponent);
    }
  }

  lemma ZeroIsNotFinite(digits: string, exponent: int)
    requires Plain(digits)
    ensures Magnitude(digits, exponent) != "0.0"
  {
    var m := Magnitude(digits, exponent);
    if IsFixed(exponent) && exponent < 0 {
      assert m[|m| - 1] == digits[|digits| - 1];
    } else {
      assert m[0] == digits[0];
    }
  }

  /** Different doubles are written differently. */
  lemma FloatInjective(d: Float, e: Float)
    requires PythonFloat(d) == PythonFloat(e)
    ensures d == e
  {
    var s := PythonFloat(d);
    if !d.NotANumber? {
      UnsignedShape(d);
      assert d.negative <==> s[0] == '-';
      assert Unsigned(d) == if d.negative then s[1..] else s;
    }
    if !e.NotANumber? {
      UnsignedShape(e);
      assert e.negative <==> s[0] == '-';
      assert Unsigned(e) == if e.negative then s[1..] else s;
    }
    if !d.NotANumber? && !e.NotANumber? {
      UnsignedInjective(d, e);
    }
  }

  /** Two numbers have the same text exactly if they mean the same. */
  lemma NumberTextInjective(m: Meaning, n: Meaning)
    requires m.Integer? ==> IsInteger(m.text)
    requires n.Integer? ==> IsInteger(n.text)
    ensures NumberText(m) == NumberText(n) <==> m == n
    ensures IsToken(NumberText(m))
  {
    if m.Floating? {
      FloatIsToken(m.value);
    }
    if n.Floating? {
      FloatIsToken(n.value);
    }
    if m.Floating? && n.Floating? && NumberText(m) == NumberText(n) {
      FloatInjective(m.value, n.value);
    }
  }
}
