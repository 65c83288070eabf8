/**
 How a JSON string is read, by section 7 of RFC 8259: a character stands for itself, a named
 escape for its character, and `\u` with four hex digits for a UTF-16 code unit. Reading is
 the partner of the writing in JsonStrings and is defined without it.
 */
module JsonDecoding {
  import opened Wrappers
  import opened JsonStrings

  // ----- reading ----------------------------------------------------------------------------------

  /** Some code units, and the characters behind them. */
  datatype Decoding = Bad | Decoding(units: Text, rest: string)

  predicate IsHexDigit(c: char) {
    '0' <= c <= '9' || 'a' <= c <= 'f' || 'A' <= c <= 'F'
  }

  function HexValue(c: char): (n: int)
    requires IsHexDigit(c)
    ensures 0 <= n < 16
  {
    if c <= '9' then c as int - '0' as int
    else if c <= 'F' then c as int - 'A' as int + 10
    else c as int - 'a' as int + 10
  }

  /** The table of two-character escapes. */
  function NamedEscape(c: char): Option<Unit> {
    match c
    case '\"' => Some(0x22)
    case '\\' => Some(0x5c)
    case '/' => Some(0x2f)
    case 'b' => Some(0x8)
    case 'f' => Some(0xc)
    case 'n' => Some(0xa)
    case 'r' => Some(0xd)
    case 't' => Some(0x9)
    case _ => None
  }

  /** The UTF-16 code units of a character. */
  function CodeUnits(c: char): Text {
    var point := c as int;
    if point < 0x10000 then [point as Unit]
    else [(0xd800 + (point - 0x10000) / 0x400) as Unit, (0xdc00 + (point - 0x10000) % 0x400) as Unit]
  }

  /** The first character or escape of what stands between the quotes. */
  function First(s: string): (d: Decoding)
    ensures d.Decoding? ==> |d.rest| < |s|
  {
    if s == "" || s[0] == '\"' || s[0] < ' ' then Bad
    else if s[0] != '\\' then Decoding(CodeUnits(s[0]), s[1..])
    else if |s| >= 2 && NamedEscape(s[1]).Some? then Decoding([NamedEscape(s[1]).value], s[2..])
    else if |s| >= 6 && s[1] == 'u' && IsHexDigit(s[2]) && IsHexDigit(s[3]) && IsHexDigit(s[4]) && IsHexDigit(s[5]) then
      var point := ((HexValue(s[2]) * 16 + HexValue(s[3])) * 16 + HexValue(s[4])) * 16 + HexValue(s[5]);
      Decoding([point as Unit], s[6..])
    else Bad
  }

  /** Everything up to the closing quote. */
  function Decoded(s: string): (d: Decoding)
    ensures d.Decoding? ==> |d.rest| < |s|
    decreases |s|
  {
    if s != "" && s[0] == '\"' then Decoding([], s[1..])
    else
      var first := First(s);
      if first.Bad? then Bad else Behind(first.units, Decoded(first.rest))
  }

  function Behind(units: Text, d: Decoding): Decoding {
    if d.Bad? then Bad else Decoding(units + d.units, d.rest)
  }

  /** The string that a whole text stands for. */
  function ReadString(s: string): Option<Text> {
    if s == "" || s[0] != '\"' then None
    else
      var d := Decoded(s[1..]);
      if d.Decoding? && d.rest == "" then Some(d.units) else None
  }

  // ----- what is written is read ------------------------------------------------------------------

  lemma HexDigitReads(n: int)
    requires 0 <= n < 16
    ensures IsHexDigit(HexDigit(n)) && HexValue(HexDigit(n)) == n
  {
  }

  lemma UnicodeEscapeReads(point: int, x: string)
    requires 0 <= point < 0x10000
    ensures First(UnicodeEscape(point) + x) == Decoding([point as Unit], x)
  {
    var e := UnicodeEscape(point);
    HexDigitReads(point / 16 / 16 / 16);
    HexDigitReads(point / 16 / 16 % 16);
    HexDigitReads(point / 16 % 16);
    HexDigitReads(point % 16);
    assert (e + x)[..6] == e && (e + x)[6..] == x;
  }

  lemma EscapeReads(u: Unit, x: string)
    ensures First(Escape(u) + x) == Decoding([u], x)
    ensures (Escape(u) + x)[0] != '\"'
  {
    var e := Escape(u);
    if |e| == 1 {
      assert (e + x)[1..] == x;
    } else if |e| == 2 {
      assert (e + x)[2..] == x;
    } else {
      UnicodeEscapeReads(u as int, x);
    }
  }

  lemma {:induction false} EscapedReads(s: Text, x: string)
    ensures Decoded(Escaped(s) + ("\"" + x)) == Decoding(s, x)
  {
    if s == [] {
      assert Escaped(s) + ("\"" + x) == "\"" + x;
      assert ("\"" + x)[1..] == x;
    } else {
      var after := Escaped(s[1..]) + ("\"" + x);
      Regroup(Escape(s[0]), Escaped(s[1..]), "\"" + x);
      EscapeReads(s[0], after);
      EscapedReads(s[1..], x);
      assert s == [s[0]] + s[1..];
    }
  }

  /** Every string is read back from its text, and the text ends where it is read to end. */
  lemma JsonStringReads(s: Text, x: string)
    ensures ReadString(JsonString(s)) == Some(s)
    ensures (JsonString(s) + x)[0] == '\"' && Decoded((JsonString(s) + x)[1..]) == Decoding(s, x)
  {
    JsonStringOpens(s, x);
    EscapedReads(s, x);
    JsonStringIsUnitwise(s);
    JsonStringOpens(s, "");
    EscapedReads(s, "");
    assert JsonString(s) + "" == JsonString(s);
    assert (JsonString(s) + x)[0] == JsonString(s)[0];
  }

  // ----- how much is escaped ------------------------------------------------------------------------

  /** Some two characters stand for the unit. */
  predicate HasNamedEscape(u: Unit) {
    exists c :: NamedEscape(c) == Some(u)
  }

  lemma NamedEscapes(u: Unit)
    ensures HasNamedEscape(u) <==> u in {0x22, 0x5c, 0x2f, 0x8, 0xc, 0xa, 0xd, 0x9}
  {
    assert NamedEscape('\"') == Some(0x22) && NamedEscape('\\') == Some(0x5c) && NamedEscape('/') == Some(0x2f);
    assert NamedEscape('b') == Some(0x8) && NamedEscape('f') == Some(0xc);
    assert NamedEscape('n') == Some(0xa) && NamedEscape('r') == Some(0xd) && NamedEscape('t') == Some(0x9);
  }

  /**
   A unit is written as itself if it is printable ASCII and neither quote nor backslash, with
   two characters if it must be escaped and has a short escape, and with `\u` and four
   lower-case hex digits only otherwise.
   */
  lemma EscapeIsShort(u: Unit)
    ensures |Escape(u)| == 1 <==> 0x20 <= u <= 0x7e && u != 0x22 && u != 0x5c
    ensures |Escape(u)| == 6 <==> !(0x20 <= u <= 0x7e) && !HasNamedEscape(u)
    ensures |Escape(u)| in {1, 2, 6}
    ensures |Escape(u)| == 6 ==> forall i :: 2 <= i < 6 ==> !('A' <= Escape(u)[i] <= 'F')
  {
    NamedEscapes(u);
  }

  lemma {:induction false} EscapedIsAscii(s: Text)
    ensures forall c :: c in Escaped(s) ==> ' ' <= c <= '~'
  {
    if s != [] {
      EscapedIsAscii(s[1..]);
      UnitIsAscii(s[0]);
    }
  }

  lemma UnitIsAscii(u: Unit)
    ensures forall c :: c in Escape(u) ==> ' ' <= c <= '~'
  {
  }

  /** Every string's text is printable ASCII. */
  lemma JsonStringIsAscii(s: Text)
    ensures forall c :: c in JsonString(s) ==> ' ' <= c <= '~'
  {
    JsonStringIsUnitwise(s);
    EscapedIsAscii(s);
  }

  // ----- what key order compares ----------------------------------------------------------------------

  /** The UTF-16 code units of a code point. */
  function Utf16(point: int): Text
    requires 0 <= point < 0x110000
  {
    if point < 0x10000 then [point as Unit]
    else [(0xd800 + (point - 0x10000) / 0x400) as Unit, (0xdc00 + (point - 0x10000) % 0x400) as Unit]
  }

  predicate ArePoints(points: seq<int>) {
    forall i :: 0 <= i < |points| ==> 0 <= points[i] < 0x110000
  }

  function Encoded(points: seq<int>): Text
    requires ArePoints(points)
  {
    if points == [] then [] else Utf16(points[0]) + Encoded(points[1..])
  }

  /** No two neighbours are halves of one code point. */
  predicate Whole(points: seq<int>) {
    forall i :: 0 <= i < |points| - 1 ==> !(0xd800 <= points[i] < 0xdc00 && 0xdc00 <= points[i + 1] < 0xe000)
  }

  lemma PairEncoded(high: Unit, low: Unit)
    requires High(high) && Low(low)
    ensures 0x10000 <= PairPoint(high, low) < 0x110000 && Utf16(PairPoint(high, low)) == [high, low]
  {
    PairHalves(high, low);
  }

  lemma {:induction false} PointsEncoded(s: Text)
    ensures ArePoints(Points(s)) && Encoded(Points(s)) == s
  {
    if s != [] {
      var rest := s[PointLength(s)..];
      PointsEncoded(rest);
      if StartsWithPair(s) {
        PairEncoded(s[0], s[1]);
        assert s == [s[0], s[1]] + rest;
      } else {
        assert s == [s[0]] + rest;
      }
      assert Points(s)[1..] == Points(rest);
    }
  }

  lemma {:induction false} PointsAreWhole(s: Text)
    ensures Whole(Points(s))
    ensures s != [] ==> Points(s) != [] && (Points(s)[0] == s[0] as int || Points(s)[0] >= 0x10000)
  {
    if s != [] {
      var rest := s[PointLength(s)..];
      PointsAreWhole(rest);
      if StartsWithPair(s) {
        PairEncoded(s[0], s[1]);
      }
      assert Points(s)[1..] == Points(rest);
    }
  }

  /** The code points of a string are those that UTF-16 encodes as it, pairs taken together. */
  lemma PointsEncode(s: Text)
    ensures ArePoints(Points(s)) && Encoded(Points(s)) == s && Whole(Points(s))
  {
    PointsEncoded(s);
    PointsAreWhole(s);
  }

  /** The first place where the two differ decides, or the shorter one comes first. */
  predicate DiffersAt(a: seq<int>, b: seq<int>, k: nat) {
    k <= |a| && k < |b| && a[..k] == b[..k] && (k == |a| || a[k] < b[k])
  }

  lemma {:induction false} BelowAt(a: seq<int>, b: seq<int>) returns (k: nat)
    requires Below(a, b)
    ensures DiffersAt(a, b, k)
  {
    if a == [] || a[0] < b[0] {
      k := 0;
    } else {
      var n := BelowAt(a[1..], b[1..]);
      k := n + 1;
      assert a[..k] == [a[0]] + a[1..][..n] && b[..k] == [b[0]] + b[1..][..n];
    }
  }

  lemma DecidesOrder(a: seq<int>, b: seq<int>, k: nat)
    requires DiffersAt(a, b, k)
    ensures Below(a, b)
  {
    var c, d := a[k..], b[k..];
    BelowAfter(a, b, k);
    assert d != [] && d[0] == b[k];
    assert c == [] || (c[0] == a[k] && c[0] < d[0]);
    assert Below(c, d);
  }

  /** Keys are in order exactly if the code points of the first are a proper prefix or smaller at the first difference. */
  lemma KeyOrderIsLexicographic(s: Text, t: Text)
    ensures KeyBelow(s, t) <==> exists k: nat :: DiffersAt(Points(s), Points(t), k)
  {
    if KeyBelow(s, t) {
      var k := BelowAt(Points(s), Points(t));
      assert exists n: nat :: DiffersAt(Points(s), Points(t), n);
    } else {
      forall k: nat ensures !DiffersAt(Points(s), Points(t), k) {
        if DiffersAt(Points(s), Points(t), k) {
          DecidesOrder(Points(s), Points(t), k);
        }
      }
      assert !exists n: nat :: DiffersAt(Points(s), Points(t), n);
    }
  }
}
