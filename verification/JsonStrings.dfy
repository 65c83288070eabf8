/**
 Strings in canonical JSON: the escaped form, which is injective, and the order of object
 keys by code point. A string is a sequence of UTF-16 code units, paired or not.
 */
module JsonStrings {

  newtype Unit = x: int | 0 <= x < 0x10000

  type Text = seq<Unit>

  predicate High(u: Unit) {
    0xd800 <= u < 0xdc00
  }

  predicate Low(u: Unit) {
    0xdc00 <= u < 0xe000
  }

  /** The string starts with a surrogate pair, which is one code point. */
  predicate StartsWithPair(s: Text) {
    |s| > 1 && High(s[0]) && Low(s[1])
  }

  function PointLength(s: Text): (n: nat)
    requires s != []
    ensures 1 <= n <= |s|
  {
    if StartsWithPair(s) then 2 else 1
  }

  // ----- escaping in two stages -----------------------------------------------------------------

  function HexDigit(n: int): char
    requires 0 <= n < 16
  {
    if n < 10 then '0' + n as char else 'a' + (n - 10) as char
  }

  function UnicodeEscape(point: int): string
    requires 0 <= point < 0x10000
  {
    ['\\', 'u', HexDigit(point / 16 / 16 / 16), HexDigit(point / 16 / 16 % 16), HexDigit(point / 16 % 16), HexDigit(point % 16)]
  }

  function ToText(s: string): Text
    requires forall i :: 0 <= i < |s| ==> s[i] < 128 as char
  {
    seq(|s|, i requires 0 <= i < |s| => s[i] as int as Unit)
  }

  /** One unit that is not part of a pair, as JSON.stringify writes it. */
  function StringifiedUnit(u: Unit): Text {
    if u == 0x22 then [0x5c, 0x22]
    else if u == 0x5c then [0x5c, 0x5c]
    else if u == 8 then [0x5c, 'b' as Unit]
    else if u == 9 then [0x5c, 't' as Unit]
    else if u == 10 then [0x5c, 'n' as Unit]
    else if u == 12 then [0x5c, 'f' as Unit]
    else if u == 13 then [0x5c, 'r' as Unit]
    else if u < 0x20 || High(u) || Low(u) then ToText(UnicodeEscape(u as int))
    else [u]
  }

  /** A pair stays as it is. */
  function StringifiedPoint(s: Text): Text
    requires s != []
  {
    if StartsWithPair(s) then s[..2] else StringifiedUnit(s[0])
  }

  function Stringified(s: Text): Text {
    if s == [] then [] else StringifiedPoint(s) + Stringified(s[PointLength(s)..])
  }

  /** The code point of a surrogate pair. */
  function PairPoint(high: Unit, low: Unit): int
    requires High(high) && Low(low)
  {
    0x10000 + (high as int - 0xd800) * 0x400 + (low as int - 0xdc00)
  }

  /** The first code point of a string, in printable ASCII. */
  function AsciifiedPoint(s: Text): string
    requires s != []
  {
    if StartsWithPair(s) then
      var shifted := PairPoint(s[0], s[1]) - 0x10000;
      UnicodeEscape(0xd800 + shifted / 0x400) + UnicodeEscape(0xdc00 + shifted % 0x400)
    else if 0x20 <= s[0] <= 0x7e then [s[0] as int as char]
    else UnicodeEscape(s[0] as int)
  }

  /** Everything outside printable ASCII is escaped, code point by code point. */
  function Asciified(s: Text): string {
    if s == [] then "" else AsciifiedPoint(s) + Asciified(s[PointLength(s)..])
  }

  function JsonString(s: Text): string {
    Asciified([0x22] + Stringified(s) + [0x22])
  }

  // ----- the same, unit by unit -----------------------------------------------------------------

  /** What becomes of one unit, paired or not. */
  function Escape(u: Unit): string {
    if u == 0x22 then "\\\""
    else if u == 0x5c then "\\\\"
    else if u == 8 then "\\b"
    else if u == 9 then "\\t"
    else if u == 10 then "\\n"
    else if u == 12 then "\\f"
    else if u == 13 then "\\r"
    else if 0x20 <= u <= 0x7e then [u as int as char]
    else UnicodeEscape(u as int)
  }

  function Escaped(s: Text): string {
    if s == [] then "" else Escape(s[0]) + Escaped(s[1..])
  }

  predicate Printable(s: Text) {
    forall i :: 0 <= i < |s| ==> 0x20 <= s[i] <= 0x7e
  }

  function Chars(s: Text): string
    requires Printable(s)
  {
    seq(|s|, i requires 0 <= i < |s| => s[i] as int as char)
  }

  lemma Regroup(a: string, b: string, c: string)
    ensures a + (b + c) == (a + b) + c
  {
  }

  /** Nothing printable is changed by the second stage. */
  lemma {:induction false} AsciifiedPlain(s: Text, rest: Text)
    requires Printable(s)
    ensures Asciified(s + rest) == Chars(s) + Asciified(rest)
  {
    if s == [] {
      assert s + rest == rest;
    } else {
      assert (s + rest)[1..] == s[1..] + rest;
      AsciifiedPlain(s[1..], rest);
      assert Chars(s) == [s[0] as int as char] + Chars(s[1..]);
      Regroup([s[0] as int as char], Chars(s[1..]), Asciified(rest));
    }
  }

  /** What the first stage escapes is printable, and spells the escape. */
  lemma StringifiedSpells(u: Unit)
    requires StringifiedUnit(u) != [u]
    ensures Printable(StringifiedUnit(u)) && Chars(StringifiedUnit(u)) == Escape(u)
  {
    assert Chars(StringifiedUnit(u)) == Escape(u);
  }

  /** The two stages turn a unit outside a pair into its escape. */
  lemma AsciifiedUnit(u: Unit, rest: Text)
    ensures Asciified(StringifiedUnit(u) + rest) == Escape(u) + Asciified(rest)
  {
    if StringifiedUnit(u) == [u] {
      assert ([u] + rest)[1..] == rest;
    } else {
      StringifiedSpells(u);
      AsciifiedPlain(StringifiedUnit(u), rest);
    }
  }

  lemma PairHalves(high: Unit, low: Unit)
    requires High(high) && Low(low)
    ensures 0xd800 + (PairPoint(high, low) - 0x10000) / 0x400 == high as int
    ensures 0xdc00 + (PairPoint(high, low) - 0x10000) % 0x400 == low as int
  {
  }

  lemma SurrogateEscape(u: Unit, point: int)
    requires (High(u) || Low(u)) && point == u as int
    ensures UnicodeEscape(point) == Escape(u)
  {
  }

  lemma PointOfPair(s: Text)
    requires StartsWithPair(s)
    ensures AsciifiedPoint(s) == Escape(s[0]) + Escape(s[1])
  {
    var shifted := PairPoint(s[0], s[1]) - 0x10000;
    PairHalves(s[0], s[1]);
    SurrogateEscape(s[0], 0xd800 + shifted / 0x400);
    SurrogateEscape(s[1], 0xdc00 + shifted % 0x400);
  }

  lemma AsciifiedPair(pair: Text, rest: Text)
    requires |pair| == 2 && StartsWithPair(pair)
    ensures Asciified(pair + rest) == Escape(pair[0]) + Escape(pair[1]) + Asciified(rest)
  {
    var s := pair + rest;
    assert s[2..] == rest;
    PointOfPair(s);
  }

  lemma {:induction false} EscapedConcat(s: Text, t: Text)
    ensures Escaped(s + t) == Escaped(s) + Escaped(t)
  {
    if s == [] {
      assert s + t == t;
    } else {
      assert (s + t)[1..] == s[1..] + t;
      EscapedConcat(s[1..], t);
    }
  }

  lemma EscapedPairIs(s: Text)
    requires StartsWithPair(s)
    ensures Escaped(s[..2]) == Escape(s[0]) + Escape(s[1])
  {
    assert s[..2] == [s[0]] + [s[1]];
    EscapedConcat([s[0]], [s[1]]);
  }

  lemma FirstPoint(s: Text, after: Text)
    requires s != []
    ensures Asciified(StringifiedPoint(s) + after) == Escaped(s[..PointLength(s)]) + Asciified(after)
  {
    if StartsWithPair(s) {
      EscapedPairIs(s);
      AsciifiedPair(s[..2], after);
    } else {
      AsciifiedUnit(s[0], after);
      assert s[..1] == [s[0]];
    }
  }

  lemma EscapedPoint(s: Text)
    requires s != []
    ensures Escaped(s) == Escaped(s[..PointLength(s)]) + Escaped(s[PointLength(s)..])
  {
    EscapedConcat(s[..PointLength(s)], s[PointLength(s)..]);
    assert s == s[..PointLength(s)] + s[PointLength(s)..];
  }

  lemma StringifiedSplit(s: Text, rest: Text)
    requires s != []
    ensures Stringified(s) + rest == StringifiedPoint(s) + (Stringified(s[PointLength(s)..]) + rest)
  {
  }

  lemma {:induction false} TwoStages(s: Text, rest: Text)
    ensures Asciified(Stringified(s) + rest) == Escaped(s) + Asciified(rest)
  {
    if s == [] {
      assert Stringified(s) + rest == rest;
    } else {
      var tail := s[PointLength(s)..];
      StringifiedSplit(s, rest);
      FirstPoint(s, Stringified(tail) + rest);
      EscapedPoint(s);
      TwoStages(tail, rest);
      Regroup(Escaped(s[..PointLength(s)]), Escaped(tail), Asciified(rest));
    }
  }

  lemma QuoteStays()
    ensures Chars([0x22]) == "\"" && Asciified([0x22]) == "\""
  {
    var quote: Text := [0x22];
    assert quote[1..] == [];
  }

  lemma RegroupText(a: Text, b: Text, c: Text)
    ensures a + (b + c) == a + b + c
  {
  }

  /** JsonString escapes every unit on its own, whatever stands beside it. */
  lemma JsonStringIsUnitwise(s: Text)
    ensures JsonString(s) == "\"" + Escaped(s) + "\""
  {
    var quote: Text := [0x22];
    QuoteStays();
    TwoStages(s, quote);
    AsciifiedPlain(quote, Stringified(s) + quote);
    RegroupText(quote, Stringified(s), quote);
    Regroup("\"", Escaped(s), "\"");
  }

  // ----- injectivity ------------------------------------------------------------------------------

  lemma HexDigitInjective(m: int, n: int)
    requires 0 <= m < 16 && 0 <= n < 16 && HexDigit(m) == HexDigit(n)
    ensures m == n
  {
  }

  lemma UnicodeEscapeInjective(p: int, q: int)
    requires 0 <= p < 0x10000 && 0 <= q < 0x10000 && UnicodeEscape(p) == UnicodeEscape(q)
    ensures p == q
  {
    var e, f := UnicodeEscape(p), UnicodeEscape(q);
    assert e[2] == f[2] && e[3] == f[3] && e[4] == f[4] && e[5] == f[5];
    HexDigitInjective(p / 16 / 16 / 16, q / 16 / 16 / 16);
    HexDigitInjective(p / 16 / 16 % 16, q / 16 / 16 % 16);
    HexDigitInjective(p / 16 % 16, q / 16 % 16);
    HexDigitInjective(p % 16, q % 16);
  }

  /** No escape is the beginning of another one, or begins with the closing quote. */
  lemma EscapePrefix(u: Unit, v: Unit, x: string, y: string)
    requires Escape(u) + x == Escape(v) + y
    ensures u == v && x == y
  {
    var e, f := Escape(u), Escape(v);
    var whole := e + x;
    assert whole[0] == e[0] == f[0];
    if e[0] == '\\' {
      assert whole[1] == e[1] == f[1];
    }
    assert |e| == |f|;
    assert e == whole[..|e|] == f;
    assert x == whole[|e|..] == y;
    if |e| == 6 {
      UnicodeEscapeInjective(u as int, v as int);
    }
  }

  /** Only the end of an escaped string looks like its end. */
  lemma EscapedFirst(s: Text, x: string)
    requires x != "" && x[0] == '\"'
    ensures (Escaped(s) + x)[0] == '\"' <==> s == []
  {
    if s == [] {
      assert Escaped(s) + x == x;
    } else {
      assert (Escaped(s) + x)[0] == Escape(s[0])[0];
    }
  }

  /** An escaped string ends where its quote is. */
  lemma {:induction false} EscapedPrefix(s: Text, t: Text, x: string, y: string)
    requires x != "" && y != "" && x[0] == y[0] == '\"'
    requires Escaped(s) + x == Escaped(t) + y
    ensures s == t && x == y
  {
    EscapedFirst(s, x);
    EscapedFirst(t, y);
    if s == [] {
      assert Escaped(s) + x == x && Escaped(t) + y == y;
    } else {
      Regroup(Escape(s[0]), Escaped(s[1..]), x);
      Regroup(Escape(t[0]), Escaped(t[1..]), y);
      EscapePrefix(s[0], t[0], Escaped(s[1..]) + x, Escaped(t[1..]) + y);
      EscapedPrefix(s[1..], t[1..], x, y);
    }
  }

  lemma JsonStringOpens(s: Text, x: string)
    ensures (JsonString(s) + x)[1..] == Escaped(s) + ("\"" + x)
  {
    JsonStringIsUnitwise(s);
  }

  /** Different strings have different texts, whatever follows them. */
  lemma JsonStringPrefix(s: Text, t: Text, x: string, y: string)
    requires JsonString(s) + x == JsonString(t) + y
    ensures s == t && x == y
  {
    JsonStringOpens(s, x);
    JsonStringOpens(t, y);
    EscapedPrefix(s, t, "\"" + x, "\"" + y);
    assert x == ("\"" + x)[1..] && y == ("\"" + y)[1..];
  }

  // ----- the order of keys ------------------------------------------------------------------------

  /** The code points of a string; an unpaired surrogate is its own code point. */
  function Points(s: Text): seq<int> {
    if s == [] then []
    else [if StartsWithPair(s) then PairPoint(s[0], s[1]) else s[0] as int] + Points(s[PointLength(s)..])
  }

  lemma {:induction false} PointsInjective(s: Text, t: Text)
    requires Points(s) == Points(t)
    ensures s == t
  {
    if s != [] && t != [] {
      assert Points(s)[0] == Points(t)[0];
      assert Points(s[PointLength(s)..]) == Points(s)[1..] == Points(t)[1..] == Points(t[PointLength(t)..]);
      PointsInjective(s[PointLength(s)..], t[PointLength(t)..]);
      assert s == s[..PointLength(s)] + s[PointLength(s)..];
      assert t == t[..PointLength(t)] + t[PointLength(t)..];
    }
  }

  /** Dictionary order. */
  predicate Below(a: seq<int>, b: seq<int>) {
    b != [] && (a == [] || a[0] < b[0] || (a[0] == b[0] && Below(a[1..], b[1..])))
  }

  predicate KeyBelow(s: Text, t: Text) {
    Below(Points(s), Points(t))
  }

  lemma {:induction false} BelowTotal(a: seq<int>, b: seq<int>)
    ensures Below(a, b) || Below(b, a) || a == b
    ensures !(Below(a, b) && Below(b, a)) && !Below(a, a)
  {
    if a != [] {
      BelowTotal(a[1..], a[1..]);
    }
    if a != [] && b != [] && a[0] == b[0] {
      BelowTotal(a[1..], b[1..]);
      assert a == [a[0]] + a[1..] && b == [b[0]] + b[1..];
    }
  }

  lemma {:induction false} BelowTransitive(a: seq<int>, b: seq<int>, c: seq<int>)
    requires Below(a, b) && Below(b, c)
    ensures Below(a, c)
  {
    if a != [] && a[0] == b[0] == c[0] {
      BelowTransitive(a[1..], b[1..], c[1..]);
    }
  }

  lemma KeyOrderDecides(s: Text, t: Text)
    ensures KeyBelow(s, t) || KeyBelow(t, s) || s == t
    ensures !(KeyBelow(s, t) && KeyBelow(t, s)) && !KeyBelow(s, s)
  {
    BelowTotal(Points(s), Points(t));
    if Points(s) == Points(t) {
      PointsInjective(s, t);
    }
  }

  lemma KeyOrderTransitive(s: Text, t: Text, u: Text)
    requires KeyBelow(s, t) && KeyBelow(t, u)
    ensures KeyBelow(s, u)
  {
    BelowTransitive(Points(s), Points(t), Points(u));
  }

  /** Key order is a strict total order on strings. */
  lemma KeyOrderTotal(s: Text, t: Text, u: Text)
    ensures KeyBelow(s, t) || KeyBelow(t, s) || s == t
    ensures !(KeyBelow(s, t) && KeyBelow(t, s)) && !KeyBelow(s, s)
    ensures KeyBelow(s, t) && KeyBelow(t, u) ==> KeyBelow(s, u)
  {
    KeyOrderDecides(s, t);
    if KeyBelow(s, t) && KeyBelow(t, u) {
      KeyOrderTransitive(s, t, u);
    }
  }

  lemma {:induction false} BelowAfter(a: seq<int>, b: seq<int>, k: nat)
    requires k <= |a| && k <= |b| && a[..k] == b[..k]
    ensures Below(a, b) == Below(a[k..], b[k..])
  {
    if k > 0 {
      assert a[0] == a[..k][0] == b[..k][0] == b[0];
      assert a[1..][..k - 1] == a[..k][1..] == b[..k][1..] == b[1..][..k - 1];
      BelowAfter(a[1..], b[1..], k - 1);
      assert a[1..][k - 1..] == a[k..] && b[1..][k - 1..] == b[k..];
    }
  }

  /** The comparison the keys are sorted by: its sign is the key order. */
  method CompareUnicodeCodePoints(left: Text, right: Text) returns (difference: int)
    ensures difference < 0 <==> KeyBelow(left, right)
    ensures difference > 0 <==> KeyBelow(right, left)
    ensures difference == 0 <==> left == right
  {
    var leftPoints, rightPoints := Points(left), Points(right);
    KeyOrderDecides(left, right);
    var index := 0;
    while index < |leftPoints| && index < |rightPoints|
      invariant index <= |leftPoints| && index <= |rightPoints|
      invariant leftPoints[..index] == rightPoints[..index]
    {
      BelowAfter(leftPoints, rightPoints, index);
      BelowAfter(rightPoints, leftPoints, index);
      difference := leftPoints[index] - rightPoints[index];
      if difference != 0 {
        return;
      }
      index := index + 1;
    }
    BelowAfter(leftPoints, rightPoints, index);
    BelowAfter(rightPoints, leftPoints, index);
    difference := |leftPoints| - |rightPoints|;
    if difference == 0 {
      assert leftPoints == rightPoints;
      PointsInjective(left, right);
    }
  }
}
