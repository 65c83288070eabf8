/**
 How a canonical text is read: it is cut into lexemes, by the lexical grammar of RFC 8259 with
 the words NaN, Infinity and -Infinity besides, and these are read as a document. Reading is
 defined without the printer, and gives back what was printed.
 */
module CanonicalReading {
  import opened Wrappers
  import opened JsonStrings
  import opened JsonDecoding
  import opened CanonicalJson
  import opened SentinelRewriting
  import opened DocumentGrammar
  import N = JsonNumbers
  import L = JsonLiterals
  import D = Decimals

  // ----- cutting a text into lexemes --------------------------------------------------------------

  /** The lexemes of one character. */
  function Mark(c: char): Option<Lexeme> {
    match c
    case '[' => Some(OpenList)
    case ']' => Some(CloseList)
    case '{' => Some(OpenRecord)
    case '}' => Some(CloseRecord)
    case ':' => Some(Colon)
    case ',' => Some(Comma)
    case ' ' => Some(Space)
    case '\t' => Some(Space)
    case '\n' => Some(Space)
    case '\r' => Some(Space)
    case _ => None
  }

  predicate InWord(c: char) {
    Mark(c) == None && c != '\"'
  }

  /** Where the word that the text starts with ends. */
  function WordEnd(s: string): (n: nat)
    ensures n <= |s| && (n < |s| ==> !InWord(s[n]))
    ensures forall i :: 0 <= i < n ==> InWord(s[i])
  {
    if s == "" || !InWord(s[0]) then 0 else 1 + WordEnd(s[1..])
  }

  function Word(s: string): Option<Lexeme> {
    if s == "null" then Some(Plain(Null))
    else if s == "true" then Some(Plain(Bool(true)))
    else if s == "false" then Some(Plain(Bool(false)))
    else if s == "NaN" then Some(Unquoted(N.NotANumber))
    else if s == "Infinity" then Some(Unquoted(N.Infinite(false)))
    else if s == "-Infinity" then Some(Unquoted(N.Infinite(true)))
    else if L.IsNumber(s) then Some(Plain(Number(s)))
    else None
  }

  function Ahead(ls: seq<Lexeme>, rest: Option<seq<Lexeme>>): Option<seq<Lexeme>> {
    if rest == None then None else Some(ls + rest.value)
  }

  function Cut(s: string): Option<seq<Lexeme>>
    decreases |s|
  {
    if s == "" then Some([])
    else if Mark(s[0]).Some? then Ahead([Mark(s[0]).value], Cut(s[1..]))
    else if s[0] == '\"' then
      var d := Decoded(s[1..]);
      if d.Bad? then None else Ahead([Quoted(d.units)], Cut(d.rest))
    else
      var n := WordEnd(s);
      var word := Word(s[..n]);
      if word == None then None else Ahead([word.value], Cut(s[n..]))
  }

  function ReadText(s: string): Option<Json> {
    var ls := Cut(s);
    if ls == None then None else Document(ls.value, true)
  }

  // ----- what a canonical text is read as -----------------------------------------------------------

  function SettledNumber(meaning: N.Meaning): Json {
    match meaning
    case Integer(text) => Number(text)
    case Floating(d) => if d.NotANumber? || d.Infinite? then NonFinite(d) else Number(N.PythonFloat(d))
  }

  /** The document with its keys in order and its numbers as they are written. */
  function Settled(v: Json, read: Reader): Json
    decreases v, 1
  {
    match v
    case Number(literal) => SettledNumber(N.MeaningOf(literal, read))
    case List(_) => Build(SettledParts(v, read), false)
    case Record(_) => Build(SettledParts(v, read), true)
    case _ => v
  }

  function SettledParts(v: Json, read: Reader): (parts: seq<Part>)
    ensures |parts| == |Parts(v)|
    ensures forall i :: 0 <= i < |parts| ==> parts[i] == Part(Parts(v)[i].key, Settled(Parts(v)[i].value, read))
    decreases v, 0
  {
    var parts := Parts(v);
    seq(|parts|, i requires 0 <= i < |parts| => Part(parts[i].key, Settled(parts[i].value, read)))
  }

  // ----- the pieces of a text -------------------------------------------------------------------------

  /** Whatever follows it, the text is cut into these lexemes. */
  ghost predicate CutsTo(s: string, ls: seq<Lexeme>) {
    forall x :: Follows(x) ==> Cut(s + x) == Ahead(ls, Cut(x))
  }

  lemma AheadTwice(a: seq<Lexeme>, b: seq<Lexeme>, rest: Option<seq<Lexeme>>)
    ensures Ahead(a, Ahead(b, rest)) == Ahead(a + b, rest)
  {
    if rest.Some? {
      assert (a + b) + rest.value == a + (b + rest.value);
    }
  }

  lemma NothingAhead(rest: Option<seq<Lexeme>>)
    ensures Ahead([], rest) == rest
  {
    if rest.Some? {
      var none: seq<Lexeme> := [];
      assert none + rest.value == rest.value;
    }
  }

  lemma MarkCuts(c: char, x: string)
    requires Mark(c).Some?
    ensures Cut([c] + x) == Ahead([Mark(c).value], Cut(x))
  {
    assert ([c] + x)[1..] == x;
  }

  predicate IsWord(s: string) {
    s != "" && forall i :: 0 <= i < |s| ==> InWord(s[i])
  }

  lemma WordEndsBefore(s: string, x: string, t: string)
    requires IsWord(s) && Follows(x) && t == s + x
    ensures t != "" && InWord(t[0]) && WordEnd(t) == |s| && t[..|s|] == s && t[|s|..] == x
  {
    assert forall i :: 0 <= i < |s| ==> t[i] == s[i];
    assert x != "" ==> t[|s|] == x[0];
    assert WordEnd(t) == |s|;
  }

  lemma WordIsCut(s: string, word: Lexeme)
    requires s != "" && InWord(s[0]) && Word(s[..WordEnd(s)]) == Some(word)
    ensures Cut(s) == Ahead([word], Cut(s[WordEnd(s)..]))
  {
  }

  lemma WordCuts(s: string, word: Lexeme)
    requires IsWord(s) && Word(s) == Some(word)
    ensures CutsTo(s, [word])
  {
    forall x | Follows(x) ensures Cut(s + x) == Ahead([word], Cut(x)) {
      WordEndsBefore(s, x, s + x);
      WordIsCut(s + x, word);
    }
  }

  lemma QuotedCuts(s: string, d: Decoding)
    requires s != "" && s[0] == '\"' && d == Decoded(s[1..]) && d.Decoding?
    ensures Cut(s) == Ahead([Quoted(d.units)], Cut(d.rest))
  {
  }

  lemma StringCuts(text: Text, x: string)
    ensures Cut(JsonString(text) + x) == Ahead([Quoted(text)], Cut(x))
  {
    JsonStringReads(text, x);
    QuotedCuts(JsonString(text) + x, Decoding(text, x));
  }

  lemma TokenIsWord(s: string)
    requires N.IsToken(s)
    ensures IsWord(s)
  {
    assert forall i :: 0 <= i < |s| ==> s[i] in s;
  }

  lemma NumberIsNoWord(s: string)
    requires L.IsNumber(s)
    ensures Word(s) == Some(Plain(Number(s)))
  {
    assert s[0] == '-' || D.IsDigit(s[0]) by {
      assert L.Body(s)[0] in L.Front(L.Front(L.Body(s), L.POWER_MARKS), L.POINT);
    }
    if s[0] == '-' {
      assert D.IsDigit(s[1]) by {
        assert L.Body(s)[0] in L.Front(L.Front(L.Body(s), L.POWER_MARKS), L.POINT);
      }
    }
  }

  lemma LiteralCuts(s: string)
    requires L.IsNumber(s) && N.IsToken(s)
    ensures CutsTo(s, [Plain(Number(s))])
  {
    TokenIsWord(s);
    NumberIsNoWord(s);
    WordCuts(s, Plain(Number(s)));
  }

  lemma NonFiniteCuts(d: N.Float)
    requires d.NotANumber? || d.Infinite?
    ensures CutsTo(N.PythonFloat(d), [Unquoted(d)])
  {
    N.FloatIsToken(d);
    TokenIsWord(N.PythonFloat(d));
    assert N.PythonFloat(d) == if d.NotANumber? then "NaN" else if d.negative then "-Infinity" else "Infinity";
    assert Word(N.PythonFloat(d)) == Some(Unquoted(d)) by { WordsDiffer(); }
    WordCuts(N.PythonFloat(d), Unquoted(d));
  }

  lemma WordsDiffer()
    ensures Word("NaN") == Some(Unquoted(N.NotANumber))
    ensures Word("Infinity") == Some(Unquoted(N.Infinite(false))) && Word("-Infinity") == Some(Unquoted(N.Infinite(true)))
  {
    assert "NaN"[0] == 'N' && "Infinity"[0] == 'I' && "-Infinity"[0] == '-';
  }

  lemma NumberCuts(meaning: N.Meaning)
    requires meaning.Integer? ==> N.IsInteger(meaning.text)
    ensures CutsTo(N.NumberText(meaning), Rendered(SettledNumber(meaning)))
  {
    if meaning.Integer? {
      L.IntegerIsNumber(meaning.text);
      N.NumberTextInjective(meaning, meaning);
      LiteralCuts(meaning.text);
    } else if meaning.value.Finite? || meaning.value.Zero? {
      L.FloatDenotes(meaning.value);
      N.FloatIsToken(meaning.value);
      LiteralCuts(N.PythonFloat(meaning.value));
    } else {
      NonFiniteCuts(meaning.value);
    }
  }

  lemma LeafCuts(v: Json, read: Reader)
    requires !v.List? && !v.Record?
    ensures CutsTo(Print(v, read), Rendered(Settled(v, read)))
  {
    match v
    case Null => WordCuts("null", Plain(Null));
    case Bool(truth) => WordCuts(if truth then "true" else "false", Plain(Bool(truth)));
    case String(text) =>
      forall x | Follows(x) ensures Cut(JsonString(text) + x) == Ahead([Quoted(text)], Cut(x)) {
        StringCuts(text, x);
      }
    case Number(literal) => NumericPrint(v, read); NumberCuts(N.MeaningOf(literal, read));
    case NonFinite(float) => NumberCuts(N.Floating(float));
  }

  // ----- lists and records ------------------------------------------------------------------------------

  lemma PartCut(p: Part, s: string, value: Json, x: string)
    requires Cut(s + x) == Ahead(Rendered(value), Cut(x))
    ensures Cut((KeyText(p.key) + s) + x) == Ahead(RenderedPart(Part(p.key, value)), Cut(x))
  {
    if p.key.Some? {
      KeyCuts(p.key.value, s, x);
      AheadTwice([Quoted(p.key.value), Colon], Rendered(value), Cut(x));
    } else {
      assert KeyText(p.key) + s == s && RenderedPart(Part(p.key, value)) == Rendered(value);
    }
  }

  lemma PartCuts(p: Part, s: string, value: Json)
    requires CutsTo(s, Rendered(value))
    ensures CutsTo(KeyText(p.key) + s, RenderedPart(Part(p.key, value)))
  {
    forall x | Follows(x) ensures Cut((KeyText(p.key) + s) + x) == Ahead(RenderedPart(Part(p.key, value)), Cut(x)) {
      assert Cut(s + x) == Ahead(Rendered(value), Cut(x));
      PartCut(p, s, value, x);
    }
  }

  lemma ColonCuts(key: string, ls: seq<Lexeme>, s: string, x: string)
    requires Cut(key + (":" + (s + x))) == Ahead(ls, Cut(":" + (s + x)))
    ensures Cut(((key + ":") + s) + x) == Ahead(ls + [Colon], Cut(s + x))
  {
    assert ((key + ":") + s) + x == key + (":" + (s + x));
    MarkCuts(':', s + x);
    AheadTwice(ls, [Colon], Cut(s + x));
  }

  lemma KeyCuts(key: Text, s: string, x: string)
    ensures Cut((KeyText(Some(key)) + s) + x) == Ahead([Quoted(key), Colon], Cut(s + x))
  {
    StringCuts(key, ":" + (s + x));
    ColonCuts(JsonString(key), [Quoted(key)], s, x);
    assert [Quoted(key)] + [Colon] == [Quoted(key), Colon];
  }

  ghost predicate AllCut(texts: seq<string>, parts: seq<Part>) {
    |texts| == |parts| && forall i :: 0 <= i < |texts| ==> CutsTo(texts[i], RenderedPart(parts[i]))
  }

  lemma {:induction false} JoinedCuts(texts: seq<string>, parts: seq<Part>, x: string)
    requires AllCut(texts, parts) && Closes(x)
    ensures Cut(Joined(texts) + x) == Ahead(RenderedParts(parts), Cut(x))
  {
    if texts == [] {
      assert Joined(texts) + x == x;
      NothingAhead(Cut(x));
    } else {
      var after := Tail(texts[1..]) + x;
      TailFollows(texts[1..], x);
      Regroup(texts[0], Tail(texts[1..]), x);
      assert CutsTo(texts[0], RenderedPart(parts[0]));
      assert Cut(texts[0] + after) == Ahead(RenderedPart(parts[0]), Cut(after));
      if |texts| == 1 {
        assert after == x;
      } else {
        JoinedCuts(texts[1..], parts[1..], x);
        TailCuts(texts[1..], parts[1..], x);
        MorePartsCut(parts, Cut(x));
      }
    }
  }

  lemma TailCuts(texts: seq<string>, parts: seq<Part>, x: string)
    requires texts != [] && Cut(Joined(texts) + x) == Ahead(RenderedParts(parts), Cut(x))
    ensures Cut(Tail(texts) + x) == Ahead([Comma] + RenderedParts(parts), Cut(x))
  {
    TailIs(texts, x);
    MarkCuts(',', Joined(texts) + x);
    AheadTwice([Comma], RenderedParts(parts), Cut(x));
  }

  lemma MorePartsCut(parts: seq<Part>, rest: Option<seq<Lexeme>>)
    requires |parts| > 1
    ensures Ahead(RenderedPart(parts[0]), Ahead([Comma] + RenderedParts(parts[1..]), rest)) == Ahead(RenderedParts(parts), rest)
  {
    var first, others := parts[0], parts[1..];
    MoreParts(first, others);
    assert parts == [first] + others;
    AheadTwice(RenderedPart(first), [Comma] + RenderedParts(others), rest);
    Regrouped(RenderedPart(first), [Comma], RenderedParts(others));
  }

  /** A bracket, the entries and the closing bracket. */
  lemma BracketsCut(texts: seq<string>, parts: seq<Part>, keyed: bool, x: string)
    requires AllCut(texts, parts) && Uniform(parts, keyed)
    ensures Cut((if keyed then "{" + Joined(texts) + "}" else "[" + Joined(texts) + "]") + x)
         == Ahead(Rendered(Build(parts, keyed)), Cut(x))
  {
    var open, close := if keyed then '{' else '[', if keyed then '}' else ']';
    var inner := Joined(texts) + ([close] + x);
    BracketsRegroup(open, Joined(texts), close, x);
    MarkCuts(open, inner);
    JoinedCuts(texts, parts, [close] + x);
    MarkCuts(close, x);
    AheadTwice(RenderedParts(parts), [Closing(keyed)], Cut(x));
    AheadTwice([Bracket(keyed)], RenderedParts(parts) + [Closing(keyed)], Cut(x));
    BuildRendered(parts, keyed);
  }

  lemma BracketsRegroup(open: char, s: string, close: char, x: string)
    ensures ([open] + s + [close]) + x == [open] + (s + ([close] + x))
  {
  }

  lemma {:induction false} PrintCuts(v: Json, read: Reader)
    ensures CutsTo(Print(v, read), Rendered(Settled(v, read)))
    decreases v
  {
    if v.List? || v.Record? {
      var texts, parts := Texts(v, read), SettledParts(v, read);
      forall i | 0 <= i < |texts| ensures CutsTo(texts[i], RenderedPart(parts[i])) {
        PrintCuts(Parts(v)[i].value, read);
        PartCuts(Parts(v)[i], Print(Parts(v)[i].value, read), parts[i].value);
      }
      forall x | Follows(x) ensures Cut(Print(v, read) + x) == Ahead(Rendered(Settled(v, read)), Cut(x)) {
        BracketsCut(texts, parts, v.Record?, x);
      }
    } else {
      LeafCuts(v, read);
    }
  }

  /** A canonical text is read, and as the document with its keys in order and its numbers as they are written. */
  lemma CanonicalIsRead(v: Json, read: Reader)
    ensures ReadText(Print(v, read)) == Some(Settled(v, read))
  {
    var end := "";
    var ls := Rendered(Settled(v, read));
    PrintCuts(v, read);
    assert Print(v, read) + end == Print(v, read) && Follows(end);
    assert Cut(end) == Some([]) && ls + [] == ls;
    RenderedIsSpaceless(Settled(v, read));
    SpacelessLexemes(ls, 0);
    DocumentSaysItsValue(ls, Settled(v, read));
  }

  // ----- it is the document that was printed --------------------------------------------------------------

  /** Whoever reads the text of a double gets the double. */
  ghost predicate ReadsBack(read: Reader) {
    forall d: N.Float :: d.Finite? || d.Zero? ==> read(N.PythonFloat(d)) == d
  }

  /** The keys of every record ascend. */
  predicate InOrder(v: Json) {
    match v
    case List(items) => forall i :: 0 <= i < |items| ==> InOrder(items[i])
    case Record(fields) => Ascending(fields) && forall i :: 0 <= i < |fields| ==> InOrder(fields[i].value)
    case _ => true
  }

  lemma SettledNumberIsSame(meaning: N.Meaning, read: Reader)
    requires ReadsBack(read) && (meaning.Integer? ==> N.IsInteger(meaning.text) && meaning.text != "-0")
    ensures IsNumeric(SettledNumber(meaning)) && NumericMeaning(SettledNumber(meaning), read) == meaning
    ensures Presentable(SettledNumber(meaning)) || (meaning.Integer? && N.TooLong(meaning.text))
  {
    if meaning.Floating? {
      N.FloatIsToken(meaning.value);
    }
  }

  lemma SettledLeaf(v: Json, read: Reader)
    requires ReadsBack(read) && !v.List? && !v.Record?
    ensures Same(v, Settled(v, read), read) && InOrder(Settled(v, read)) && Proper(Settled(v, read))
    ensures Presentable(v) ==> Presentable(Settled(v, read))
  {
    if v.Number? {
      SettledNumberIsSame(N.MeaningOf(v.literal, read), read);
    }
  }

  /** What the parts of a list or record are to each other. */
  predicate PartSettled(p: Part, q: Part, read: Reader) {
    && q.key == p.key && Same(p.value, q.value, read) && InOrder(q.value) && Proper(q.value)
    && (Presentable(p.value) ==> Presentable(q.value))
  }

  lemma SettledList(v: Json, read: Reader)
    requires v.List?
    requires forall i :: 0 <= i < |Parts(v)| ==> PartSettled(Parts(v)[i], SettledParts(v, read)[i], read)
    ensures Same(v, Settled(v, read), read) && InOrder(Settled(v, read)) && Proper(Settled(v, read))
    ensures Presentable(v) ==> Presentable(Settled(v, read))
  {
    var w := Settled(v, read);
    forall i | 0 <= i < |v.items|
      ensures Same(v.items[i], w.items[i], read) && InOrder(w.items[i]) && Proper(w.items[i])
      ensures Presentable(v.items[i]) ==> Presentable(w.items[i])
    {
      assert PartSettled(Parts(v)[i], SettledParts(v, read)[i], read);
    }
  }

  lemma SettledFields(v: Json, read: Reader)
    requires v.Record?
    ensures var f, g := Sorted(v.fields), Settled(v, read).fields;
      |g| == |f| && forall i :: 0 <= i < |f| ==> g[i] == Field(f[i].key, Settled(f[i].value, read))
  {
    var parts := SettledParts(v, read);
    assert forall i :: 0 <= i < |parts| ==> AsField(parts[i]) == Field(Parts(v)[i].key.value, Settled(Parts(v)[i].value, read));
  }

  /** Fields that are the same one by one, in another order. */
  lemma SortedFieldsSame(v: Json, w: Json, read: Reader)
    requires v.Record? && w.Record? && |w.fields| == |v.fields|
    requires forall i :: 0 <= i < |v.fields| ==> SameField(Sorted(v.fields)[i], w.fields[i], read)
    ensures Same(v, w, read)
  {
    var f := Sorted(v.fields);
    forall i | 0 <= i < |v.fields|
      ensures exists j :: 0 <= j < |w.fields| && SameField(v.fields[i], w.fields[j], read)
    {
      assert v.fields[i] in f;
      var j :| 0 <= j < |f| && f[j] == v.fields[i];
      assert SameField(f[j], w.fields[j], read);
    }
  }

  lemma SettledRecord(v: Json, read: Reader)
    requires v.Record? && DistinctKeys(v.fields)
    requires forall i :: 0 <= i < |Parts(v)| ==> PartSettled(Parts(v)[i], SettledParts(v, read)[i], read)
    ensures Same(v, Settled(v, read), read) && InOrder(Settled(v, read)) && Proper(Settled(v, read))
    ensures Presentable(v) ==> Presentable(Settled(v, read))
  {
    var f, w := Sorted(v.fields), Settled(v, read);
    SettledFields(v, read);
    SortedAscending(v.fields);
    forall i | 0 <= i < |f|
      ensures SameField(f[i], w.fields[i], read) && InOrder(w.fields[i].value) && Proper(w.fields[i].value)
      ensures Presentable(f[i].value) ==> Presentable(w.fields[i].value)
    {
      assert PartSettled(Parts(v)[i], SettledParts(v, read)[i], read);
    }
    AscendingIsDistinct(w.fields);
    SortedFieldsSame(v, w, read);
    if Presentable(v) {
      forall i | 0 <= i < |f| ensures Presentable(w.fields[i].value) {
        assert f[i] in v.fields;
      }
    }
  }

  lemma AscendingIsDistinct(fields: seq<Field>)
    requires Ascending(fields)
    ensures DistinctKeys(fields)
  {
    forall i, j | 0 <= i < j < |fields| ensures fields[i].key != fields[j].key {
      KeyOrderDecides(fields[i].key, fields[j].key);
    }
  }

  lemma {:induction false} SettledIsSame(v: Json, read: Reader)
    requires Proper(v) && ReadsBack(read)
    ensures Same(v, Settled(v, read), read) && InOrder(Settled(v, read)) && Proper(Settled(v, read))
    ensures Presentable(v) ==> Presentable(Settled(v, read))
    decreases v
  {
    if v.List? || v.Record? {
      forall i | 0 <= i < |Parts(v)| ensures PartSettled(Parts(v)[i], SettledParts(v, read)[i], read) {
        ProperParts(v, i);
        SettledIsSame(Parts(v)[i].value, read);
      }
      if v.List? { SettledList(v, read); } else { SettledRecord(v, read); }
    } else {
      SettledLeaf(v, read);
    }
  }

  /**
   Reading a canonical text gives a document that is the same up to key order and the spelling
   of numbers, has its keys in order in every record, and has the same canonical text.
   */
  lemma CanonicalRoundTrip(v: Json, read: Reader)
    requires Proper(v) && ReadsBack(read) && CanonicalText(v, read).Some?
    ensures var w := ReadText(CanonicalText(v, read).value);
      && w.Some? && Same(v, w.value, read) && InOrder(w.value)
      && CanonicalText(w.value, read) == CanonicalText(v, read)
  {
    var w := Settled(v, read);
    CanonicalIsRead(v, read);
    SettledIsSame(v, read);
    SamePrint(v, w, read);
  }

  // ----- its characters -------------------------------------------------------------------------------------

  predicate Ascii(s: string) {
    forall c :: c in s ==> ' ' <= c <= '~'
  }

  lemma {:induction false} TailIsAscii(texts: seq<string>)
    requires forall i :: 0 <= i < |texts| ==> Ascii(texts[i])
    ensures Ascii(Tail(texts))
  {
    if texts != [] {
      TailIsAscii(texts[1..]);
    }
  }

  lemma PartIsAscii(p: Part, read: Reader)
    requires Ascii(Print(p.value, read))
    ensures Ascii(KeyText(p.key) + Print(p.value, read))
  {
    if p.key.Some? {
      JsonStringIsAscii(p.key.value);
    }
  }

  lemma WrappedIsAscii(open: string, s: string, close: string)
    requires Ascii(open) && Ascii(s) && Ascii(close)
    ensures Ascii(open + s + close)
  {
  }

  lemma LeafIsAscii(v: Json, read: Reader)
    requires !v.List? && !v.Record?
    ensures Ascii(Print(v, read))
  {
    match v
    case String(text) => JsonStringIsAscii(text);
    case Number(_) => NumericPrint(v, read);
    case NonFinite(_) => NumericPrint(v, read);
    case _ =>
  }

  /** A canonical text is printable ASCII. */
  lemma {:induction false} PrintIsAscii(v: Json, read: Reader)
    ensures Ascii(Print(v, read))
    decreases v
  {
    if v.List? || v.Record? {
      var texts := Texts(v, read);
      forall i | 0 <= i < |texts| ensures Ascii(texts[i]) {
        PrintIsAscii(Parts(v)[i].value, read);
        PartIsAscii(Parts(v)[i], read);
      }
      if texts != [] {
        TailIsAscii(texts[1..]);
      }
      assert Ascii(Joined(texts));
      WrappedIsAscii(if v.List? then "[" else "{", Joined(texts), if v.List? then "]" else "}");
    } else {
      LeafIsAscii(v, read);
    }
  }
}
