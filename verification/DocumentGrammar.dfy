/**
 What a document stands for, apart from any parser: the lexemes of a value are its brackets,
 its entries with commas between them, each with its key and a colon in a record, and its
 leaves. A document says a value exactly if it is these lexemes with spaces anywhere between
 them, and that is the value it is read as.
 */
module DocumentGrammar {
  import opened Wrappers
  import opened JsonStrings
  import opened CanonicalJson
  import opened SentinelRewriting

  // ----- the lexemes of a value -----------------------------------------------------------------

  function Rendered(v: Json): seq<Lexeme> {
    match v
    case String(text) => [Quoted(text)]
    case NonFinite(float) => [Unquoted(float)]
    case List(items) => [OpenList] + RenderedItems(items) + [CloseList]
    case Record(fields) => [OpenRecord] + RenderedFields(fields) + [CloseRecord]
    case _ => [Plain(v)]
  }

  function RenderedItems(items: seq<Json>): seq<Lexeme> {
    if items == [] then []
    else if |items| == 1 then Rendered(items[0])
    else Rendered(items[0]) + [Comma] + RenderedItems(items[1..])
  }

  function RenderedFields(fields: seq<Field>): seq<Lexeme> {
    if fields == [] then []
    else if |fields| == 1 then RenderedField(fields[0])
    else RenderedField(fields[0]) + [Comma] + RenderedFields(fields[1..])
  }

  function RenderedField(field: Field): seq<Lexeme> {
    [Quoted(field.key), Colon] + Rendered(field.value)
  }

  /** The lexemes of a document from `i` on, without the spaces. */
  function Lexemes(ls: seq<Lexeme>, i: nat): seq<Lexeme>
    requires i <= |ls|
    decreases |ls| - i
  {
    if i == |ls| then []
    else if ls[i] == Space then Lexemes(ls, i + 1)
    else [ls[i]] + Lexemes(ls, i + 1)
  }

  // ----- entries of either kind -------------------------------------------------------------------

  function RenderedPart(p: Part): seq<Lexeme> {
    (if p.key.Some? then [Quoted(p.key.value), Colon] else []) + Rendered(p.value)
  }

  function RenderedParts(parts: seq<Part>): seq<Lexeme> {
    if parts == [] then []
    else if |parts| == 1 then RenderedPart(parts[0])
    else RenderedPart(parts[0]) + [Comma] + RenderedParts(parts[1..])
  }

  function Bracket(keyed: bool): Lexeme {
    if keyed then OpenRecord else OpenList
  }

  predicate Uniform(parts: seq<Part>, keyed: bool) {
    forall i :: 0 <= i < |parts| ==> parts[i].key.Some? == keyed
  }

  lemma {:induction false} FieldsRendered(parts: seq<Part>)
    requires Uniform(parts, true)
    ensures RenderedFields(Build(parts, true).fields) == RenderedParts(parts)
  {
    if parts != [] {
      FieldsRendered(parts[1..]);
      assert Build(parts, true).fields[1..] == Build(parts[1..], true).fields;
    }
  }

  lemma {:induction false} ItemsRendered(parts: seq<Part>)
    requires Uniform(parts, false)
    ensures RenderedItems(Build(parts, false).items) == RenderedParts(parts)
  {
    if parts != [] {
      ItemsRendered(parts[1..]);
      assert Build(parts, false).items[1..] == Build(parts[1..], false).items;
      assert RenderedPart(parts[0]) == Rendered(parts[0].value);
    }
  }

  lemma BuildRendered(parts: seq<Part>, keyed: bool)
    requires Uniform(parts, keyed)
    ensures Rendered(Build(parts, keyed)) == [Bracket(keyed)] + (RenderedParts(parts) + [Closing(keyed)])
  {
    if keyed { FieldsRendered(parts); } else { ItemsRendered(parts); }
  }

  lemma Regrouped(a: seq<Lexeme>, b: seq<Lexeme>, c: seq<Lexeme>)
    ensures (a + b) + c == a + (b + c)
  {
  }

  // ----- what is read is what is written ------------------------------------------------------------

  lemma {:induction false} SkipLexemes(ls: seq<Lexeme>, i: nat)
    requires i <= |ls|
    ensures var j := Skip(ls, i);
      Lexemes(ls, i) == if j == |ls| then [] else [ls[j]] + Lexemes(ls, j + 1)
    decreases |ls| - i
  {
    if i < |ls| && ls[i] == Space {
      SkipLexemes(ls, i + 1);
    }
  }

  lemma {:induction false} ValueIsRendered(ls: seq<Lexeme>, i: nat)
    requires i <= |ls| && Value(ls, i, true).Parsed?
    ensures var v := Value(ls, i, true); Lexemes(ls, i) == Rendered(v.value) + Lexemes(ls, v.next)
    decreases |ls| - i, 1
  {
    var j := Skip(ls, i);
    SkipLexemes(ls, i);
    if At(ls, j, OpenList) || At(ls, j, OpenRecord) {
      OpenedIsRendered(ls, j + 1, At(ls, j, OpenRecord));
    }
  }

  lemma {:induction false} OpenedIsRendered(ls: seq<Lexeme>, i: nat, keyed: bool)
    requires i <= |ls| && Opened(ls, i, keyed, true).Parsed?
    ensures var v := Opened(ls, i, keyed, true);
      [Bracket(keyed)] + Lexemes(ls, i) == Rendered(v.value) + Lexemes(ls, v.next)
    decreases |ls| - i, 3
  {
    if At(ls, Skip(ls, i), Closing(keyed)) {
      SkipLexemes(ls, i);
      BuildRendered([], keyed);
    } else {
      var r := Entries(ls, i, keyed, true);
      EntriesAreRendered(ls, i, keyed);
      EntriesKeyed(ls, i, keyed, true);
      BuildRendered(r.value, keyed);
      Regrouped([Bracket(keyed)], RenderedParts(r.value) + [Closing(keyed)], Lexemes(ls, r.next));
    }
  }

  lemma KeyIsRendered(ls: seq<Lexeme>, i: nat, keyed: bool)
    requires i <= |ls| && Key(ls, i, keyed).Parsed?
    ensures var key := Key(ls, i, keyed);
      Lexemes(ls, i) == (if keyed then [Quoted(key.value.value), Colon] else []) + Lexemes(ls, key.next)
  {
    if keyed {
      var k := Skip(ls, i);
      SkipLexemes(ls, i);
      SkipLexemes(ls, k + 1);
    }
  }

  lemma {:induction false} EntriesAreRendered(ls: seq<Lexeme>, i: nat, keyed: bool)
    requires i <= |ls| && Entries(ls, i, keyed, true).Parsed?
    ensures var r := Entries(ls, i, keyed, true);
      r.value != [] && Lexemes(ls, i) == (RenderedParts(r.value) + [Closing(keyed)]) + Lexemes(ls, r.next)
    decreases |ls| - i, 2
  {
    var key := Key(ls, i, keyed);
    var v := Value(ls, key.next, true);
    KeyIsRendered(ls, i, keyed);
    ValueIsRendered(ls, key.next);
    Regrouped(if keyed then [Quoted(key.value.value), Colon] else [], Rendered(v.value), Lexemes(ls, v.next));
    AfterIsRendered(ls, Part(key.value, v.value), v.next, keyed);
  }

  lemma {:induction false} AfterIsRendered(ls: seq<Lexeme>, p: Part, n: nat, keyed: bool)
    requires n <= |ls| && EntriesAfter(ls, p, n, keyed, true).Parsed?
    ensures var r := EntriesAfter(ls, p, n, keyed, true);
      && r.value != []
      && RenderedPart(p) + Lexemes(ls, n) == (RenderedParts(r.value) + [Closing(keyed)]) + Lexemes(ls, r.next)
    decreases |ls| - n, 0
  {
    var m := Skip(ls, n);
    AfterIs(ls, p, n, keyed, true);
    if At(ls, m, Closing(keyed)) {
      SkipLexemes(ls, n);
      Regrouped(RenderedPart(p), [Closing(keyed)], Lexemes(ls, m + 1));
    } else {
      var all, rest := CommaGoesOn(ls, p, n, keyed, true);
      EntriesAreRendered(ls, m + 1, keyed);
      CommaIsRendered(ls, p, n, keyed, rest);
    }
  }

  lemma CommaIsRendered(ls: seq<Lexeme>, p: Part, n: nat, keyed: bool, rest: Parsed<seq<Part>>)
    requires n <= |ls| && At(ls, Skip(ls, n), Comma) && rest.Parsed? && rest.next <= |ls| && rest.value != []
    requires Lexemes(ls, Skip(ls, n) + 1) == (RenderedParts(rest.value) + [Closing(keyed)]) + Lexemes(ls, rest.next)
    ensures RenderedPart(p) + Lexemes(ls, n) ==
      (RenderedParts([p] + rest.value) + [Closing(keyed)]) + Lexemes(ls, rest.next)
  {
    SkipLexemes(ls, n);
    MoreRendered(p, rest.value, [Closing(keyed)], Lexemes(ls, rest.next), Lexemes(ls, Skip(ls, n) + 1));
  }

  lemma MoreParts(p: Part, rest: seq<Part>)
    requires rest != []
    ensures RenderedParts([p] + rest) == (RenderedPart(p) + [Comma]) + RenderedParts(rest)
  {
    assert ([p] + rest)[1..] == rest;
  }

  lemma MoreRendered(p: Part, rest: seq<Part>, close: seq<Lexeme>, after: seq<Lexeme>, more: seq<Lexeme>)
    requires rest != [] && more == (RenderedParts(rest) + close) + after
    ensures RenderedPart(p) + ([Comma] + more) == (RenderedParts([p] + rest) + close) + after
  {
    MoreParts(p, rest);
    var first, others := RenderedPart(p) + [Comma], RenderedParts(rest);
    Regrouped(RenderedPart(p), [Comma], more);
    Regrouped(others, close, after);
    Regrouped(first, others, close + after);
    Regrouped(first + others, close, after);
  }

  // ----- what is written is read ----------------------------------------------------------------------

  /** The entries of a list or record, in the order of the document. */
  function Members(v: Json): (parts: seq<Part>)
    requires v.List? || v.Record?
    ensures forall i :: 0 <= i < |parts| ==> parts[i].value < v
    ensures Uniform(parts, v.Record?) && Build(parts, v.Record?) == v
  {
    match v
    case List(items) =>
      var parts := seq(|items|, i requires 0 <= i < |items| => Part(None, items[i]));
      assert Build(parts, false).items == items;
      parts
    case Record(fields) =>
      var parts := seq(|fields|, i requires 0 <= i < |fields| => Part(Some(fields[i].key), fields[i].value));
      assert Build(parts, true).fields == fields;
      parts
  }

  lemma LexemeReads(ls: seq<Lexeme>, i: nat, x: Lexeme, rest: seq<Lexeme>)
    requires i <= |ls| && Lexemes(ls, i) == [x] + rest
    ensures var j := Skip(ls, i); At(ls, j, x) && Lexemes(ls, j + 1) == rest
  {
    SkipLexemes(ls, i);
    assert ([x] + rest)[1..] == rest;
  }

  lemma RenderedStarts(v: Json)
    ensures Rendered(v) != [] && Rendered(v)[0] != CloseList && Rendered(v)[0] != CloseRecord
  {
  }

  lemma LeafReads(ls: seq<Lexeme>, i: nat, v: Json, rest: seq<Lexeme>) returns (n: nat)
    requires i <= |ls| && Lexemes(ls, i) == Rendered(v) + rest && !v.List? && !v.Record?
    ensures n <= |ls| && Value(ls, i, true) == Parsed(v, n) && Lexemes(ls, n) == rest
  {
    LexemeReads(ls, i, Rendered(v)[0], rest);
    n := Skip(ls, i) + 1;
  }

  lemma {:induction false} ValueReads(ls: seq<Lexeme>, i: nat, v: Json, rest: seq<Lexeme>) returns (n: nat)
    requires i <= |ls| && Lexemes(ls, i) == Rendered(v) + rest
    ensures n <= |ls| && Value(ls, i, true) == Parsed(v, n) && Lexemes(ls, n) == rest
    decreases v, 1, 0
  {
    var j := Skip(ls, i);
    if v.List? || v.Record? {
      var keyed := v.Record?;
      var parts := Members(v);
      BuildRendered(parts, keyed);
      Regrouped([Bracket(keyed)], RenderedParts(parts) + [Closing(keyed)], rest);
      LexemeReads(ls, i, Bracket(keyed), (RenderedParts(parts) + [Closing(keyed)]) + rest);
      n := OpenedReads(ls, j + 1, v, parts, keyed, rest);
    } else {
      n := LeafReads(ls, i, v, rest);
    }
  }

  lemma {:induction false} OpenedReads(ls: seq<Lexeme>, i: nat, v: Json, parts: seq<Part>, keyed: bool, rest: seq<Lexeme>)
    returns (n: nat)
    requires forall k :: 0 <= k < |parts| ==> parts[k].value < v
    requires Uniform(parts, keyed)
    requires i <= |ls| && Lexemes(ls, i) == (RenderedParts(parts) + [Closing(keyed)]) + rest
    ensures n <= |ls| && Opened(ls, i, keyed, true) == Parsed(Build(parts, keyed), n) && Lexemes(ls, n) == rest
    decreases v, 0, 2 * |parts| + 2
  {
    if parts == [] {
      LexemeReads(ls, i, Closing(keyed), rest);
      n := Skip(ls, i) + 1;
    } else {
      n := PartsRead(ls, i, v, parts, keyed, rest);
      PartsStart(parts);
      LexemeReads(ls, i, Lexemes(ls, i)[0], Lexemes(ls, i)[1..]);
    }
  }

  lemma PartsStart(parts: seq<Part>)
    requires parts != []
    ensures RenderedParts(parts) != [] && RenderedParts(parts)[0] != CloseList && RenderedParts(parts)[0] != CloseRecord
  {
    RenderedStarts(parts[0].value);
  }

  /** What follows the first of some entries. */
  function Afterwards(parts: seq<Part>, keyed: bool, rest: seq<Lexeme>): seq<Lexeme>
    requires parts != []
  {
    if |parts| == 1 then [Closing(keyed)] + rest
    else [Comma] + ((RenderedParts(parts[1..]) + [Closing(keyed)]) + rest)
  }

  lemma FirstPart(parts: seq<Part>, keyed: bool, rest: seq<Lexeme>)
    requires parts != []
    ensures (RenderedParts(parts) + [Closing(keyed)]) + rest == RenderedPart(parts[0]) + Afterwards(parts, keyed, rest)
  {
    if |parts| > 1 {
      assert parts == [parts[0]] + parts[1..];
      MoreRendered(parts[0], parts[1..], [Closing(keyed)], rest, (RenderedParts(parts[1..]) + [Closing(keyed)]) + rest);
    }
  }

  lemma {:induction false} PartsRead(ls: seq<Lexeme>, i: nat, v: Json, parts: seq<Part>, keyed: bool, rest: seq<Lexeme>)
    returns (n: nat)
    requires parts != [] && forall k :: 0 <= k < |parts| ==> parts[k].value < v
    requires Uniform(parts, keyed)
    requires i <= |ls| && Lexemes(ls, i) == (RenderedParts(parts) + [Closing(keyed)]) + rest
    ensures n <= |ls| && Entries(ls, i, keyed, true) == Parsed(parts, n) && Lexemes(ls, n) == rest
    decreases v, 0, 2 * |parts| + 1
  {
    FirstPart(parts, keyed, rest);
    var k := KeyReads(ls, i, parts[0], keyed, Afterwards(parts, keyed, rest));
    var m := ValueReads(ls, k, parts[0].value, Afterwards(parts, keyed, rest));
    n := PartsAfter(ls, m, v, parts, keyed, rest);
  }

  lemma {:induction false} PartsAfter(ls: seq<Lexeme>, m: nat, v: Json, parts: seq<Part>, keyed: bool, rest: seq<Lexeme>)
    returns (n: nat)
    requires parts != [] && forall k :: 0 <= k < |parts| ==> parts[k].value < v
    requires Uniform(parts, keyed)
    requires m <= |ls| && Lexemes(ls, m) == Afterwards(parts, keyed, rest)
    ensures n <= |ls| && EntriesAfter(ls, parts[0], m, keyed, true) == Parsed(parts, n) && Lexemes(ls, n) == rest
    decreases v, 0, 2 * |parts|
  {
    if |parts| == 1 {
      LexemeReads(ls, m, Closing(keyed), rest);
      AfterIs(ls, parts[0], m, keyed, true);
      n := Skip(ls, m) + 1;
      assert parts == [parts[0]];
    } else {
      LexemeReads(ls, m, Comma, (RenderedParts(parts[1..]) + [Closing(keyed)]) + rest);
      n := PartsRead(ls, Skip(ls, m) + 1, v, parts[1..], keyed, rest);
      CommaReads(ls, parts[0], m, keyed, parts[1..], n);
      assert parts == [parts[0]] + parts[1..];
    }
  }

  lemma CommaReads(ls: seq<Lexeme>, p: Part, m: nat, keyed: bool, rest: seq<Part>, n: nat)
    requires m <= |ls| && At(ls, Skip(ls, m), Comma) && Entries(ls, Skip(ls, m) + 1, keyed, true) == Parsed(rest, n)
    ensures EntriesAfter(ls, p, m, keyed, true) == Parsed([p] + rest, n)
  {
    var all, more := CommaGoesOn(ls, p, m, keyed, true);
  }

  lemma KeyReads(ls: seq<Lexeme>, i: nat, p: Part, keyed: bool, after: seq<Lexeme>) returns (k: nat)
    requires i <= |ls| && Lexemes(ls, i) == RenderedPart(p) + after && p.key.Some? == keyed
    ensures i <= k <= |ls| && Key(ls, i, keyed) == Parsed(p.key, k) && Lexemes(ls, k) == Rendered(p.value) + after
  {
    if keyed {
      var value := Rendered(p.value) + after;
      assert RenderedPart(p) + after == [Quoted(p.key.value)] + ([Colon] + value);
      LexemeReads(ls, i, Quoted(p.key.value), [Colon] + value);
      LexemeReads(ls, Skip(ls, i) + 1, Colon, value);
      k := Skip(ls, Skip(ls, i) + 1) + 1;
    } else {
      assert RenderedPart(p) == Rendered(p.value);
      k := i;
    }
  }

  // ----- documents --------------------------------------------------------------------------------------

  /** A document says a value exactly if it is the value's lexemes, with spaces anywhere between them. */
  lemma DocumentSaysItsValue(ls: seq<Lexeme>, v: Json)
    ensures Document(ls, true) == Some(v) <==> Lexemes(ls, 0) == Rendered(v)
  {
    if Document(ls, true) == Some(v) {
      ValueIsRendered(ls, 0);
      SkipLexemes(ls, Value(ls, 0, true).next);
    }
    if Lexemes(ls, 0) == Rendered(v) {
      assert Rendered(v) + [] == Rendered(v);
      var n := ValueReads(ls, 0, v, []);
      SkipLexemes(ls, n);
    }
  }

  /** So the buyer reads every document of a value as that value, and without word keys nothing else. */
  lemma ReadIsItsValue(ls: seq<Lexeme>, s: Sentinels, v: Json)
    requires Fresh(ls, s)
    ensures Lexemes(ls, 0) == Rendered(v) ==> ReadProtected(ls, s) == Some(v)
    ensures NoWordKeys(ls, 0, |ls|) ==> (ReadProtected(ls, s) == Some(v) <==> Lexemes(ls, 0) == Rendered(v))
  {
    DocumentSaysItsValue(ls, v);
    if Lexemes(ls, 0) == Rendered(v) {
      MeaningIsPreserved(ls, s);
    }
    if NoWordKeys(ls, 0, |ls|) {
      NothingElseIsRead(ls, s);
    }
  }

  // ----- every value has a document ---------------------------------------------------------------------

  predicate Spaceless(ls: seq<Lexeme>) {
    Space !in ls
  }

  lemma {:induction false} SpacelessLexemes(ls: seq<Lexeme>, i: nat)
    requires Spaceless(ls) && i <= |ls|
    ensures Lexemes(ls, i) == ls[i..]
    decreases |ls| - i
  {
    if i < |ls| {
      SpacelessLexemes(ls, i + 1);
    }
  }

  lemma {:induction false} RenderedIsSpaceless(v: Json)
    ensures Spaceless(Rendered(v))
    decreases v, 1, 0
  {
    if v.List? || v.Record? {
      PartsAreSpaceless(v, Members(v));
      BuildRendered(Members(v), v.Record?);
    }
  }

  lemma {:induction false} PartsAreSpaceless(v: Json, parts: seq<Part>)
    requires forall k :: 0 <= k < |parts| ==> parts[k].value < v
    ensures Spaceless(RenderedParts(parts))
    decreases v, 0, |parts|
  {
    if parts != [] {
      RenderedIsSpaceless(parts[0].value);
      PartsAreSpaceless(v, parts[1..]);
    }
  }

  /** The lexemes of any value are a document of it, which is read as the value whatever words and keys it holds. */
  lemma EveryValueIsRead(v: Json, s: Sentinels)
    ensures Document(Rendered(v), true) == Some(v)
    ensures Fresh(Rendered(v), s) ==> ReadProtected(Rendered(v), s) == Some(v)
  {
    var ls := Rendered(v);
    RenderedIsSpaceless(v);
    SpacelessLexemes(ls, 0);
    DocumentSaysItsValue(ls, v);
    if Fresh(ls, s) {
      ReadIsItsValue(ls, s, v);
    }
  }
}
