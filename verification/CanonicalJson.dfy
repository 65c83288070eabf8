/**
 The canonical text of a JSON value, which a deliverable's hash commits to. Two values have
 the same canonical text exactly if they are the same up to the order of their keys and the
 spelling of their numbers.
 */
module CanonicalJson {
  import opened Basics
  import opened Wrappers
  import opened JsonStrings
  import N = JsonNumbers

  type NonFiniteFloat = d: N.Float | d.NotANumber? || d.Infinite? witness N.NotANumber

  /** A parsed document; a number keeps its literal. */
  datatype Json =
    | Null
    | Bool(truth: bool)
    | String(text: Text)
    | Number(literal: string)
    | NonFinite(float: NonFiniteFloat)
    | List(items: seq<Json>)
    | Record(fields: seq<Field>)

  datatype Field = Field(key: Text, value: Json)

  /** How a literal that is no integer is read as a double. */
  type Reader = string -> N.Float

  // ----- the order of fields --------------------------------------------------------------------

  function Insert(field: Field, fields: seq<Field>): (r: seq<Field>)
    ensures |r| == |fields| + 1
    ensures forall f :: f in r <==> f == field || f in fields
  {
    if fields == [] || KeyBelow(field.key, fields[0].key) then [field] + fields
    else [fields[0]] + Insert(field, fields[1..])
  }

  function Sorted(fields: seq<Field>): (r: seq<Field>)
    ensures |r| == |fields|
    ensures forall f :: f in r <==> f in fields
  {
    if fields == [] then []
    else
      assert fields == [fields[0]] + fields[1..];
      Insert(fields[0], Sorted(fields[1..]))
  }

  predicate Ascending(fields: seq<Field>) {
    forall i, j :: 0 <= i < j < |fields| ==> KeyBelow(fields[i].key, fields[j].key)
  }

  predicate DistinctKeys(fields: seq<Field>) {
    forall i, j :: 0 <= i < j < |fields| ==> fields[i].key != fields[j].key
  }

  lemma {:induction false} InsertAscending(field: Field, fields: seq<Field>)
    requires Ascending(fields) && forall f :: f in fields ==> f.key != field.key
    ensures Ascending(Insert(field, fields))
  {
    if fields != [] {
      KeyOrderDecides(field.key, fields[0].key);
      if KeyBelow(field.key, fields[0].key) {
        forall j | 0 <= j < |fields| ensures KeyBelow(field.key, fields[j].key) {
          if j > 0 {
            KeyOrderTransitive(field.key, fields[0].key, fields[j].key);
          }
        }
      } else {
        InsertAscending(field, fields[1..]);
        var r := Insert(field, fields[1..]);
        forall j | 0 <= j < |r| ensures KeyBelow(fields[0].key, r[j].key) {
          assert r[j] in r;
        }
      }
    }
  }

  lemma {:induction false} SortedAscending(fields: seq<Field>)
    requires DistinctKeys(fields)
    ensures Ascending(Sorted(fields))
  {
    if fields != [] {
      SortedAscending(fields[1..]);
      forall f | f in Sorted(fields[1..]) ensures f.key != fields[0].key {
        var i :| 0 <= i < |fields| - 1 && fields[1..][i] == f;
        assert fields[i + 1] == f;
      }
      InsertAscending(fields[0], Sorted(fields[1..]));
    }
  }

  predicate HasKey(fields: seq<Field>, key: Text) {
    exists i :: 0 <= i < |fields| && fields[i].key == key
  }

  /** There is only one ascending arrangement of a set of keys. */
  lemma {:induction false} AscendingUnique(f: seq<Field>, g: seq<Field>)
    requires Ascending(f) && Ascending(g) && |f| == |g|
    requires forall k :: HasKey(f, k) <==> HasKey(g, k)
    ensures forall i :: 0 <= i < |f| ==> f[i].key == g[i].key
  {
    if f != [] {
      FirstKey(f, g);
      FirstKey(g, f);
      KeyOrderDecides(f[0].key, g[0].key);
      forall k ensures HasKey(f[1..], k) <==> HasKey(g[1..], k) {
        TailKeys(f, k);
        TailKeys(g, k);
      }
      AscendingUnique(f[1..], g[1..]);
      forall i | 0 < i < |f| ensures f[i].key == g[i].key {
        assert f[1..][i - 1].key == g[1..][i - 1].key;
      }
    }
  }

  lemma FirstKey(f: seq<Field>, g: seq<Field>)
    requires f != [] && g != [] && Ascending(f) && HasKey(f, g[0].key)
    ensures f[0].key == g[0].key || KeyBelow(f[0].key, g[0].key)
  {
  }

  lemma TailKeys(f: seq<Field>, key: Text)
    requires f != [] && Ascending(f)
    ensures HasKey(f[1..], key) <==> HasKey(f, key) && key != f[0].key
  {
    if HasKey(f[1..], key) {
      var i :| 0 <= i < |f| - 1 && f[1..][i].key == key;
      assert f[i + 1].key == key;
      KeyOrderDecides(f[0].key, key);
    }
    if HasKey(f, key) && key != f[0].key {
      var i :| 0 <= i < |f| && f[i].key == key;
      assert f[1..][i - 1].key == key;
    }
  }

  // ----- the canonical text -----------------------------------------------------------------------

  /** A part of a list or record, in the order it is written. */
  datatype Part = Part(key: Option<Text>, value: Json)

  function Parts(v: Json): (parts: seq<Part>)
    ensures forall i :: 0 <= i < |parts| ==> parts[i].value < v
  {
    match v
    case List(items) => seq(|items|, i requires 0 <= i < |items| => Part(None, items[i]))
    case Record(fields) =>
      var sorted := Sorted(fields);
      assert forall i :: 0 <= i < |sorted| ==> sorted[i] in fields;
      seq(|sorted|, i requires 0 <= i < |sorted| => Part(Some(sorted[i].key), sorted[i].value))
    case _ => []
  }

  function KeyText(key: Option<Text>): string {
    if key == None then "" else JsonString(key.value) + ":"
  }

  function Tail(texts: seq<string>): string {
    if texts == [] then "" else "," + texts[0] + Tail(texts[1..])
  }

  /** The texts with commas between them. */
  function Joined(texts: seq<string>): string {
    if texts == [] then "" else texts[0] + Tail(texts[1..])
  }

  function Texts(v: Json, read: Reader): (texts: seq<string>)
    ensures |texts| == |Parts(v)|
    ensures forall i :: 0 <= i < |texts| ==> texts[i] == KeyText(Parts(v)[i].key) + Print(Parts(v)[i].value, read)
    decreases v, 0
  {
    var parts := Parts(v);
    seq(|parts|, i requires 0 <= i < |parts| => KeyText(parts[i].key) + Print(parts[i].value, read))
  }

  function Print(v: Json, read: Reader): string
    decreases v, 1
  {
    match v
    case Null => "null"
    case Bool(truth) => if truth then "true" else "false"
    case String(text) => JsonString(text)
    case Number(literal) => N.NumberText(N.MeaningOf(literal, read))
    case NonFinite(float) => N.PythonFloat(float)
    case List(_) => "[" + Joined(Texts(v, read)) + "]"
    case Record(_) => "{" + Joined(Texts(v, read)) + "}"
  }

  /** Whether a document has a canonical text: no integer literal in it is too long. */
  predicate Presentable(v: Json) {
    match v
    case Number(literal) => !N.TooLong(literal)
    case List(items) => forall i :: 0 <= i < |items| ==> Presentable(items[i])
    case Record(fields) => forall i :: 0 <= i < |fields| ==> Presentable(fields[i].value)
    case _ => true
  }

  function CanonicalText(v: Json, read: Reader): Option<string> {
    if Presentable(v) then Some(Print(v, read)) else None
  }

  // ----- when two documents are the same ----------------------------------------------------------

  predicate IsNumeric(v: Json) {
    v.Number? || v.NonFinite?
  }

  function NumericMeaning(v: Json, read: Reader): N.Meaning
    requires IsNumeric(v)
  {
    match v
    case Number(literal) => N.MeaningOf(literal, read)
    case NonFinite(float) => N.Floating(float)
  }

  /** No object has a key twice. */
  predicate Proper(v: Json) {
    match v
    case List(items) => forall i :: 0 <= i < |items| ==> Proper(items[i])
    case Record(fields) => DistinctKeys(fields) && forall i :: 0 <= i < |fields| ==> Proper(fields[i].value)
    case _ => true
  }

  /** Equal up to the order of keys and the spelling of numbers. */
  predicate Same(v: Json, w: Json, read: Reader)
    decreases v
  {
    match v
    case List(items) =>
      && w.List? && |items| == |w.items|
      && forall i :: 0 <= i < |items| ==> Same(items[i], w.items[i], read)
    case Record(fields) =>
      && w.Record? && |fields| == |w.fields|
      && forall i :: 0 <= i < |fields| ==> exists j :: 0 <= j < |w.fields| && SameField(fields[i], w.fields[j], read)
    case _ =>
      if IsNumeric(v) then IsNumeric(w) && NumericMeaning(v, read) == NumericMeaning(w, read) else v == w
  }

  predicate SameField(f: Field, g: Field, read: Reader)
    decreases f
  {
    f.key == g.key && Same(f.value, g.value, read)
  }

  // ----- what follows a text shows where it ends ----------------------------------------------------

  predicate Follows(x: string) {
    x == "" || x[0] == ',' || x[0] == ']' || x[0] == '}'
  }

  predicate Closes(x: string) {
    x != "" && (x[0] == ']' || x[0] == '}')
  }

  lemma TokenPrefix(s: string, t: string, x: string, y: string)
    requires N.IsToken(s) && N.IsToken(t) && Follows(x) && Follows(y) && s + x == t + y
    ensures s == t && x == y
  {
    assert forall i :: 0 <= i < |s| ==> (s + x)[i] == s[i] && s[i] in s;
    assert forall i :: 0 <= i < |t| ==> (t + y)[i] == t[i] && t[i] in t;
    assert x != "" ==> !N.IsTokenChar((s + x)[|s|]);
    assert y != "" ==> !N.IsTokenChar((t + y)[|t|]);
    assert |s| == |t|;
    assert s == (s + x)[..|s|] && t == (t + y)[..|t|];
    assert x == (s + x)[|s|..] && y == (t + y)[|t|..];
  }

  lemma NumericPrint(v: Json, read: Reader)
    requires IsNumeric(v)
    ensures Print(v, read) == N.NumberText(NumericMeaning(v, read)) && N.IsToken(Print(v, read))
    ensures NumericMeaning(v, read).Integer? ==> N.IsInteger(NumericMeaning(v, read).text)
  {
    N.NumberTextInjective(NumericMeaning(v, read), NumericMeaning(v, read));
  }

  /** The first character of a text shows what kind of value it is. */
  function Kind(v: Json): int {
    match v
    case Null => 0
    case Bool(truth) => if truth then 1 else 2
    case String(_) => 3
    case List(_) => 4
    case Record(_) => 5
    case _ => 6
  }

  function KindOf(c: char): int {
    match c
    case 'n' => 0
    case 't' => 1
    case 'f' => 2
    case '\"' => 3
    case '[' => 4
    case '{' => 5
    case _ => 6
  }

  /** The first character of a text, where it is not that of a number. */
  lemma PrintStarts(v: Json, read: Reader)
    requires !IsNumeric(v)
    ensures Print(v, read) != "" && KindOf(Print(v, read)[0]) == Kind(v) && Kind(v) < 6
  {
    match v
    case String(text) =>
      JsonStringIsUnitwise(text);
      assert Print(v, read)[0] == '\"';
    case List(_) => assert Print(v, read)[0] == '[';
    case Record(_) => assert Print(v, read)[0] == '{';
    case _ =>
  }

  lemma TokenStarts(s: string)
    requires N.IsToken(s)
    ensures s != "" && KindOf(s[0]) == 6 && s[0] != ']' && s[0] != '}'
  {
    assert s[0] in s;
  }

  lemma FirstStays(s: string, x: string)
    requires s != ""
    ensures (s + x)[0] == s[0]
  {
  }

  lemma PrintKind(v: Json, read: Reader, x: string)
    ensures Print(v, read) != "" && KindOf((Print(v, read) + x)[0]) == Kind(v)
    ensures !Closes(Print(v, read) + x)
  {
    var text := Print(v, read);
    if IsNumeric(v) {
      NumericPrint(v, read);
      TokenStarts(text);
    } else {
      PrintStarts(v, read);
    }
    FirstStays(text, x);
    KindIsOpen(text[0], Kind(v));
  }

  lemma KindIsOpen(c: char, kind: int)
    requires KindOf(c) == kind && (kind == 6 ==> c != ']' && c != '}')
    ensures c != ']' && c != '}'
  {
  }

  lemma KeyPrefix(k: Option<Text>, l: Option<Text>, x: string, y: string)
    requires k.Some? == l.Some? && KeyText(k) + x == KeyText(l) + y
    ensures k == l && x == y
  {
    if k.Some? {
      Regroup(JsonString(k.value), ":", x);
      Regroup(JsonString(l.value), ":", y);
      JsonStringPrefix(k.value, l.value, ":" + x, ":" + y);
      assert x == (":" + x)[1..] && y == (":" + y)[1..];
    } else {
      assert KeyText(k) + x == x && KeyText(l) + y == y;
    }
  }

  lemma ProperParts(v: Json, i: nat)
    requires Proper(v) && i < |Parts(v)|
    ensures Proper(Parts(v)[i].value)
  {
    if v.Record? {
      assert Sorted(v.fields)[i] in v.fields;
    }
  }

  /** Each text shows where it ends. */
  ghost predicate Separable(s: string, t: string) {
    forall x, y :: Follows(x) && Follows(y) && s + x == t + y ==> s == t && x == y
  }

  ghost predicate AllSeparable(a: seq<string>, b: seq<string>) {
    forall i, j :: 0 <= i < |a| && 0 <= j < |b| ==> Separable(a[i], b[j])
  }

  lemma TailFollows(texts: seq<string>, x: string)
    requires Closes(x)
    ensures Follows(Tail(texts) + x) && Tail(texts) + x != ""
    ensures (Tail(texts) + x)[0] == ',' <==> texts != []
  {
    if texts == [] {
      assert Tail(texts) + x == x;
    }
  }

  lemma TailIs(texts: seq<string>, x: string)
    requires texts != []
    ensures Tail(texts) + x == "," + (texts[0] + (Tail(texts[1..]) + x))
    ensures Tail(texts) + x == "," + (Joined(texts) + x)
  {
    var t, rest := texts[0], Tail(texts[1..]);
    Regroup("," + t, rest, x);
    Regroup(",", t, rest + x);
    Regroup(t, rest, x);
  }

  lemma {:induction false} TailPrefix(a: seq<string>, b: seq<string>, x: string, y: string)
    requires AllSeparable(a, b) && Closes(x) && Closes(y) && Tail(a) + x == Tail(b) + y
    ensures a == b && x == y
  {
    assert a == [] <==> b == [] by {
      TailFollows(a, x);
      TailFollows(b, y);
    }
    if a == [] {
      assert Tail(a) + x == x && Tail(b) + y == y;
    } else {
      FirstText(a, b, x, y);
      TailPrefix(a[1..], b[1..], x, y);
      assert a == [a[0]] + a[1..] && b == [b[0]] + b[1..];
    }
  }

  lemma FirstText(a: seq<string>, b: seq<string>, x: string, y: string)
    requires AllSeparable(a, b) && Closes(x) && Closes(y) && Tail(a) + x == Tail(b) + y
    requires a != [] && b != []
    ensures a[0] == b[0] && Tail(a[1..]) + x == Tail(b[1..]) + y
  {
    var x', y' := Tail(a[1..]) + x, Tail(b[1..]) + y;
    TailFollows(a[1..], x);
    TailFollows(b[1..], y);
    TailIs(a, x);
    TailIs(b, y);
    var p, q := a[0] + x', b[0] + y';
    assert p == ("," + p)[1..] == ("," + q)[1..] == q;
    assert Separable(a[0], b[0]);
  }

  /** No text is empty or begins like the end of the list. */
  predicate Opening(texts: seq<string>) {
    forall i :: 0 <= i < |texts| ==> texts[i] != "" && !Closes(texts[i])
  }

  lemma JoinedPrefix(a: seq<string>, b: seq<string>, x: string, y: string)
    requires AllSeparable(a, b) && Opening(a) && Opening(b) && Closes(x) && Closes(y)
    requires Joined(a) + x == Joined(b) + y
    ensures a == b && x == y
  {
    JoinedFirst(a, x);
    JoinedFirst(b, y);
    if a == [] {
      assert Joined(a) + x == x && Joined(b) + y == y;
    } else {
      TailIs(a, x);
      TailIs(b, y);
      TailPrefix(a, b, x, y);
    }
  }

  lemma JoinedFirst(a: seq<string>, x: string)
    requires Opening(a) && Closes(x)
    ensures Closes(Joined(a) + x) <==> a == []
  {
    if a == [] {
      assert Joined(a) + x == x;
    } else {
      assert (Joined(a) + x)[0] == a[0][0];
    }
  }

  /** Whatever follows the text of `v`, only the same document reads like it, and ends where it ends. */
  ghost predicate Unambiguous(v: Json, read: Reader) {
    forall w, x, y :: Proper(w) && Follows(x) && Follows(y) && Print(v, read) + x == Print(w, read) + y ==>
      Same(v, w, read) && x == y
  }

  ghost predicate UnambiguousParts(v: Json, read: Reader) {
    forall i :: 0 <= i < |Parts(v)| ==> Unambiguous(Parts(v)[i].value, read)
  }

  lemma PartSeparable(p: Part, q: Part, read: Reader, x: string, y: string)
    requires Unambiguous(p.value, read) && Proper(q.value) && p.key.Some? == q.key.Some?
    requires Follows(x) && Follows(y)
    requires (KeyText(p.key) + Print(p.value, read)) + x == (KeyText(q.key) + Print(q.value, read)) + y
    ensures p.key == q.key && Same(p.value, q.value, read) && Print(p.value, read) == Print(q.value, read) && x == y
  {
    var s, t := Print(p.value, read), Print(q.value, read);
    Regroup(KeyText(p.key), s, x);
    Regroup(KeyText(q.key), t, y);
    KeyPrefix(p.key, q.key, s + x, t + y);
    assert s == (s + x)[..|s + x| - |x|] && t == (t + y)[..|t + y| - |y|];
  }

  lemma PartsSeparable(v: Json, w: Json, read: Reader)
    requires UnambiguousParts(v, read) && Proper(w) && v.Record? == w.Record?
    ensures AllSeparable(Texts(v, read), Texts(w, read))
  {
    forall i, j | 0 <= i < |Parts(v)| && 0 <= j < |Parts(w)|
      ensures Separable(Texts(v, read)[i], Texts(w, read)[j])
    {
      ProperParts(w, j);
      var s, t := Texts(v, read)[i], Texts(w, read)[j];
      forall x, y | Follows(x) && Follows(y) && s + x == t + y ensures s == t && x == y {
        PartSeparable(Parts(v)[i], Parts(w)[j], read, x, y);
      }
    }
  }

  lemma PartOpens(p: Part, read: Reader)
    ensures KeyText(p.key) + Print(p.value, read) != "" && !Closes(KeyText(p.key) + Print(p.value, read))
  {
    PrintKind(p.value, read, "");
    assert Print(p.value, read) + "" == Print(p.value, read);
    if p.key.Some? {
      JsonStringIsUnitwise(p.key.value);
    }
  }

  lemma PartsOpen(v: Json, read: Reader)
    ensures Opening(Texts(v, read))
  {
    forall i | 0 <= i < |Parts(v)| ensures Texts(v, read)[i] != "" && !Closes(Texts(v, read)[i]) {
      PartOpens(Parts(v)[i], read);
    }
  }

  predicate SameParts(v: Json, w: Json, read: Reader) {
    && |Parts(v)| == |Parts(w)|
    && forall i :: 0 <= i < |Parts(v)| ==>
         Parts(v)[i].key == Parts(w)[i].key && Same(Parts(v)[i].value, Parts(w)[i].value, read)
  }

  lemma EqualTexts(v: Json, w: Json, read: Reader)
    requires UnambiguousParts(v, read) && Proper(w) && v.Record? == w.Record?
    requires Texts(v, read) == Texts(w, read)
    ensures SameParts(v, w, read)
  {
    forall i | 0 <= i < |Parts(v)|
      ensures Parts(v)[i].key == Parts(w)[i].key && Same(Parts(v)[i].value, Parts(w)[i].value, read)
    {
      ProperParts(w, i);
      assert Texts(v, read)[i] == Texts(w, read)[i];
      PartSeparable(Parts(v)[i], Parts(w)[i], read, "", "");
    }
  }

  /** Parts that are the same one by one make the same list or record. */
  lemma SamePartsSame(v: Json, w: Json, read: Reader)
    requires (v.List? && w.List?) || (v.Record? && w.Record?)
    requires SameParts(v, w, read)
    ensures Same(v, w, read)
  {
    if v.List? {
      assert forall i :: 0 <= i < |v.items| ==> Parts(v)[i].value == v.items[i] && Parts(w)[i].value == w.items[i];
    } else {
      var f, g := Sorted(v.fields), Sorted(w.fields);
      forall i | 0 <= i < |v.fields|
        ensures exists j :: 0 <= j < |w.fields| && SameField(v.fields[i], w.fields[j], read)
      {
        assert v.fields[i] in f;
        var k :| 0 <= k < |f| && f[k] == v.fields[i];
        assert Parts(v)[k].key == Parts(w)[k].key && Same(Parts(v)[k].value, Parts(w)[k].value, read);
        assert g[k] in w.fields;
        var j :| 0 <= j < |w.fields| && w.fields[j] == g[k];
        assert SameField(v.fields[i], w.fields[j], read);
      }
    }
  }

  lemma Composite(v: Json, read: Reader, x: string)
    requires v.List? || v.Record?
    ensures (Print(v, read) + x)[1..] == Joined(Texts(v, read)) + ((if v.List? then "]" else "}") + x)
  {
    if v.List? {
      Unwrap("[", Joined(Texts(v, read)), "]", x);
    } else {
      Unwrap("{", Joined(Texts(v, read)), "}", x);
    }
  }

  lemma Unwrap(open: string, inner: string, close: string, x: string)
    requires |open| == 1
    ensures (open + inner + close + x)[1..] == inner + (close + x)
  {
  }

  /** Two texts that agree, whatever follows them, are texts of the same document. */
  lemma PrintPrefix(v: Json, w: Json, x: string, y: string, read: Reader)
    requires UnambiguousParts(v, read) && Proper(w) && Follows(x) && Follows(y)
    requires Print(v, read) + x == Print(w, read) + y
    ensures Same(v, w, read) && x == y
  {
    PrintKind(v, read, x);
    PrintKind(w, read, y);
    if v.List? || v.Record? {
      var close := if v.List? then "]" else "}";
      Composite(v, read, x);
      Composite(w, read, y);
      PartsSeparable(v, w, read);
      PartsOpen(v, read);
      PartsOpen(w, read);
      JoinedPrefix(Texts(v, read), Texts(w, read), close + x, close + y);
      EqualTexts(v, w, read);
      SamePartsSame(v, w, read);
      assert x == (close + x)[1..] && y == (close + y)[1..];
    } else {
      LeafPrefix(v, w, x, y, read);
    }
  }

  lemma {:induction false} PrintIsUnambiguous(v: Json, read: Reader)
    ensures Unambiguous(v, read)
    decreases v
  {
    forall i | 0 <= i < |Parts(v)| ensures Unambiguous(Parts(v)[i].value, read) {
      PrintIsUnambiguous(Parts(v)[i].value, read);
    }
    forall w, x, y | Proper(w) && Follows(x) && Follows(y) && Print(v, read) + x == Print(w, read) + y
      ensures Same(v, w, read) && x == y
    {
      PrintPrefix(v, w, x, y, read);
    }
  }

  lemma LeafPrefix(v: Json, w: Json, x: string, y: string, read: Reader)
    requires Kind(v) == Kind(w) && !v.List? && !v.Record? && Follows(x) && Follows(y)
    requires Print(v, read) + x == Print(w, read) + y
    ensures Same(v, w, read) && x == y
  {
    if v.String? {
      JsonStringPrefix(v.text, w.text, x, y);
    } else if IsNumeric(v) {
      NumericPrint(v, read);
      NumericPrint(w, read);
      TokenPrefix(Print(v, read), Print(w, read), x, y);
      N.NumberTextInjective(NumericMeaning(v, read), NumericMeaning(w, read));
    } else {
      assert v == w;
      var p := Print(v, read);
      assert x == (p + x)[|p|..] && y == (p + y)[|p|..];
    }
  }

  // ----- the same document has one text -------------------------------------------------------------

  lemma SameKeys(v: Json, w: Json, read: Reader)
    requires v.Record? && Proper(v) && Proper(w) && Same(v, w, read)
    ensures forall k :: HasKey(v.fields, k) <==> HasKey(w.fields, k)
  {
    var f, g := v.fields, w.fields;
    forall k | HasKey(f, k) ensures HasKey(g, k) {
      var i :| 0 <= i < |f| && f[i].key == k;
      var j :| 0 <= j < |g| && SameField(f[i], g[j], read);
    }
    KeySetSize(f);
    KeySetSize(g);
    assert KeySet(f) <= KeySet(g);
    SameSize(KeySet(f), KeySet(g));
    forall k | HasKey(g, k) ensures HasKey(f, k) {
      assert k in KeySet(g);
    }
  }

  ghost function KeySet(fields: seq<Field>): set<Text> {
    set i | 0 <= i < |fields| :: fields[i].key
  }

  lemma {:induction false} KeySetSize(fields: seq<Field>)
    requires DistinctKeys(fields)
    ensures |KeySet(fields)| == |fields|
  {
    if fields != [] {
      var n := |fields| - 1;
      KeySetSize(fields[..n]);
      assert KeySet(fields) == KeySet(fields[..n]) + {fields[n].key};
    }
  }

  lemma SameSize(a: set<Text>, b: set<Text>)
    requires a <= b && |a| == |b|
    ensures a == b
  {
    if k :| k in b && k !in a {
      assert a <= b - {k};
      SubsetSize(a, b - {k});
    }
  }

  lemma SortedHasKey(fields: seq<Field>, key: Text)
    ensures HasKey(Sorted(fields), key) <==> HasKey(fields, key)
  {
    if HasKey(fields, key) {
      var i :| 0 <= i < |fields| && fields[i].key == key;
      assert fields[i] in Sorted(fields);
    }
    if HasKey(Sorted(fields), key) {
      var i :| 0 <= i < |fields| && Sorted(fields)[i].key == key;
      assert Sorted(fields)[i] in fields;
    }
  }

  lemma SameSameParts(v: Json, w: Json, read: Reader)
    requires v.List? || v.Record?
    requires Proper(v) && Proper(w) && Same(v, w, read)
    ensures SameParts(v, w, read)
  {
    if v.Record? {
      var f, g := Sorted(v.fields), Sorted(w.fields);
      SortedAscending(v.fields);
      SortedAscending(w.fields);
      SameKeys(v, w, read);
      forall k ensures HasKey(f, k) <==> HasKey(g, k) {
        SortedHasKey(v.fields, k);
        SortedHasKey(w.fields, k);
      }
      AscendingUnique(f, g);
      forall i | 0 <= i < |f| ensures Same(f[i].value, g[i].value, read) {
        assert f[i] in v.fields && g[i] in w.fields;
        var m :| 0 <= m < |v.fields| && v.fields[m] == f[i];
        var j :| 0 <= j < |w.fields| && SameField(v.fields[m], w.fields[j], read);
        var n :| 0 <= n < |w.fields| && w.fields[n] == g[i];
        assert w.fields[j].key == w.fields[n].key;
        assert j == n;
      }
    }
  }

  lemma {:induction false} SamePrint(v: Json, w: Json, read: Reader)
    requires Proper(v) && Proper(w) && Same(v, w, read)
    ensures Print(v, read) == Print(w, read)
    decreases v
  {
    if v.List? || v.Record? {
      SameSameParts(v, w, read);
      forall i | 0 <= i < |Parts(v)| ensures Texts(v, read)[i] == Texts(w, read)[i] {
        ProperParts(v, i);
        ProperParts(w, i);
        SamePrint(Parts(v)[i].value, Parts(w)[i].value, read);
      }
      assert Texts(v, read) == Texts(w, read);
    } else if IsNumeric(v) {
      NumericPrint(v, read);
      NumericPrint(w, read);
    }
  }

  /** Canonical texts are equal exactly if the documents are the same. */
  lemma CanonicalIsUnambiguous(v: Json, w: Json, read: Reader)
    requires Proper(v) && Proper(w)
    requires CanonicalText(v, read).Some? && CanonicalText(w, read).Some?
    ensures CanonicalText(v, read) == CanonicalText(w, read) <==> Same(v, w, read)
  {
    if Same(v, w, read) {
      SamePrint(v, w, read);
    }
    if Print(v, read) == Print(w, read) {
      PrintIsUnambiguous(v, read);
      var end := "";
      assert Print(v, read) + end == Print(w, read) + end && Follows(end);
    }
  }
}
