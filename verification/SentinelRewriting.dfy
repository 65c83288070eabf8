/**
 Reading a document that a strict JSON parser would refuse or distort: `__proto__` keys and
 the words NaN, Infinity and -Infinity become strings that occur nowhere in the document,
 the strict parser reads the result, and the strings are turned back. Documents are
 sequences of lexemes; how a text is cut into them is not part of this model.
 */
module SentinelRewriting {
  import opened Wrappers
  import opened JsonStrings
  import opened CanonicalJson

  type Scalar = v: Json | v.Null? || v.Bool? || v.Number? witness Null

  datatype Lexeme =
    | Space
    | OpenRecord
    | CloseRecord
    | OpenList
    | CloseList
    | Colon
    | Comma
    | Quoted(text: Text)
    | Plain(value: Scalar)          // true, false, null or a number
    | Unquoted(float: NonFiniteFloat)

  const PROTO: Text := [0x5f, 0x5f, 0x70, 0x72, 0x6f, 0x74, 0x6f, 0x5f, 0x5f]

  // ----- choosing sentinels -------------------------------------------------------------------------

  function Padded(base: Text, n: nat): Text {
    base + seq(n, i => 0)
  }

  lemma PaddedInjective(base: Text, m: nat, n: nat)
    requires Padded(base, m) == Padded(base, n)
    ensures m == n
  {
    assert |Padded(base, m)| == |base| + m && |Padded(base, n)| == |base| + n;
  }

  /** The first of base, base + NUL, base + NUL NUL and so on that is not among `strings`. */
  method ChooseSentinel(base: Text, strings: set<Text>) returns (sentinel: Text, ghost n: nat)
    ensures sentinel == Padded(base, n) && sentinel !in strings
    ensures forall m: nat :: m < n ==> Padded(base, m) in strings
  {
    sentinel, n := base, 0;
    ghost var left := strings;
    while sentinel in strings
      invariant sentinel == Padded(base, n) && left <= strings
      invariant forall m: nat :: m < n ==> Padded(base, m) in strings
      invariant forall t :: t in strings && t !in left ==> exists m: nat :: m < n && t == Padded(base, m)
      decreases |left|
    {
      if sentinel !in left {
        var m: nat :| m < n && sentinel == Padded(base, m);
        PaddedInjective(base, m, n);
      }
      left := left - {sentinel};
      sentinel := sentinel + [0];
      n := n + 1;
    }
  }

  datatype Sentinels = Sentinels(proto: Text, nan: Text, infinity: Text, negative: Text)

  function SentinelFor(s: Sentinels, float: NonFiniteFloat): Text {
    match float
    case NotANumber => s.nan
    case Infinite(negative) => if negative then s.negative else s.infinity
  }

  predicate Mentions(ls: seq<Lexeme>, text: Text) {
    exists i :: 0 <= i < |ls| && ls[i] == Quoted(text)
  }

  /** The sentinels occur nowhere in the document, differ from each other, and none is the key they stand in for. */
  predicate Fresh(ls: seq<Lexeme>, s: Sentinels) {
    && s.proto != PROTO && s.nan != PROTO && s.infinity != PROTO && s.negative != PROTO
    && !Mentions(ls, s.proto) && !Mentions(ls, s.nan) && !Mentions(ls, s.infinity) && !Mentions(ls, s.negative)
    && s.nan != s.infinity && s.nan != s.negative && s.infinity != s.negative
    && s.proto != s.nan && s.proto != s.infinity && s.proto != s.negative
  }

  // ----- rewriting and restoring ----------------------------------------------------------------------

  function Skip(ls: seq<Lexeme>, i: nat): (j: nat)
    requires i <= |ls|
    ensures i <= j <= |ls| && (j < |ls| ==> ls[j] != Space)
    ensures forall k :: i <= k < j ==> ls[k] == Space
    decreases |ls| - i
  {
    if i < |ls| && ls[i] == Space then Skip(ls, i + 1) else i
  }

  predicate BeforeColon(ls: seq<Lexeme>, i: nat)
    requires i < |ls|
  {
    var j := Skip(ls, i + 1);
    j < |ls| && ls[j] == Colon
  }

  predicate Precedes(x: Lexeme) {
    x.Space? || x.OpenList? || x.Colon? || x.Comma?
  }

  predicate EndsValue(x: Lexeme) {
    x.Comma? || x.CloseList? || x.CloseRecord?
  }

  /** A word is recognised between these neighbours only. */
  predicate Stands(ls: seq<Lexeme>, i: nat)
    requires i < |ls|
  {
    && (i == 0 || Precedes(ls[i - 1]) || ls[i - 1] == OpenRecord)
    && (i + 1 == |ls| || ls[i + 1] == Space || EndsValue(ls[i + 1]))
  }

  function Rewritten(ls: seq<Lexeme>, i: nat, s: Sentinels): Lexeme
    requires i < |ls|
  {
    match ls[i]
    case Quoted(text) => if text == PROTO && BeforeColon(ls, i) then Quoted(s.proto) else ls[i]
    case Unquoted(float) => if Stands(ls, i) then Quoted(SentinelFor(s, float)) else ls[i]
    case _ => ls[i]
  }

  function Protected(ls: seq<Lexeme>, s: Sentinels): (r: seq<Lexeme>)
    ensures |r| == |ls|
    ensures forall i :: 0 <= i < |ls| ==> r[i] == Rewritten(ls, i, s)
  {
    seq(|ls|, i requires 0 <= i < |ls| => Rewritten(ls, i, s))
  }

  function RestoredText(text: Text, s: Sentinels): Json {
    if text == s.nan then NonFinite(N.NotANumber)
    else if text == s.infinity then NonFinite(N.Infinite(false))
    else if text == s.negative then NonFinite(N.Infinite(true))
    else String(text)
  }

  function RestoredKey(key: Text, s: Sentinels): Text {
    if key == s.proto then PROTO else key
  }

  function Restored(v: Json, s: Sentinels): Json {
    match v
    case String(text) => RestoredText(text, s)
    case List(items) => List(RestoredItems(items, s))
    case Record(fields) => Record(RestoredFields(fields, s))
    case _ => v
  }

  function RestoredItems(items: seq<Json>, s: Sentinels): (r: seq<Json>)
    ensures |r| == |items|
    ensures forall i :: 0 <= i < |items| ==> r[i] == Restored(items[i], s)
  {
    if items == [] then [] else [Restored(items[0], s)] + RestoredItems(items[1..], s)
  }

  function RestoredFields(fields: seq<Field>, s: Sentinels): (r: seq<Field>)
    ensures |r| == |fields|
    ensures forall i :: 0 <= i < |fields| ==>
      r[i] == Field(RestoredKey(fields[i].key, s), Restored(fields[i].value, s))
  {
    if fields == [] then []
    else [Field(RestoredKey(fields[0].key, s), Restored(fields[0].value, s))] + RestoredFields(fields[1..], s)
  }

  function RestoredEntry(p: Part, s: Sentinels): Part {
    Part(if p.key.Some? then Some(RestoredKey(p.key.value, s)) else None, Restored(p.value, s))
  }

  function RestoredEntries(entries: seq<Part>, s: Sentinels): seq<Part> {
    if entries == [] then [] else [RestoredEntry(entries[0], s)] + RestoredEntries(entries[1..], s)
  }

  // ----- the sentinels of a document ------------------------------------------------------------------

  function Strings(ls: seq<Lexeme>): set<Text> {
    set i | 0 <= i < |ls| && ls[i].Quoted? :: ls[i].text
  }

  /** The document with its `__proto__` keys renamed, in which the words' sentinels are chosen. */
  function Renamed(ls: seq<Lexeme>, proto: Text): seq<Lexeme> {
    seq(|ls|, i requires 0 <= i < |ls| =>
      if ls[i] == Quoted(PROTO) && BeforeColon(ls, i) then Quoted(proto) else ls[i])
  }

  const PROTO_BASE: Text := [0] + PROTO
  const NAN_BASE: Text := [0] + ToText("python-non-finite:NaN")
  const INFINITY_BASE: Text := [0] + ToText("python-non-finite:Infinity")
  const NEGATIVE_BASE: Text := [0] + ToText("python-non-finite:-Infinity")

  lemma NotMentioned(ls: seq<Lexeme>, proto: Text, text: Text)
    requires text !in Strings(Renamed(ls, proto)) && text != PROTO
    ensures !Mentions(ls, text)
  {
    assert forall i :: 0 <= i < |ls| && ls[i] != Quoted(PROTO) ==> Renamed(ls, proto)[i] == ls[i];
  }

  /** The sentinels are chosen one after the other, each new to the document and to those before. */
  method ChooseSentinels(ls: seq<Lexeme>) returns (s: Sentinels)
    ensures Fresh(ls, s)
  {
    var proto, _ := ChooseSentinel(PROTO_BASE, Strings(ls));
    assert !Mentions(ls, proto);
    var strings := Strings(Renamed(ls, proto));
    var nan, _ := ChooseSentinel(NAN_BASE, strings);
    var infinity, _ := ChooseSentinel(INFINITY_BASE, strings + {nan});
    var negative, _ := ChooseSentinel(NEGATIVE_BASE, strings + {nan, infinity});
    assert proto[1] == 0x5f && nan[1] == infinity[1] == negative[1] == 0x70;
    assert PROTO[0] != 0 && nan[0] == infinity[0] == negative[0] == 0;
    NotMentioned(ls, proto, nan);
    NotMentioned(ls, proto, infinity);
    NotMentioned(ls, proto, negative);
    s := Sentinels(proto, nan, infinity, negative);
  }

  // ----- the parsers ----------------------------------------------------------------------------------

  datatype Parsed<+T> = Failed | Parsed(value: T, next: nat)

  predicate At(ls: seq<Lexeme>, i: nat, lexeme: Lexeme) {
    i < |ls| && ls[i] == lexeme
  }

  function Closing(keyed: bool): Lexeme {
    if keyed then CloseRecord else CloseList
  }

  /** The list or record of its entries. */
  function Build(entries: seq<Part>, keyed: bool): Json {
    if keyed then Record(seq(|entries|, i requires 0 <= i < |entries| => AsField(entries[i])))
    else List(seq(|entries|, i requires 0 <= i < |entries| => entries[i].value))
  }

  function AsField(p: Part): Field {
    Field(if p.key.Some? then p.key.value else [], p.value)
  }

  /** A value; words are values only in the extended grammar. */
  function Value(ls: seq<Lexeme>, i: nat, words: bool): (r: Parsed<Json>)
    requires i <= |ls|
    ensures r.Parsed? ==> i < r.next <= |ls|
    decreases |ls| - i, 1
  {
    var j := Skip(ls, i);
    if j == |ls| then Failed
    else
      match ls[j]
      case Quoted(text) => Parsed(String(text), j + 1)
      case Plain(value) => Parsed(value, j + 1)
      case Unquoted(float) => if words then Parsed(NonFinite(float), j + 1) else Failed
      case OpenList => Opened(ls, j + 1, false, words)
      case OpenRecord => Opened(ls, j + 1, true, words)
      case _ => Failed
  }

  /**
   What becomes of a record's entries. The strict parser assigns them one by one to an ordinary
   object, where an assignment to `__proto__` makes no field.
   */
  function Kept(entries: seq<Part>, words: bool): seq<Part> {
    if words || entries == [] then entries
    else if entries[0].key == Some(PROTO) then Kept(entries[1..], words)
    else [entries[0]] + Kept(entries[1..], words)
  }

  function Opened(ls: seq<Lexeme>, i: nat, keyed: bool, words: bool): (r: Parsed<Json>)
    requires i <= |ls|
    ensures r.Parsed? ==> i < r.next <= |ls|
    decreases |ls| - i, 3
  {
    if At(ls, Skip(ls, i), Closing(keyed)) then Parsed(Build([], keyed), Skip(ls, i) + 1)
    else
      var r := Entries(ls, i, keyed, words);
      if r.Failed? then Failed else Parsed(Build(Kept(r.value, words), keyed), r.next)
  }

  /** A quoted key and its colon, in a record; gives where the value starts. */
  function Key(ls: seq<Lexeme>, i: nat, keyed: bool): (r: Parsed<Option<Text>>)
    requires i <= |ls|
    ensures r.Parsed? ==> i <= r.next <= |ls| && r.value.Some? == keyed
  {
    var k := Skip(ls, i);
    if !keyed then Parsed(None, i)
    else if k < |ls| && ls[k].Quoted? && BeforeColon(ls, k) then Parsed(Some(ls[k].text), Skip(ls, k + 1) + 1)
    else Failed
  }

  function Entries(ls: seq<Lexeme>, i: nat, keyed: bool, words: bool): (r: Parsed<seq<Part>>)
    requires i <= |ls|
    ensures r.Parsed? ==> i < r.next <= |ls|
    decreases |ls| - i, 2
  {
    var key := Key(ls, i, keyed);
    if key.Failed? then Failed
    else
      var v := Value(ls, key.next, words);
      if v.Failed? then Failed else EntriesAfter(ls, Part(key.value, v.value), v.next, keyed, words)
  }

  function EntriesAfter(ls: seq<Lexeme>, p: Part, n: nat, keyed: bool, words: bool): (r: Parsed<seq<Part>>)
    requires n <= |ls|
    ensures r.Parsed? ==> n < r.next <= |ls|
    decreases |ls| - n, 0
  {
    var m := Skip(ls, n);
    if At(ls, m, Closing(keyed)) then Parsed([p], m + 1)
    else if At(ls, m, Comma) then Before(p, Entries(ls, m + 1, keyed, words))
    else Failed
  }

  function Before(first: Part, rest: Parsed<seq<Part>>): (r: Parsed<seq<Part>>)
    ensures r.Parsed? == rest.Parsed? && (r.Parsed? ==> r.next == rest.next)
  {
    if rest.Failed? then Failed else Parsed([first] + rest.value, rest.next)
  }

  function Document(ls: seq<Lexeme>, words: bool): Option<Json> {
    var v := Value(ls, 0, words);
    if v.Parsed? && Skip(ls, v.next) == |ls| then Some(v.value) else None
  }

  /** What the buyer makes of a document. */
  function ReadProtected(ls: seq<Lexeme>, s: Sentinels): Option<Json> {
    var v := Document(Protected(ls, s), false);
    if v.Some? then Some(Restored(v.value, s)) else None
  }

  // ----- the two parses go together -------------------------------------------------------------------

  lemma {:induction false} SkipSame(ls: seq<Lexeme>, s: Sentinels, i: nat)
    requires i <= |ls|
    ensures Skip(Protected(ls, s), i) == Skip(ls, i)
    decreases |ls| - i
  {
    if i < |ls| && ls[i] == Space {
      SkipSame(ls, s, i + 1);
    }
  }

  lemma Structure(ls: seq<Lexeme>, s: Sentinels, i: nat)
    requires i <= |ls|
    ensures forall x :: x in {Space, OpenRecord, CloseRecord, OpenList, CloseList, Colon, Comma} ==>
      At(Protected(ls, s), i, x) == At(ls, i, x)
  {
  }

  /** What comes after a value in any document. */
  predicate Followed(ls: seq<Lexeme>, n: nat)
    requires n <= |ls|
  {
    var j := Skip(ls, n);
    j == |ls| || EndsValue(ls[j])
  }

  /** What comes before one. */
  predicate Preceded(ls: seq<Lexeme>, i: nat)
    requires i <= |ls|
  {
    i == 0 || Precedes(ls[i - 1])
  }

  /** No word stands where a key would. */
  predicate NoWordKeys(ls: seq<Lexeme>, lo: nat, hi: nat)
    requires lo <= hi <= |ls|
    decreases hi - lo
  {
    lo == hi || ((ls[lo].Unquoted? ==> !BeforeColon(ls, lo)) && NoWordKeys(ls, lo + 1, hi))
  }

  lemma {:induction false} NoWordKeyAt(ls: seq<Lexeme>, lo: nat, hi: nat, k: nat)
    requires lo <= k < hi <= |ls| && NoWordKeys(ls, lo, hi) && ls[k].Unquoted?
    ensures !BeforeColon(ls, k)
    decreases hi - lo
  {
    if lo < k {
      NoWordKeyAt(ls, lo + 1, hi, k);
    }
  }

  lemma {:induction false} NoWordKeysJoin(ls: seq<Lexeme>, lo: nat, mid: nat, hi: nat)
    requires lo <= mid <= hi <= |ls| && NoWordKeys(ls, lo, mid) && NoWordKeys(ls, mid, hi)
    ensures NoWordKeys(ls, lo, hi)
    decreases mid - lo
  {
    if lo < mid {
      NoWordKeysJoin(ls, lo + 1, mid, hi);
    }
  }

  lemma {:induction false} SpacesHaveNoWords(ls: seq<Lexeme>, i: nat)
    requires i <= |ls|
    ensures NoWordKeys(ls, i, Skip(ls, i))
    decreases |ls| - i
  {
    if i < |ls| && ls[i] == Space {
      SpacesHaveNoWords(ls, i + 1);
    }
  }

  lemma OneIsNoWordKey(ls: seq<Lexeme>, i: nat)
    requires i < |ls| && (ls[i].Unquoted? ==> !BeforeColon(ls, i))
    ensures NoWordKeys(ls, i, i + 1)
  {
  }

  lemma WordStands(ls: seq<Lexeme>, i: nat)
    requires i <= |ls| && Preceded(ls, i)
    requires var j := Skip(ls, i); j < |ls| && Followed(ls, j + 1)
    ensures Stands(ls, Skip(ls, i)) && !BeforeColon(ls, Skip(ls, i))
  {
    var j := Skip(ls, i);
    if j > i {
      assert ls[j - 1] == Space;
    }
    if j + 1 < |ls| && ls[j + 1] != Space {
      assert Skip(ls, j + 1) == j + 1;
    }
  }

  lemma SentinelRestored(s: Sentinels, float: NonFiniteFloat)
    requires s.nan != s.infinity && s.nan != s.negative && s.infinity != s.negative
    ensures RestoredText(SentinelFor(s, float), s) == NonFinite(float)
  {
  }

  lemma TextRestored(ls: seq<Lexeme>, s: Sentinels, j: nat)
    requires Fresh(ls, s) && j < |ls| && ls[j].Quoted?
    ensures RestoredText(ls[j].text, s) == String(ls[j].text) && ls[j].text != s.proto
  {
    assert Mentions(ls, ls[j].text);
  }

  /** The results of the two parsers, once each of them succeeds. */
  predicate Agree(a: Parsed<Json>, b: Parsed<Json>, s: Sentinels) {
    a.Parsed? && b.Parsed? && a.next == b.next && a.value == Restored(b.value, s)
  }

  /** A single lexeme as a value. */
  lemma LeavesAgree(ls: seq<Lexeme>, s: Sentinels, i: nat)
    requires Fresh(ls, s) && i <= |ls| && Preceded(ls, i)
    requires var j := Skip(ls, i);
      j < |ls| && Followed(ls, j + 1) && (ls[j].Quoted? || ls[j].Plain? || ls[j].Unquoted?)
    ensures Agree(Value(ls, i, true), Value(Protected(ls, s), i, false), s)
  {
    var j := Skip(ls, i);
    SkipSame(ls, s, i);
    WordStands(ls, i);
    if ls[j].Quoted? {
      TextRestored(ls, s, j);
    } else if ls[j].Unquoted? {
      SentinelRestored(s, ls[j].float);
    }
  }

  lemma EntriesGrow(p: Part, rest: seq<Part>, s: Sentinels)
    ensures RestoredEntries([p] + rest, s) == [RestoredEntry(p, s)] + RestoredEntries(rest, s)
  {
    assert ([p] + rest)[1..] == rest;
  }

  lemma {:induction false} RestoredEntriesAt(entries: seq<Part>, s: Sentinels)
    ensures |RestoredEntries(entries, s)| == |entries|
    ensures forall i :: 0 <= i < |entries| ==> RestoredEntries(entries, s)[i] == RestoredEntry(entries[i], s)
  {
    if entries != [] {
      RestoredEntriesAt(entries[1..], s);
    }
  }

  /** Restoring a list or record restores its entries. */
  lemma BuildRestored(entries: seq<Part>, keyed: bool, s: Sentinels)
    requires forall p :: p in entries ==> p.key.Some? == keyed
    ensures Restored(Build(entries, keyed), s) == Build(RestoredEntries(entries, s), keyed)
  {
    RestoredEntriesAt(entries, s);
    var v, w := Restored(Build(entries, keyed), s), Build(RestoredEntries(entries, s), keyed);
    if keyed {
      assert v.fields == w.fields;
    } else {
      assert v.items == w.items;
    }
  }

  lemma BeforeColonSame(ls: seq<Lexeme>, s: Sentinels, k: nat)
    requires k < |ls|
    ensures BeforeColon(Protected(ls, s), k) == BeforeColon(ls, k)
  {
    SkipSame(ls, s, k + 1);
    Structure(ls, s, Skip(ls, k + 1));
  }

  lemma KeyRestored(ls: seq<Lexeme>, s: Sentinels, k: nat)
    requires Fresh(ls, s) && k < |ls| && ls[k].Quoted? && BeforeColon(ls, k)
    ensures Rewritten(ls, k, s).Quoted? && RestoredKey(Rewritten(ls, k, s).text, s) == ls[k].text
  {
    TextRestored(ls, s, k);
  }

  lemma KeyShape(ls: seq<Lexeme>, i: nat, keyed: bool)
    requires i <= |ls| && Key(ls, i, keyed).Parsed? && (Preceded(ls, i) || keyed)
    ensures Preceded(ls, Key(ls, i, keyed).next)
  {
  }

  predicate Structural(x: Lexeme) {
    !x.Quoted? && !x.Plain? && !x.Unquoted?
  }

  /** What the parsers' agreement rests on: the same structure, and leaves and keys that are read alike. */
  ghost predicate Twins(ls: seq<Lexeme>, ps: seq<Lexeme>, s: Sentinels, clean: bool) {
    && |ps| == |ls|
    && (forall i :: 0 <= i <= |ls| ==> Skip(ps, i) == Skip(ls, i))
    && (forall i :: 0 <= i < |ls| ==>
          Structural(ps[i]) == Structural(ls[i]) && (Structural(ls[i]) ==> ps[i] == ls[i]))
    && (forall i, keyed :: 0 <= i <= |ls| ==> KeysTwin(ls, ps, s, clean, i, keyed))
    && (forall i :: 0 <= i <= |ls| ==> LeavesTwin(ls, ps, s, clean, i))
    && (forall i, keyed :: 0 <= i <= |ls| ==> LosesNothing(ps, i, keyed))
  }

  /** The strict parser keeps every entry it reads here. */
  predicate LosesNothing(ps: seq<Lexeme>, i: nat, keyed: bool)
    requires i <= |ps|
  {
    var r := Entries(ps, i, keyed, false);
    r.Parsed? ==> Kept(r.value, false) == r.value
  }

  /** Nothing that the strict parser would lose. */
  predicate NoProtoKeys(ls: seq<Lexeme>) {
    forall i :: 0 <= i < |ls| && BeforeColon(ls, i) ==> ls[i] != Quoted(PROTO)
  }

  /** A key and its colon are read alike, unless a word stands in the key's place. */
  predicate KeysTwin(ls: seq<Lexeme>, ps: seq<Lexeme>, s: Sentinels, clean: bool, i: nat, keyed: bool)
    requires i <= |ls| == |ps|
  {
    var a, b := Key(ls, i, keyed), Key(ps, i, keyed);
    && (a.Parsed? ==>
          && b.Parsed? && a.next == b.next
          && a.value == (if keyed then Some(RestoredKey(b.value.value, s)) else None))
    && (b.Parsed? && clean ==> a.Parsed?)
  }

  predicate LeavesTwin(ls: seq<Lexeme>, ps: seq<Lexeme>, s: Sentinels, clean: bool, i: nat)
    requires i <= |ls| == |ps|
  {
    var j := Skip(ls, i);
    Preceded(ls, i) && !At(ls, j, OpenList) && !At(ls, j, OpenRecord) ==>
      ReadsAlike(ls, Value(ls, i, true), Value(ps, i, false), s, clean)
  }

  lemma KeysAgree(ls: seq<Lexeme>, s: Sentinels, i: nat, keyed: bool)
    requires Fresh(ls, s) && i <= |ls|
    ensures KeysTwin(ls, Protected(ls, s), s, NoWordKeys(ls, 0, |ls|), i, keyed)
  {
    var k := Skip(ls, i);
    SkipSame(ls, s, i);
    if k < |ls| {
      BeforeColonSame(ls, s, k);
      SkipSame(ls, s, k + 1);
      if ls[k].Quoted? && BeforeColon(ls, k) {
        KeyRestored(ls, s, k);
      }
      if ls[k].Unquoted? && NoWordKeys(ls, 0, |ls|) {
        NoWordKeyAt(ls, 0, |ls|, k);
      }
    }
  }

  /** A protected document has no `__proto__` key left, whatever keys and strings it had. */
  lemma ProtectedHasNoProtoKeys(ls: seq<Lexeme>, s: Sentinels)
    requires Fresh(ls, s)
    ensures NoProtoKeys(Protected(ls, s))
  {
    forall i | 0 <= i < |ls| && BeforeColon(Protected(ls, s), i) ensures Protected(ls, s)[i] != Quoted(PROTO) {
      BeforeColonSame(ls, s, i);
    }
  }

  /** Of entries without `__proto__` the strict parser keeps all. */
  lemma {:induction false} KeepsAll(entries: seq<Part>, words: bool)
    requires forall p :: p in entries ==> p.key != Some(PROTO)
    ensures Kept(entries, words) == entries
  {
    if entries != [] {
      KeepsAll(entries[1..], words);
    }
  }

  predicate Avoids(r: Parsed<seq<Part>>) {
    r.Parsed? ==> forall p :: p in r.value ==> p.key != Some(PROTO)
  }

  lemma BeforeAvoids(p: Part, r: Parsed<seq<Part>>)
    requires p.key != Some(PROTO) && Avoids(r)
    ensures Avoids(Before(p, r))
  {
  }

  lemma {:induction false} EntriesAvoidProto(ls: seq<Lexeme>, i: nat, keyed: bool, words: bool)
    requires i <= |ls| && NoProtoKeys(ls)
    ensures Avoids(Entries(ls, i, keyed, words))
    decreases |ls| - i, 2
  {
    var key := Key(ls, i, keyed);
    if key.Parsed? {
      var v := Value(ls, key.next, words);
      if v.Parsed? {
        KeyAvoidsProto(ls, i, keyed);
        AfterAvoidsProto(ls, Part(key.value, v.value), v.next, keyed, words);
      }
    }
  }

  lemma {:induction false} AfterAvoidsProto(ls: seq<Lexeme>, p: Part, n: nat, keyed: bool, words: bool)
    requires n <= |ls| && NoProtoKeys(ls) && p.key != Some(PROTO)
    ensures Avoids(EntriesAfter(ls, p, n, keyed, words))
    decreases |ls| - n, 0
  {
    var m := Skip(ls, n);
    if At(ls, m, Comma) {
      EntriesAvoidProto(ls, m + 1, keyed, words);
      BeforeAvoids(p, Entries(ls, m + 1, keyed, words));
    }
  }

  lemma KeyAvoidsProto(ls: seq<Lexeme>, i: nat, keyed: bool)
    requires i <= |ls| && NoProtoKeys(ls) && Key(ls, i, keyed).Parsed?
    ensures Key(ls, i, keyed).value != Some(PROTO)
  {
  }

  lemma ProtectedLosesNothing(ls: seq<Lexeme>, s: Sentinels, i: nat, keyed: bool)
    requires Fresh(ls, s) && i <= |ls|
    ensures LosesNothing(Protected(ls, s), i, keyed)
  {
    ProtectedHasNoProtoKeys(ls, s);
    EntriesAvoidProto(Protected(ls, s), i, keyed, false);
    var r := Entries(Protected(ls, s), i, keyed, false);
    if r.Parsed? {
      KeepsAll(r.value, false);
    }
  }

  lemma ProtectedIsTwin(ls: seq<Lexeme>, s: Sentinels)
    requires Fresh(ls, s)
    ensures Twins(ls, Protected(ls, s), s, NoWordKeys(ls, 0, |ls|))
  {
    var ps, clean := Protected(ls, s), NoWordKeys(ls, 0, |ls|);
    forall i | 0 <= i <= |ls| ensures Skip(ps, i) == Skip(ls, i) {
      SkipSame(ls, s, i);
    }
    forall i, keyed | 0 <= i <= |ls| ensures KeysTwin(ls, ps, s, clean, i, keyed) {
      KeysAgree(ls, s, i, keyed);
    }
    forall i, keyed | 0 <= i <= |ls| ensures LosesNothing(ps, i, keyed) {
      ProtectedLosesNothing(ls, s, i, keyed);
    }
    forall i | 0 <= i <= |ls| ensures LeavesTwin(ls, ps, s, clean, i) {
      LeafIsTwin(ls, s, i);
    }
  }

  lemma LeafIsTwin(ls: seq<Lexeme>, s: Sentinels, i: nat)
    requires Fresh(ls, s) && i <= |ls|
    ensures LeavesTwin(ls, Protected(ls, s), s, NoWordKeys(ls, 0, |ls|), i)
  {
    var j := Skip(ls, i);
    if Preceded(ls, i) && !At(ls, j, OpenList) && !At(ls, j, OpenRecord) {
      OthersAgree(ls, s, i);
    }
  }

  predicate ReadsAlike(ls: seq<Lexeme>, a: Parsed<Json>, b: Parsed<Json>, s: Sentinels, clean: bool)
    requires a.Parsed? ==> a.next <= |ls|
    requires b.Parsed? ==> b.next <= |ls|
  {
    && (a.Parsed? && Followed(ls, a.next) ==> Agree(a, b, s))
    && (b.Parsed? && Followed(ls, b.next) && clean ==> Agree(a, b, s))
  }

  /** Where a value of one lexeme ends, and that nothing else starts a value. */
  lemma NotOpened(ls: seq<Lexeme>, i: nat, words: bool)
    requires i <= |ls|
    requires var j := Skip(ls, i); !At(ls, j, OpenList) && !At(ls, j, OpenRecord)
    ensures var j, v := Skip(ls, i), Value(ls, i, words);
      && (v.Parsed? ==> v.next == j + 1)
      && (j == |ls| || ls[j].Colon? || ls[j].Comma? || ls[j].CloseList? || ls[j].CloseRecord? ==> v.Failed?)
  {
  }

  /** A value of one lexeme, or none. */
  lemma OthersAgree(ls: seq<Lexeme>, s: Sentinels, i: nat)
    requires Fresh(ls, s) && i <= |ls| && Preceded(ls, i)
    requires var j := Skip(ls, i); !At(ls, j, OpenList) && !At(ls, j, OpenRecord)
    ensures ReadsAlike(ls, Value(ls, i, true), Value(Protected(ls, s), i, false), s, NoWordKeys(ls, 0, |ls|))
  {
    var j, ps := Skip(ls, i), Protected(ls, s);
    assert Skip(ps, i) == j by { SkipSame(ls, s, i); }
    NotOpened(ls, i, true);
    NotOpened(ps, i, false);
    if j < |ls| && (ls[j].Quoted? || ls[j].Plain? || ls[j].Unquoted?) && Followed(ls, j + 1) {
      LeavesAgree(ls, s, i);
    }
  }

  lemma FollowedSame(ls: seq<Lexeme>, ps: seq<Lexeme>, s: Sentinels, clean: bool, n: nat)
    requires Twins(ls, ps, s, clean) && n <= |ls|
    ensures Followed(ps, n) == Followed(ls, n)
  {
  }

  lemma EntriesFollowed(ls: seq<Lexeme>, p: Part, n: nat, keyed: bool, words: bool)
    requires n <= |ls|
    ensures EntriesAfter(ls, p, n, keyed, words).Parsed? ==> Followed(ls, n)
  {
  }

  lemma {:induction false} EntriesKeyed(ls: seq<Lexeme>, i: nat, keyed: bool, words: bool)
    requires i <= |ls|
    ensures var r := Entries(ls, i, keyed, words);
      r.Parsed? ==> forall p :: p in r.value ==> p.key.Some? == keyed
    decreases |ls| - i
  {
    var key := Key(ls, i, keyed);
    if key.Parsed? && Value(ls, key.next, words).Parsed? {
      var m := Skip(ls, Value(ls, key.next, words).next);
      if At(ls, m, Comma) {
        EntriesKeyed(ls, m + 1, keyed, words);
      }
    }
  }

  /** What both parsers make of entries: nothing, or the same. */
  predicate Alike(a: Parsed<seq<Part>>, b: Parsed<seq<Part>>, clean: bool, s: Sentinels) {
    match b
    case Failed => a.Failed?
    case Parsed(entries, next) => a == Parsed(RestoredEntries(entries, s), next) || (a.Failed? && !clean)
  }

  /** The plain document is read, or the protected one is, and no word stands in a key's place (`clean`). */
  predicate Read<T>(a: Parsed<T>, b: Parsed<T>, clean: bool) {
    a.Parsed? || (b.Parsed? && clean)
  }

  lemma BeforeEntries(p: Part, a: Parsed<seq<Part>>, b: Parsed<seq<Part>>, clean: bool, s: Sentinels)
    requires Alike(a, b, clean, s)
    ensures Alike(Before(RestoredEntry(p, s), a), Before(p, b), clean, s)
  {
    if b.Parsed? {
      EntriesGrow(p, b.value, s);
    }
  }

  lemma ReadAlways(ls: seq<Lexeme>, a: Parsed<Json>, b: Parsed<Json>, s: Sentinels, clean: bool)
    requires a.Parsed? ==> a.next <= |ls|
    requires b.Parsed? ==> b.next <= |ls|
    requires Read(a, b, clean) ==> Agree(a, b, s)
    ensures ReadsAlike(ls, a, b, s, clean)
  {
  }

  lemma LeafAlike(ls: seq<Lexeme>, ps: seq<Lexeme>, s: Sentinels, clean: bool, i: nat)
    requires Twins(ls, ps, s, clean) && i <= |ls| && Preceded(ls, i)
    requires var j := Skip(ls, i); !At(ls, j, OpenList) && !At(ls, j, OpenRecord)
    ensures ReadsAlike(ls, Value(ls, i, true), Value(ps, i, false), s, clean)
  {
    assert LeavesTwin(ls, ps, s, clean, i);
  }

  /** Both parsers read the same value, as long as it is followed by what follows values. */
  lemma {:induction false} ValuesAgree(ls: seq<Lexeme>, ps: seq<Lexeme>, s: Sentinels, clean: bool, i: nat)
    requires Twins(ls, ps, s, clean) && i <= |ls| && Preceded(ls, i)
    ensures ReadsAlike(ls, Value(ls, i, true), Value(ps, i, false), s, clean)
    decreases |ls| - i, 1
  {
    var j := Skip(ls, i);
    if At(ls, j, OpenList) || At(ls, j, OpenRecord) {
      var keyed := At(ls, j, OpenRecord);
      assert ReadsAlike(ls, Value(ls, i, true), Value(ps, i, false), s, clean) by {
        OpenedAgree(ls, ps, s, clean, j + 1, keyed);
        OpenedAlike(ls, ps, s, clean, i, keyed);
      }
    } else {
      LeafAlike(ls, ps, s, clean, i);
    }
  }

  lemma OpenedAlike(ls: seq<Lexeme>, ps: seq<Lexeme>, s: Sentinels, clean: bool, i: nat, keyed: bool)
    requires |ps| == |ls| && i <= |ls| && Skip(ps, i) == Skip(ls, i)
    requires var j, x := Skip(ls, i), if keyed then OpenRecord else OpenList;
      && At(ls, j, x) && At(ps, j, x)
      && (Read(Opened(ls, j + 1, keyed, true), Opened(ps, j + 1, keyed, false), clean) ==>
            Agree(Opened(ls, j + 1, keyed, true), Opened(ps, j + 1, keyed, false), s))
    ensures ReadsAlike(ls, Value(ls, i, true), Value(ps, i, false), s, clean)
  {
    var j := Skip(ls, i);
    assert Value(ls, i, true) == Opened(ls, j + 1, keyed, true);
    assert Value(ps, i, false) == Opened(ps, j + 1, keyed, false);
    ReadAlways(ls, Value(ls, i, true), Value(ps, i, false), s, clean);
  }

  lemma {:induction false} OpenedAgree(ls: seq<Lexeme>, ps: seq<Lexeme>, s: Sentinels, clean: bool, i: nat, keyed: bool)
    requires Twins(ls, ps, s, clean) && i <= |ls| && (Preceded(ls, i) || keyed)
    ensures var a, b := Opened(ls, i, keyed, true), Opened(ps, i, keyed, false);
      Read(a, b, clean) ==> Agree(a, b, s)
    decreases |ls| - i, 3
  {
    assert Skip(ps, i) == Skip(ls, i);
    if At(ls, Skip(ls, i), Closing(keyed)) {
      BuildRestored([], keyed, s);
    } else {
      EntriesAgree(ls, ps, s, clean, i, keyed);
      var b := Entries(ps, i, keyed, false);
      if b.Parsed? {
        EntriesKeyed(ps, i, keyed, false);
        assert LosesNothing(ps, i, keyed);
        BuildRestored(b.value, keyed, s);
      }
    }
  }

  lemma {:induction false} EntriesAgree(ls: seq<Lexeme>, ps: seq<Lexeme>, s: Sentinels, clean: bool, i: nat, keyed: bool)
    requires Twins(ls, ps, s, clean) && i <= |ls| && (Preceded(ls, i) || keyed)
    ensures Alike(Entries(ls, i, keyed, true), Entries(ps, i, keyed, false), clean, s)
    decreases |ls| - i, 2
  {
    var ka, kb := Key(ls, i, keyed), Key(ps, i, keyed);
    assert KeysTwin(ls, ps, s, clean, i, keyed);
    if ka.Parsed? {
      KeyShape(ls, i, keyed);
      assert ReadsAlike(ls, Value(ls, ka.next, true), Value(ps, ka.next, false), s, clean) by {
        ValuesAgree(ls, ps, s, clean, ka.next);
      }
      var v := Value(ls, ka.next, true);
      if v.Parsed? && Followed(ls, v.next) {
        EntriesAfterAgree(ls, ps, s, clean, Part(kb.value, Value(ps, ka.next, false).value), v.next, keyed);
      }
      EntriesEnd(ls, ps, s, clean, i, keyed);
    }
  }

  /** The entries go with their first value, if that is followed as a value is, and fail if it is not. */
  lemma EntriesEnd(ls: seq<Lexeme>, ps: seq<Lexeme>, s: Sentinels, clean: bool, i: nat, keyed: bool)
    requires Twins(ls, ps, s, clean) && i <= |ls| && Key(ls, i, keyed).Parsed? && Key(ps, i, keyed).Parsed?
    requires var ka, kb := Key(ls, i, keyed), Key(ps, i, keyed);
      var v, w := Value(ls, ka.next, true), Value(ps, ka.next, false);
      && kb.next == ka.next && ReadsAlike(ls, v, w, s, clean)
      && (v.Parsed? && Followed(ls, v.next) ==>
            && RestoredEntry(Part(kb.value, w.value), s) == Part(ka.value, v.value)
            && Alike(EntriesAfter(ls, Part(ka.value, v.value), v.next, keyed, true),
                     EntriesAfter(ps, Part(kb.value, w.value), v.next, keyed, false), clean, s))
    ensures Alike(Entries(ls, i, keyed, true), Entries(ps, i, keyed, false), clean, s)
  {
    var ka, kb := Key(ls, i, keyed), Key(ps, i, keyed);
    var v, w := Value(ls, ka.next, true), Value(ps, ka.next, false);
    var a, b := Entries(ls, i, keyed, true), Entries(ps, i, keyed, false);
    assert a.Parsed? ==> v.Parsed? && Followed(ls, v.next) by {
      EntriesStart(ls, i, keyed, true);
    }
    assert b.Parsed? ==> w.Parsed? && Followed(ls, w.next) by {
      EntriesStart(ps, i, keyed, false);
      if w.Parsed? {
        FollowedSame(ls, ps, s, clean, w.next);
      }
    }
    if v.Parsed? && Followed(ls, v.next) {
      assert a == EntriesAfter(ls, Part(ka.value, v.value), v.next, keyed, true);
      assert b == EntriesAfter(ps, Part(kb.value, w.value), w.next, keyed, false);
    }
  }

  lemma EntriesStart(ls: seq<Lexeme>, i: nat, keyed: bool, words: bool)
    requires i <= |ls| && Key(ls, i, keyed).Parsed?
    ensures var v := Value(ls, Key(ls, i, keyed).next, words);
      Entries(ls, i, keyed, words).Parsed? ==> v.Parsed? && Followed(ls, v.next)
  {
    var key := Key(ls, i, keyed);
    var v := Value(ls, key.next, words);
    if v.Parsed? {
      EntriesFollowed(ls, Part(key.value, v.value), v.next, keyed, words);
    }
  }

  lemma {:induction false} EntriesAfterAgree(ls: seq<Lexeme>, ps: seq<Lexeme>, s: Sentinels, clean: bool, p: Part, n: nat, keyed: bool)
    requires Twins(ls, ps, s, clean) && n <= |ls|
    ensures Alike(EntriesAfter(ls, RestoredEntry(p, s), n, keyed, true), EntriesAfter(ps, p, n, keyed, false), clean, s)
    decreases |ls| - n, 0
  {
    var m := Skip(ls, n);
    assert Skip(ps, n) == m;
    if At(ls, m, Comma) {
      EntriesAgree(ls, ps, s, clean, m + 1, keyed);
    }
    AfterAlike(ls, ps, s, clean, p, n, keyed);
  }

  lemma AfterAlike(ls: seq<Lexeme>, ps: seq<Lexeme>, s: Sentinels, clean: bool, p: Part, n: nat, keyed: bool)
    requires |ps| == |ls| && n <= |ls| && Skip(ps, n) == Skip(ls, n)
    requires var m := Skip(ls, n);
      && At(ps, m, Closing(keyed)) == At(ls, m, Closing(keyed)) && At(ps, m, Comma) == At(ls, m, Comma)
      && (At(ls, m, Comma) ==> Alike(Entries(ls, m + 1, keyed, true), Entries(ps, m + 1, keyed, false), clean, s))
    ensures Alike(EntriesAfter(ls, RestoredEntry(p, s), n, keyed, true), EntriesAfter(ps, p, n, keyed, false), clean, s)
  {
    var m, q := Skip(ls, n), RestoredEntry(p, s);
    if At(ls, m, Closing(keyed)) {
      LastAlike(p, m + 1, clean, s);
    } else if At(ls, m, Comma) {
      var a, b := NextAlike(ls, ps, s, clean, p, n, keyed);
    } else {
      AfterIs(ls, q, n, keyed, true);
      AfterIs(ps, p, n, keyed, false);
    }
  }

  lemma NextAlike(ls: seq<Lexeme>, ps: seq<Lexeme>, s: Sentinels, clean: bool, p: Part, n: nat, keyed: bool)
    returns (a: Parsed<seq<Part>>, b: Parsed<seq<Part>>)
    requires |ps| == |ls| && n <= |ls| && Skip(ps, n) == Skip(ls, n)
    requires var m := Skip(ls, n);
      && At(ps, m, Comma) && At(ls, m, Comma)
      && Alike(Entries(ls, m + 1, keyed, true), Entries(ps, m + 1, keyed, false), clean, s)
    ensures a == EntriesAfter(ls, RestoredEntry(p, s), n, keyed, true) && b == EntriesAfter(ps, p, n, keyed, false)
    ensures Alike(a, b, clean, s)
  {
    var c, d;
    a, c := CommaGoesOn(ls, RestoredEntry(p, s), n, keyed, true);
    b, d := CommaGoesOn(ps, p, n, keyed, false);
    BeforeAlike(p, a, b, c, d, clean, s);
  }

  /** Behind a comma the entries go on. */
  lemma CommaGoesOn(ls: seq<Lexeme>, p: Part, n: nat, keyed: bool, words: bool)
    returns (all: Parsed<seq<Part>>, rest: Parsed<seq<Part>>)
    requires n <= |ls| && At(ls, Skip(ls, n), Comma)
    ensures all == EntriesAfter(ls, p, n, keyed, words) && rest == Entries(ls, Skip(ls, n) + 1, keyed, words)
    ensures all == Before(p, rest)
  {
    all, rest := EntriesAfter(ls, p, n, keyed, words), Entries(ls, Skip(ls, n) + 1, keyed, words);
  }

  lemma BeforeAlike(p: Part, a: Parsed<seq<Part>>, b: Parsed<seq<Part>>,
                    c: Parsed<seq<Part>>, d: Parsed<seq<Part>>, clean: bool, s: Sentinels)
    requires a == Before(RestoredEntry(p, s), c) && b == Before(p, d) && Alike(c, d, clean, s)
    ensures Alike(a, b, clean, s)
  {
    BeforeEntries(p, c, d, clean, s);
  }

  lemma LastAlike(p: Part, next: nat, clean: bool, s: Sentinels)
    ensures Alike(Parsed([RestoredEntry(p, s)], next), Parsed([p], next), clean, s)
  {
    EntriesGrow(p, [], s);
    assert [p] + [] == [p];
    assert RestoredEntries([p], s) == [RestoredEntry(p, s)];
  }

  lemma AfterIs(ls: seq<Lexeme>, p: Part, n: nat, keyed: bool, words: bool)
    requires n <= |ls|
    ensures var m, r := Skip(ls, n), EntriesAfter(ls, p, n, keyed, words);
      if At(ls, m, Closing(keyed)) then r == Parsed([p], m + 1)
      else if At(ls, m, Comma) then r == Before(p, Entries(ls, m + 1, keyed, words))
      else r.Failed?
  {
  }

  // ----- the meaning of documents ---------------------------------------------------------------------

  /** Every document of the extended grammar is read as what it says. */
  lemma MeaningIsPreserved(ls: seq<Lexeme>, s: Sentinels)
    requires Fresh(ls, s) && Document(ls, true).Some?
    ensures ReadProtected(ls, s) == Document(ls, true)
  {
    ProtectedIsTwin(ls, s);
    ValuesAgree(ls, Protected(ls, s), s, NoWordKeys(ls, 0, |ls|), 0);
  }

  /** Anything else is refused, unless a word stands in the place of a key. */
  lemma NothingElseIsRead(ls: seq<Lexeme>, s: Sentinels)
    requires Fresh(ls, s) && NoWordKeys(ls, 0, |ls|)
    ensures ReadProtected(ls, s) == Document(ls, true)
  {
    if Document(ls, true).Some? {
      MeaningIsPreserved(ls, s);
    } else {
      ProtectedIsTwin(ls, s);
      ValuesAgree(ls, Protected(ls, s), s, NoWordKeys(ls, 0, |ls|), 0);
    }
  }

  lemma {:induction false} ValueHasNoWordKeys(ls: seq<Lexeme>, i: nat)
    requires i <= |ls|
    ensures var v := Value(ls, i, true); v.Parsed? && Followed(ls, v.next) ==> NoWordKeys(ls, i, v.next)
    decreases |ls| - i, 1
  {
    var j, v := Skip(ls, i), Value(ls, i, true);
    if v.Parsed? && Followed(ls, v.next) {
      SpacesHaveNoWords(ls, i);
      if At(ls, j, OpenList) || At(ls, j, OpenRecord) {
        OneIsNoWordKey(ls, j);
        OpenedHasNoWordKeys(ls, j + 1, At(ls, j, OpenRecord));
        NoWordKeysJoin(ls, j, j + 1, v.next);
      } else {
        assert v.next == j + 1 by { NotOpened(ls, i, true); }
        OneIsNoWordKey(ls, j);
      }
      NoWordKeysJoin(ls, i, j, v.next);
    }
  }

  lemma {:induction false} OpenedHasNoWordKeys(ls: seq<Lexeme>, i: nat, keyed: bool)
    requires i <= |ls|
    ensures var v := Opened(ls, i, keyed, true); v.Parsed? ==> NoWordKeys(ls, i, v.next)
    decreases |ls| - i, 3
  {
    var k := Skip(ls, i);
    if At(ls, k, Closing(keyed)) {
      SpacesHaveNoWords(ls, i);
      OneIsNoWordKey(ls, k);
      NoWordKeysJoin(ls, i, k, k + 1);
    } else {
      EntriesHaveNoWordKeys(ls, i, keyed);
    }
  }

  lemma KeyHasNoWordKeys(ls: seq<Lexeme>, i: nat, keyed: bool)
    requires i <= |ls| && Key(ls, i, keyed).Parsed?
    ensures NoWordKeys(ls, i, Key(ls, i, keyed).next)
  {
    if keyed {
      var k := Skip(ls, i);
      var c := Skip(ls, k + 1);
      SpacesHaveNoWords(ls, i);
      OneIsNoWordKey(ls, k);
      SpacesHaveNoWords(ls, k + 1);
      OneIsNoWordKey(ls, c);
      NoWordKeysJoin(ls, i, k, k + 1);
      NoWordKeysJoin(ls, i, k + 1, c);
      NoWordKeysJoin(ls, i, c, c + 1);
    }
  }

  lemma {:induction false} EntriesHaveNoWordKeys(ls: seq<Lexeme>, i: nat, keyed: bool)
    requires i <= |ls|
    ensures var r := Entries(ls, i, keyed, true); r.Parsed? ==> NoWordKeys(ls, i, r.next)
    decreases |ls| - i, 2
  {
    var key := Key(ls, i, keyed);
    if Entries(ls, i, keyed, true).Parsed? {
      var v := Value(ls, key.next, true);
      var p := Part(key.value, v.value);
      KeyHasNoWordKeys(ls, i, keyed);
      EntriesFollowed(ls, p, v.next, keyed, true);
      ValueHasNoWordKeys(ls, key.next);
      AfterHasNoWordKeys(ls, p, v.next, keyed);
      NoWordKeysJoin(ls, i, key.next, v.next);
      NoWordKeysJoin(ls, i, v.next, EntriesAfter(ls, p, v.next, keyed, true).next);
    }
  }

  lemma {:induction false} AfterHasNoWordKeys(ls: seq<Lexeme>, p: Part, n: nat, keyed: bool)
    requires n <= |ls|
    ensures var r := EntriesAfter(ls, p, n, keyed, true); r.Parsed? ==> NoWordKeys(ls, n, r.next)
    decreases |ls| - n, 0
  {
    var m, r := Skip(ls, n), EntriesAfter(ls, p, n, keyed, true);
    if r.Parsed? {
      SpacesHaveNoWords(ls, n);
      OneIsNoWordKey(ls, m);
      NoWordKeysJoin(ls, n, m, m + 1);
      if !At(ls, m, Closing(keyed)) {
        EntriesHaveNoWordKeys(ls, m + 1, keyed);
        NoWordKeysJoin(ls, n, m + 1, r.next);
      }
    }
  }

  /** A document that is read at all is one of the extended grammar exactly if no word stands in a key's place. */
  lemma ReadIsSound(ls: seq<Lexeme>, s: Sentinels)
    requires Fresh(ls, s) && ReadProtected(ls, s).Some?
    ensures Document(ls, true).Some? <==> NoWordKeys(ls, 0, |ls|)
    ensures NoWordKeys(ls, 0, |ls|) ==> ReadProtected(ls, s) == Document(ls, true)
  {
    if NoWordKeys(ls, 0, |ls|) {
      NothingElseIsRead(ls, s);
    } else if Document(ls, true).Some? {
      var v := Value(ls, 0, true);
      ValueHasNoWordKeys(ls, 0);
      SpacesHaveNoWords(ls, v.next);
      NoWordKeysJoin(ls, 0, v.next, |ls|);
    }
  }

  lemma WordKeyIsRefused(value: Scalar)
    ensures Document([OpenRecord, Unquoted(N.NotANumber), Space, Colon, Plain(value), CloseRecord], true) == None
  {
    var ls := [OpenRecord, Unquoted(N.NotANumber), Space, Colon, Plain(value), CloseRecord];
    assert Skip(ls, 1) == 1;
    assert Key(ls, 1, true) == Failed;
    assert Entries(ls, 1, true, true) == Failed;
    assert Value(ls, 0, true) == Failed;
  }

  lemma MadeUpKeyIsRead(key: Text, value: Scalar)
    requires key != PROTO
    ensures Document([OpenRecord, Quoted(key), Space, Colon, Plain(value), CloseRecord], false) ==
      Some(Record([Field(key, value)]))
  {
    var ps := [OpenRecord, Quoted(key), Space, Colon, Plain(value), CloseRecord];
    var p := Part(Some(key), value);
    assert Skip(ps, 1) == 1 && Skip(ps, 2) == 3 && Skip(ps, 4) == 4 && Skip(ps, 5) == 5 && Skip(ps, 6) == 6;
    assert Key(ps, 1, true) == Parsed(Some(key), 4);
    assert Entries(ps, 1, true, false) == Parsed([p], 6) by {
      assert Value(ps, 4, false) == Parsed(value, 5);
      assert EntriesAfter(ps, p, 5, true, false) == Parsed([p], 6);
    }
    KeepsAll([p], false);
    assert Value(ps, 0, false) == Opened(ps, 1, true, false);
    assert Build([p], true) == Record([Field(key, value)]);
  }

  /** Then it can be read as a record with a made-up key, which the extended grammar does not allow. */
  lemma WordKeyIsRead(s: Sentinels, value: Scalar)
    requires s.proto != s.nan && s.nan != PROTO
    ensures var ls := [OpenRecord, Unquoted(N.NotANumber), Space, Colon, Plain(value), CloseRecord];
      Document(ls, true) == None && ReadProtected(ls, s) == Some(Record([Field(s.nan, value)]))
  {
    var ls := [OpenRecord, Unquoted(N.NotANumber), Space, Colon, Plain(value), CloseRecord];
    WordKeyIsRefused(value);
    MadeUpKeyIsRead(s.nan, value);
    assert Protected(ls, s) == [OpenRecord, Quoted(s.nan), Space, Colon, Plain(value), CloseRecord];
    assert Restored(value, s) == value;
    assert Restored(Record([Field(s.nan, value)]), s) == Record([Field(s.nan, value)]);
  }

  /** Without protection the strict parser loses the field of a `__proto__` key. */
  lemma ProtoFieldIsLost(value: Scalar)
    ensures var ls := [OpenRecord, Quoted(PROTO), Colon, Plain(value), CloseRecord];
      Document(ls, true) == Some(Record([Field(PROTO, value)])) && Document(ls, false) == Some(Record([]))
  {
    ProtoFieldRead(value, true);
    ProtoFieldRead(value, false);
    assert Build([Part(Some(PROTO), value)], true) == Record([Field(PROTO, value)]);
    assert Build([], true) == Record([]);
  }

  lemma ProtoFieldRead(value: Scalar, words: bool)
    ensures var ls := [OpenRecord, Quoted(PROTO), Colon, Plain(value), CloseRecord];
      Document(ls, words) == Some(Build(if words then [Part(Some(PROTO), value)] else [], true))
  {
    var ls := [OpenRecord, Quoted(PROTO), Colon, Plain(value), CloseRecord];
    var p := Part(Some(PROTO), value);
    assert Skip(ls, 1) == 1 && Skip(ls, 2) == 2 && Skip(ls, 3) == 3 && Skip(ls, 4) == 4 && Skip(ls, 5) == 5;
    assert Key(ls, 1, true) == Parsed(Some(PROTO), 3);
    assert Entries(ls, 1, true, words) == Parsed([p], 5) by {
      assert Value(ls, 3, words) == Parsed(value, 4);
      assert EntriesAfter(ls, p, 4, true, words) == Parsed([p], 5);
    }
    assert [p][1..] == [];
    assert Kept([p], words) == if words then [p] else [];
    assert Value(ls, 0, words) == Opened(ls, 1, true, words);
  }
}
