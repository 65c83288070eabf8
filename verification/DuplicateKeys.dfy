/**
 The scan that comes before a document is rewritten and parsed: it walks over the lexemes with
 a stack of open records and lists, and refuses a key that its record has had before, and
 nesting beyond a fixed depth. Of the documents of the extended grammar it accepts exactly
 those whose value has distinct keys in every record and is not too deep.
 */
module DuplicateKeys {
  import opened Wrappers
  import opened JsonStrings
  import opened CanonicalJson
  import opened SentinelRewriting

  const MAX_DEPTH: nat := 128

  /** An open record with the keys seen so far, or an open list. */
  datatype Scope = Keys(seen: set<Text>) | Items

  // ----- the scan ---------------------------------------------------------------------------------

  predicate InRecord(scopes: seq<Scope>) {
    scopes != [] && scopes[|scopes| - 1].Keys?
  }

  predicate InList(scopes: seq<Scope>) {
    scopes != [] && scopes[|scopes| - 1].Items?
  }

  function Pop(scopes: seq<Scope>): seq<Scope>
    requires scopes != []
  {
    scopes[..|scopes| - 1]
  }

  function Seen(scopes: seq<Scope>): set<Text>
    requires InRecord(scopes)
  {
    scopes[|scopes| - 1].seen
  }

  /** The stack behind one lexeme; None where the scan refuses the document. */
  function Scanned(ls: seq<Lexeme>, i: nat, scopes: seq<Scope>): Option<seq<Scope>>
    requires i < |ls|
  {
    match ls[i]
    case Quoted(text) =>
      if !BeforeColon(ls, i) || !InRecord(scopes) then Some(scopes)
      else if text in Seen(scopes) then None
      else Some(Pop(scopes) + [Keys(Seen(scopes) + {text})])
    case OpenRecord => if |scopes| >= MAX_DEPTH then None else Some(scopes + [Keys({})])
    case OpenList => if |scopes| >= MAX_DEPTH then None else Some(scopes + [Items])
    case CloseRecord => Some(if InRecord(scopes) then Pop(scopes) else scopes)
    case CloseList => Some(if InList(scopes) then Pop(scopes) else scopes)
    case _ => Some(scopes)
  }

  /** The scan accepts the document from here on. */
  predicate Accepts(ls: seq<Lexeme>, i: nat, scopes: seq<Scope>)
    requires i <= |ls|
    decreases |ls| - i
  {
    i == |ls| || (Scanned(ls, i, scopes).Some? && Accepts(ls, i + 1, Scanned(ls, i, scopes).value))
  }

  method RejectDuplicateObjectKeys(ls: seq<Lexeme>) returns (accepted: bool)
    ensures accepted == Accepts(ls, 0, [])
  {
    var scopes: seq<Scope> := [];
    var i := 0;
    while i < |ls|
      invariant 0 <= i <= |ls| && Accepts(ls, 0, []) == Accepts(ls, i, scopes)
    {
      var next := Scanned(ls, i, scopes);
      if next == None {
        return false;
      }
      scopes := next.value;
      i := i + 1;
    }
    accepted := true;
  }

  // ----- what it accepts ----------------------------------------------------------------------------

  /** Records and lists are nested at most `levels` deep. */
  predicate Shallow(v: Json, levels: nat)
    decreases v
  {
    match v
    case List(items) => levels > 0 && forall i :: 0 <= i < |items| ==> Shallow(items[i], levels - 1)
    case Record(fields) => levels > 0 && forall i :: 0 <= i < |fields| ==> Shallow(fields[i].value, levels - 1)
    case _ => true
  }

  predicate Fine(v: Json, levels: nat) {
    Proper(v) && Shallow(v, levels)
  }

  /** Entries that may follow the keys seen so far. */
  predicate PartsFine(parts: seq<Part>, seen: set<Text>, levels: nat) {
    parts == []
    || (Fine(parts[0].value, levels) && !(parts[0].key.Some? && parts[0].key.value in seen)
        && PartsFine(parts[1..], WithKey(seen, parts[0].key), levels))
  }

  function WithKey(seen: set<Text>, key: Option<Text>): set<Text> {
    if key.Some? then seen + {key.value} else seen
  }

  predicate AllFine(parts: seq<Part>, levels: nat) {
    forall i :: 0 <= i < |parts| ==> Fine(parts[i].value, levels)
  }

  predicate NoneSeen(parts: seq<Part>, seen: set<Text>) {
    forall i :: 0 <= i < |parts| && parts[i].key.Some? ==> parts[i].key.value !in seen
  }

  predicate KeysDiffer(parts: seq<Part>) {
    forall i, j :: 0 <= i < j < |parts| && parts[i].key.Some? ==> parts[i].key != parts[j].key
  }

  /** One entry after the other, or all at once. */
  lemma {:induction false} PartsFineIs(parts: seq<Part>, seen: set<Text>, levels: nat)
    ensures PartsFine(parts, seen, levels) <==> AllFine(parts, levels) && NoneSeen(parts, seen) && KeysDiffer(parts)
  {
    if parts != [] {
      var p, rest := parts[0], parts[1..];
      PartsFineIs(rest, WithKey(seen, p.key), levels);
      assert forall i :: 0 <= i < |rest| ==> rest[i] == parts[i + 1];
      assert AllFine(parts, levels) <==> Fine(p.value, levels) && AllFine(rest, levels) by {
        assert forall i :: 0 < i < |parts| ==> parts[i] == rest[i - 1];
      }
      KeysOfMore(parts, seen);
    }
  }

  lemma KeysOfMore(parts: seq<Part>, seen: set<Text>)
    requires parts != []
    ensures NoneSeen(parts, seen) && KeysDiffer(parts) <==>
      && !(parts[0].key.Some? && parts[0].key.value in seen)
      && NoneSeen(parts[1..], WithKey(seen, parts[0].key)) && KeysDiffer(parts[1..])
  {
    var p, rest := parts[0], parts[1..];
    assert forall i :: 0 < i < |parts| ==> parts[i] == rest[i - 1];
    assert forall i :: 0 <= i < |rest| ==> rest[i] == parts[i + 1];
  }

  lemma RecordFine(parts: seq<Part>, levels: nat)
    requires levels > 0 && forall p :: p in parts ==> p.key.Some?
    ensures Fine(Build(parts, true), levels) <==> AllFine(parts, levels - 1) && KeysDiffer(parts)
  {
    var fields := Build(parts, true).fields;
    assert forall i :: 0 <= i < |parts| ==> parts[i] in parts && fields[i] == Field(parts[i].key.value, parts[i].value);
    assert DistinctKeys(fields) <==> KeysDiffer(parts) by {
      assert forall i, j :: 0 <= i < j < |parts| ==> (fields[i].key == fields[j].key <==> parts[i].key == parts[j].key);
    }
  }

  lemma ListFine(parts: seq<Part>, levels: nat)
    requires levels > 0 && forall p :: p in parts ==> p.key.None?
    ensures Fine(Build(parts, false), levels) <==> AllFine(parts, levels - 1) && KeysDiffer(parts)
  {
    var items := Build(parts, false).items;
    assert forall i :: 0 <= i < |parts| ==> parts[i] in parts && items[i] == parts[i].value;
  }

  /** So a record or list is fine exactly if its entries are, one after the other. */
  lemma BuildFine(parts: seq<Part>, keyed: bool, levels: nat)
    requires levels > 0 && forall p :: p in parts ==> p.key.Some? == keyed
    ensures Fine(Build(parts, keyed), levels) <==> PartsFine(parts, {}, levels - 1)
  {
    PartsFineIs(parts, {}, levels - 1);
    if keyed { RecordFine(parts, levels); } else { ListFine(parts, levels); }
  }

  // ----- the scan goes with the parser ----------------------------------------------------------------

  lemma {:induction false} SkipScan(ls: seq<Lexeme>, i: nat, scopes: seq<Scope>)
    requires i <= |ls|
    ensures Accepts(ls, i, scopes) == Accepts(ls, Skip(ls, i), scopes)
    decreases |ls| - i
  {
    if i < |ls| && ls[i] == Space {
      SkipScan(ls, i + 1, scopes);
    }
  }

  /** The stack inside an open record or list. */
  function Inside(scopes: seq<Scope>, keyed: bool, seen: set<Text>): (r: seq<Scope>)
    ensures r != [] && Pop(r) == scopes && InRecord(r) == keyed && InList(r) == !keyed
    ensures keyed ==> Seen(r) == seen
  {
    scopes + [if keyed then Keys(seen) else Items]
  }

  lemma LeafScan(ls: seq<Lexeme>, i: nat, scopes: seq<Scope>)
    requires i <= |ls| && Value(ls, i, true).Parsed? && Followed(ls, Value(ls, i, true).next)
    requires var j := Skip(ls, i); !At(ls, j, OpenList) && !At(ls, j, OpenRecord)
    ensures var v := Value(ls, i, true);
      Fine(v.value, MAX_DEPTH) && Accepts(ls, i, scopes) == Accepts(ls, v.next, scopes)
    ensures forall levels :: Fine(Value(ls, i, true).value, levels)
  {
    SkipScan(ls, i, scopes);
    NotOpened(ls, i, true);
  }

  lemma KeyScan(ls: seq<Lexeme>, i: nat, keyed: bool, scopes: seq<Scope>, seen: set<Text>)
    requires i <= |ls| && Key(ls, i, keyed).Parsed?
    ensures var key := Key(ls, i, keyed);
      Accepts(ls, i, Inside(scopes, keyed, seen)) ==
      (!(key.value.Some? && key.value.value in seen)
       && Accepts(ls, key.next, Inside(scopes, keyed, WithKey(seen, key.value))))
  {
    if keyed {
      var k, text := Skip(ls, i), Key(ls, i, keyed).value.value;
      var before, after := Inside(scopes, true, seen), Inside(scopes, true, seen + {text});
      SkipScan(ls, i, before);
      assert Scanned(ls, k, before) == if text in seen then None else Some(after);
      SkipScan(ls, k + 1, after);
    }
  }

  lemma {:induction false} ValueScan(ls: seq<Lexeme>, i: nat, scopes: seq<Scope>)
    requires i <= |ls| && |scopes| <= MAX_DEPTH
    requires Value(ls, i, true).Parsed? && Followed(ls, Value(ls, i, true).next)
    ensures var v := Value(ls, i, true);
      Accepts(ls, i, scopes) == (Fine(v.value, MAX_DEPTH - |scopes|) && Accepts(ls, v.next, scopes))
    decreases |ls| - i, 1
  {
    var j := Skip(ls, i);
    if At(ls, j, OpenList) || At(ls, j, OpenRecord) {
      var keyed := At(ls, j, OpenRecord);
      SkipScan(ls, i, scopes);
      if |scopes| < MAX_DEPTH {
        assert Scanned(ls, j, scopes) == Some(Inside(scopes, keyed, {}));
        OpenedScan(ls, j + 1, keyed, scopes);
      } else {
        assert Scanned(ls, j, scopes) == None;
        assert !Shallow(Value(ls, i, true).value, 0) by { OpenedIsNested(ls, j + 1, keyed); }
      }
    } else {
      LeafScan(ls, i, scopes);
    }
  }

  lemma OpenedIsNested(ls: seq<Lexeme>, i: nat, keyed: bool)
    requires i <= |ls| && Opened(ls, i, keyed, true).Parsed?
    ensures !Shallow(Opened(ls, i, keyed, true).value, 0)
  {
  }

  lemma CloseScan(ls: seq<Lexeme>, i: nat, keyed: bool, scopes: seq<Scope>, seen: set<Text>)
    requires i <= |ls| && At(ls, Skip(ls, i), Closing(keyed))
    ensures Accepts(ls, i, Inside(scopes, keyed, seen)) == Accepts(ls, Skip(ls, i) + 1, scopes)
  {
    SkipScan(ls, i, Inside(scopes, keyed, seen));
  }

  lemma {:induction false} OpenedScan(ls: seq<Lexeme>, i: nat, keyed: bool, scopes: seq<Scope>)
    requires i <= |ls| && |scopes| < MAX_DEPTH && Opened(ls, i, keyed, true).Parsed?
    ensures var v := Opened(ls, i, keyed, true);
      Accepts(ls, i, Inside(scopes, keyed, {})) ==
      (Fine(v.value, MAX_DEPTH - |scopes|) && Accepts(ls, v.next, scopes))
    decreases |ls| - i, 3
  {
    if At(ls, Skip(ls, i), Closing(keyed)) {
      CloseScan(ls, i, keyed, scopes, {});
      BuildFine([], keyed, MAX_DEPTH - |scopes|);
    } else {
      var r := Entries(ls, i, keyed, true);
      EntriesScan(ls, i, keyed, scopes, {});
      EntriesKeyed(ls, i, keyed, true);
      BuildFine(r.value, keyed, MAX_DEPTH - |scopes|);
    }
  }

  lemma {:induction false} EntriesScan(ls: seq<Lexeme>, i: nat, keyed: bool, scopes: seq<Scope>, seen: set<Text>)
    requires i <= |ls| && |scopes| < MAX_DEPTH && Entries(ls, i, keyed, true).Parsed?
    ensures var r := Entries(ls, i, keyed, true);
      Accepts(ls, i, Inside(scopes, keyed, seen)) ==
      (PartsFine(r.value, seen, MAX_DEPTH - |scopes| - 1) && Accepts(ls, r.next, scopes))
    decreases |ls| - i, 2
  {
    var key := Key(ls, i, keyed);
    var v := Value(ls, key.next, true);
    var p, more := Part(key.value, v.value), WithKey(seen, key.value);
    KeyScan(ls, i, keyed, scopes, seen);
    EntriesFollowed(ls, p, v.next, keyed, true);
    ValueScan(ls, key.next, Inside(scopes, keyed, more));
    AfterScan(ls, p, v.next, keyed, scopes, more);
  }

  lemma {:induction false} AfterScan(ls: seq<Lexeme>, p: Part, n: nat, keyed: bool, scopes: seq<Scope>, seen: set<Text>)
    requires n <= |ls| && |scopes| < MAX_DEPTH && EntriesAfter(ls, p, n, keyed, true).Parsed?
    ensures var r := EntriesAfter(ls, p, n, keyed, true);
      && r.value != [] && r.value[0] == p
      && Accepts(ls, n, Inside(scopes, keyed, seen)) ==
         (PartsFine(r.value[1..], seen, MAX_DEPTH - |scopes| - 1) && Accepts(ls, r.next, scopes))
    decreases |ls| - n, 0
  {
    var m, r := Skip(ls, n), EntriesAfter(ls, p, n, keyed, true);
    if At(ls, m, Closing(keyed)) {
      CloseScan(ls, n, keyed, scopes, seen);
      assert r.value[1..] == [];
    } else {
      var rest := Entries(ls, m + 1, keyed, true);
      SkipScan(ls, n, Inside(scopes, keyed, seen));
      EntriesScan(ls, m + 1, keyed, scopes, seen);
      assert r.value[1..] == rest.value;
    }
  }

  // ----- documents --------------------------------------------------------------------------------------

  /**
   A document of the extended grammar is accepted exactly if no record of its value repeats a
   key and nothing in it is nested too deep.
   */
  lemma AcceptsExactlyProper(ls: seq<Lexeme>)
    requires Document(ls, true).Some?
    ensures Accepts(ls, 0, []) <==> Proper(Document(ls, true).value) && Shallow(Document(ls, true).value, MAX_DEPTH)
  {
    var v := Value(ls, 0, true);
    ValueScan(ls, 0, []);
    SkipScan(ls, v.next, []);
  }

  /**
   From the scan to the hash: two documents that are accepted, read and of the grammar have the
   same canonical text exactly if their values are the same.
   */
  lemma AcceptedTextsAreUnambiguous(ls: seq<Lexeme>, ms: seq<Lexeme>, s: Sentinels, t: Sentinels, read: Reader)
    requires Fresh(ls, s) && NoWordKeys(ls, 0, |ls|) && Accepts(ls, 0, []) && ReadProtected(ls, s).Some?
    requires Fresh(ms, t) && NoWordKeys(ms, 0, |ms|) && Accepts(ms, 0, []) && ReadProtected(ms, t).Some?
    requires CanonicalText(ReadProtected(ls, s).value, read).Some? && CanonicalText(ReadProtected(ms, t).value, read).Some?
    ensures
      var v, w := ReadProtected(ls, s).value, ReadProtected(ms, t).value;
      CanonicalText(v, read) == CanonicalText(w, read) <==> Same(v, w, read)
  {
    ReadIsSound(ls, s);
    ReadIsSound(ms, t);
    AcceptsExactlyProper(ls);
    AcceptsExactlyProper(ms);
    CanonicalIsUnambiguous(ReadProtected(ls, s).value, ReadProtected(ms, t).value, read);
  }
}
