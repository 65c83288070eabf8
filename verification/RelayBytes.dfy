/** Pages as one byte string, and sums over ledgers: the value-level facts behind the relay store. */
module RelayBytes {

  newtype byte = x: int | 0 <= x < 256

  // ----- pages as one byte string ---------------------------------------------------------------

  function Flat(pages: seq<seq<byte>>): seq<byte> {
    if pages == [] then [] else Flat(pages[..|pages| - 1]) + pages[|pages| - 1]
  }

  lemma FlatAppend(pages: seq<seq<byte>>, page: seq<byte>)
    ensures Flat(pages + [page]) == Flat(pages) + page
  {
    assert (pages + [page])[..|pages|] == pages;
  }

  /** The pages before `k`, page `k`, and the pages after it, in order. */
  lemma {:induction false} FlatSplit(pages: seq<seq<byte>>, k: nat)
    requires k <= |pages|
    ensures Flat(pages) == Flat(pages[..k]) + Flat(pages[k..])
    decreases |pages| - k
  {
    if k == |pages| {
      assert pages[..k] == pages;
    } else {
      FlatSplit(pages, k + 1);
      assert pages[..k + 1] == pages[..k] + [pages[k]];
      FlatAppend(pages[..k], pages[k]);
      FlatCons(pages[k..]);
      assert pages[k..][1..] == pages[k + 1..];
    }
  }

  lemma {:induction false} FlatCons(pages: seq<seq<byte>>)
    requires pages != []
    ensures Flat(pages) == pages[0] + Flat(pages[1..])
  {
    if |pages| == 1 {
      assert pages == [] + [pages[0]];
      FlatAppend([], pages[0]);
    } else {
      var front, last := pages[..|pages| - 1], pages[|pages| - 1];
      var middle := front[1..];
      FlatCons(front);
      FlatAppend(middle, last);
      assert pages[1..] == middle + [last];
      assert Flat(pages) == Flat(front) + last == pages[0] + Flat(middle) + last;
    }
  }

  /** `data` written over `page` from `offset` on. */
  function Overwrite(page: seq<byte>, offset: nat, data: seq<byte>): seq<byte>
    requires offset + |data| <= |page|
  {
    page[..offset] + data + page[offset + |data|..]
  }

  lemma FlatAround(pages: seq<seq<byte>>, k: nat)
    requires k < |pages|
    ensures Flat(pages) == Flat(pages[..k]) + (pages[k] + Flat(pages[k + 1..]))
  {
    FlatSplit(pages, k);
    FlatCons(pages[k..]);
    assert pages[k..][1..] == pages[k + 1..];
  }

  lemma OverwriteAround(before: seq<byte>, page: seq<byte>, after: seq<byte>, offset: nat, data: seq<byte>)
    requires offset + |data| <= |page|
    ensures Overwrite(before + (page + after), |before| + offset, data) ==
      before + (Overwrite(page, offset, data) + after)
  {
    var whole := before + (page + after);
    assert whole[..|before| + offset] == before + page[..offset];
    assert whole[|before| + offset + |data|..] == page[offset + |data|..] + after;
  }

  /** Writing into one page writes the flat string at the page's place, and nowhere else. */
  lemma FlatOverwrite(pages: seq<seq<byte>>, k: nat, offset: nat, data: seq<byte>)
    requires k < |pages| && offset + |data| <= |pages[k]|
    ensures |Flat(pages[..k])| + offset + |data| <= |Flat(pages)|
    ensures Flat(pages[k := Overwrite(pages[k], offset, data)]) ==
      Overwrite(Flat(pages), |Flat(pages[..k])| + offset, data)
  {
    var next := pages[k := Overwrite(pages[k], offset, data)];
    FlatAround(pages, k);
    FlatAround(next, k);
    assert next[..k] == pages[..k] && next[k + 1..] == pages[k + 1..];
    OverwriteAround(Flat(pages[..k]), pages[k], Flat(pages[k + 1..]), offset, data);
  }

  /** A prefix grows by exactly what is written behind it. */
  lemma PrefixGrows(flat: seq<byte>, written: nat, data: seq<byte>)
    requires written + |data| <= |flat|
    ensures Overwrite(flat, written, data)[..written + |data|] == flat[..written] + data
  {
  }

  // ----- a cursor in the pages ------------------------------------------------------------------------

  /** The pages start with `written`, and page `k`, offset `o` is where the next byte goes. */
  predicate PagesHold(pages: seq<seq<byte>>, k: nat, o: nat, written: seq<byte>) {
    && k <= |pages| && (forall i :: 0 <= i < |pages| ==> pages[i] != [])
    && (if k < |pages| then o < |pages[k]| else o == 0)
    && |written| == |Flat(pages[..k])| + o
    && written <= Flat(pages)
  }

  /** There is a page at the cursor as long as bytes are left. */
  lemma CursorInside(pages: seq<seq<byte>>, k: nat, o: nat, written: seq<byte>)
    requires PagesHold(pages, k, o, written) && |written| < |Flat(pages)|
    ensures k < |pages|
  {
    assert pages[..|pages|] == pages;
  }

  /** As many pages, each as long, and as long together. */
  predicate SameShape(pages: seq<seq<byte>>, next: seq<seq<byte>>) {
    && |next| == |pages| && |Flat(next)| == |Flat(pages)|
    && forall i :: 0 <= i < |pages| ==> |next[i]| == |pages[i]|
  }

  /** Where the cursor stands after `n` bytes more on its page. */
  function NextPage(pages: seq<seq<byte>>, k: nat, o: nat, n: nat): nat
    requires k < |pages|
  {
    if o + n == |pages[k]| then k + 1 else k
  }

  function NextOffset(pages: seq<seq<byte>>, k: nat, o: nat, n: nat): nat
    requires k < |pages|
  {
    if o + n == |pages[k]| then 0 else o + n
  }

  /** One copy behind the cursor, which then moves to the next page when this one is full. */
  lemma CopyHolds(pages: seq<seq<byte>>, k: nat, o: nat, written: seq<byte>, data: seq<byte>)
    requires PagesHold(pages, k, o, written) && k < |pages|
    requires o + |data| <= |pages[k]|
    ensures |Flat(pages[k := Overwrite(pages[k], o, data)])| == |Flat(pages)|
    ensures PagesHold(pages[k := Overwrite(pages[k], o, data)],
                      NextPage(pages, k, o, |data|), NextOffset(pages, k, o, |data|), written + data)
  {
    var next := pages[k := Overwrite(pages[k], o, data)];
    FlatOverwrite(pages, k, o, data);
    PrefixGrows(Flat(pages), |written|, data);
    assert next[..k] == pages[..k];
    assert next[..k + 1] == next[..k] + [next[k]];
    FlatAppend(next[..k], next[k]);
  }

  /** A page more behind the others leaves the cursor and what is written where they are. */
  lemma PagesHoldMore(pages: seq<seq<byte>>, page: seq<byte>, k: nat, o: nat, written: seq<byte>)
    requires PagesHold(pages, k, o, written) && page != []
    ensures PagesHold(pages + [page], k, o, written)
  {
    FlatAppend(pages, page);
    assert (pages + [page])[..k] == pages[..k];
  }

  // ----- sums over ledgers --------------------------------------------------------------------------

  /** What a ledger's entries add up to: every holder's units, told apart and counted. */
  ghost function Sum<K>(ledger: map<K, nat>): nat {
    |Units(ledger)|
  }

  ghost function Units<K>(ledger: map<K, nat>): set<(K, nat)> {
    set k, i: nat | k in ledger && i < ledger[k] :: (k, i)
  }

  ghost function UnitsOf<K>(k: K, amount: nat): set<(K, nat)> {
    set i: nat | i < amount :: (k, i)
  }

  lemma {:induction false} UnitsOfCount<K>(k: K, amount: nat)
    ensures |UnitsOf(k, amount)| == amount
  {
    if amount > 0 {
      UnitsOfCount(k, amount - 1);
      assert UnitsOf(k, amount) == UnitsOf(k, amount - 1) + {(k, amount - 1)};
    }
  }

  /** One entry's share, and the rest. */
  lemma SumWithout<K>(ledger: map<K, nat>, k: K)
    requires k in ledger
    ensures Sum(ledger) == ledger[k] + Sum(ledger - {k})
  {
    UnitsOfCount(k, ledger[k]);
    assert Units(ledger) == UnitsOf(k, ledger[k]) + Units(ledger - {k});
    assert UnitsOf(k, ledger[k]) !! Units(ledger - {k});
  }

  lemma SumUpdate<K>(ledger: map<K, nat>, k: K, amount: nat)
    ensures Sum(ledger[k := amount]) == Sum(ledger - {k}) + amount
  {
    SumWithout(ledger[k := amount], k);
    assert ledger[k := amount] - {k} == ledger - {k};
  }

  // ----- page arithmetic ------------------------------------------------------------------------------

  lemma MulMono(a: nat, b: nat, c: nat)
    requires a <= b
    ensures a * c <= b * c
  {
  }

  /** At most `parts` pages of size ceil(limit / parts) start below `limit`. */
  lemma PageCount(pages: nat, size: nat, limit: nat, parts: nat)
    requires parts * size >= limit && (pages > 0 ==> (pages - 1) * size < limit)
    ensures pages <= parts
  {
    if pages > parts {
      MulMono(parts, pages - 1, size);
    }
  }
}
