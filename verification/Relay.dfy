/**
 The buyer's payload relay: uploads arrive in chunks, interleaved with each other, and are
 kept in pages that are allocated as they are needed under one byte budget. A payload is
 the pages of one finished upload. Every request event is one method, so any interleaving
 of requests is a sequence of calls, and `Valid` is what each of them keeps.
 */
module Relay {
  import opened Basics
  import opened Wrappers
  import opened RelayBytes

  const MAX_SEGMENTS: nat := 32

  type PayloadId = nat

  datatype Payload = Payload(allocatedBytes: nat, byteLength: nat, segments: seq<array<byte>>)

  datatype ContentLength = Absent | Unreadable | Declared(bytes: nat)

  datatype Answer = Fine | TooLarge | NoSlot | NoSpace | Malformed

  // ----- pages -----------------------------------------------------------------------------------

  /** Page size for a payload limit: at most MAX_SEGMENTS pages, at least one byte each. */
  function PageSize(limit: nat): (size: nat)
    ensures size >= 1 && MAX_SEGMENTS * size >= limit
  {
    if limit == 0 then 1 else (limit + MAX_SEGMENTS - 1) / MAX_SEGMENTS
  }

  /** Bytes taken by `pages` pages: one after the other, the last one cut off at the limit. */
  function Capacity(pages: nat, size: nat, limit: nat): (r: nat)
    ensures r <= limit
  {
    if pages == 0 then 0
    else
      var before := Capacity(pages - 1, size, limit);
      before + Min(size, limit - before)
  }

  function PagesFor(bytes: nat, size: nat): nat
    requires size >= 1
  {
    if bytes == 0 then 0 else 1 + PagesFor(Max(bytes - size, 0), size)
  }

  /** Bytes retained for an upload of `bytes` bytes. */
  function Allocation(bytes: nat, size: nat, limit: nat): nat
    requires size >= 1
  {
    Capacity(PagesFor(bytes, size), size, limit)
  }

  lemma {:induction false} CapacityIs(pages: nat, size: nat, limit: nat)
    ensures Capacity(pages, size, limit) == Min(pages * size, limit)
  {
    if pages > 0 {
      CapacityIs(pages - 1, size, limit);
      assert pages * size == (pages - 1) * size + size;
    }
  }

  lemma {:induction false} PagesForCovers(bytes: nat, size: nat)
    requires size >= 1
    ensures bytes <= PagesFor(bytes, size) * size < bytes + size
  {
    if bytes > 0 {
      var rest := Max(bytes - size, 0);
      PagesForCovers(rest, size);
      assert PagesFor(bytes, size) * size == size + PagesFor(rest, size) * size;
    }
  }

  /** What is retained is the size rounded up to whole pages, and never more than the limit. */
  lemma AllocationIsRoundedUp(bytes: nat, size: nat, limit: nat)
    requires size >= 1
    ensures Allocation(bytes, size, limit) == Min((bytes + size - 1) / size * size, limit)
    ensures bytes <= limit ==> bytes <= Allocation(bytes, size, limit)
  {
    CapacityIs(PagesFor(bytes, size), size, limit);
    PagesForCovers(bytes, size);
    QuotientIs(PagesFor(bytes, size), bytes + size - 1, size);
  }

  lemma QuotientIs(q: nat, n: nat, d: nat)
    requires d >= 1 && q * d <= n < q * d + d
    ensures n / d == q
  {
    var r := n / d;
    assert n == d * r + n % d;
    if r < q {
      MulMono(r + 1, q, d);
    } else if r > q {
      MulMono(q + 1, r, d);
    }
  }

  lemma {:induction false} CapacityGrows(a: nat, b: nat, size: nat, limit: nat)
    requires a <= b
    ensures Capacity(a, size, limit) <= Capacity(b, size, limit)
  {
    if a < b {
      CapacityGrows(a, b - 1, size, limit);
    }
  }

  /** The last page needed starts below the limit. */
  lemma LastPageStarts(bytes: nat, size: nat, limit: nat)
    requires size >= 1 && 0 < bytes <= limit
    ensures Capacity(PagesFor(bytes, size) - 1, size, limit) < limit
  {
    var last := PagesFor(bytes, size) - 1;
    PagesForCovers(bytes, size);
    CapacityIs(last, size, limit);
    assert last * size + size == (last + 1) * size;
  }

  /** Pages are missing exactly while less is retained than `bytes` bytes need. */
  lemma PagesMissing(pages: nat, bytes: nat, size: nat, limit: nat)
    requires size >= 1 && bytes <= limit
    ensures Capacity(pages, size, limit) < Allocation(bytes, size, limit) <==> pages < PagesFor(bytes, size)
    ensures pages < PagesFor(bytes, size) ==> Capacity(pages + 1, size, limit) <= Allocation(bytes, size, limit)
  {
    var needed := PagesFor(bytes, size);
    if pages < needed {
      LastPageStarts(bytes, size, limit);
      CapacityGrows(pages, needed - 1, size, limit);
      CapacityGrows(pages + 1, needed, size, limit);
    } else {
      CapacityGrows(needed, pages, size, limit);
    }
  }

  /** Pages are `size` bytes long, except that the last one stops at the limit. */
  predicate Shaped(pages: seq<seq<byte>>, size: nat, limit: nat) {
    forall i :: 0 <= i < |pages| ==> pages[i] != [] && |pages[i]| == Min(size, limit - Capacity(i, size, limit))
  }

  /** Together the pages are as long as their number says. */
  lemma {:induction false} FlatLength(pages: seq<seq<byte>>, size: nat, limit: nat)
    requires Shaped(pages, size, limit)
    ensures |Flat(pages)| == Capacity(|pages|, size, limit)
  {
    if pages != [] {
      var n := |pages| - 1;
      FlatLength(pages[..n], size, limit);
      assert pages == pages[..n] + [pages[n]];
      FlatAppend(pages[..n], pages[n]);
    }
  }

  /** An upload never has more than MAX_SEGMENTS pages. */
  lemma AtMostMaxSegments(pages: seq<seq<byte>>, limit: nat)
    requires Shaped(pages, PageSize(limit), limit)
    ensures |pages| <= MAX_SEGMENTS
  {
    if pages != [] {
      assert pages[|pages| - 1] != [];
      CapacityIs(|pages| - 1, PageSize(limit), limit);
    }
    PageCount(|pages|, PageSize(limit), limit, MAX_SEGMENTS);
  }

  /** No smaller page would do: a payload at the limit needs at most MAX_SEGMENTS pages of this size, and more of any smaller one. */
  lemma PageSizeIsLeast(limit: nat, size: nat)
    requires size >= 1
    ensures PagesFor(limit, PageSize(limit)) <= MAX_SEGMENTS
    ensures size < PageSize(limit) ==> PagesFor(limit, size) > MAX_SEGMENTS
  {
    var pages, least := PagesFor(limit, PageSize(limit)), PagesFor(limit, size);
    PagesForCovers(limit, PageSize(limit));
    PagesForCovers(limit, size);
    if pages > MAX_SEGMENTS {
      MulMono(MAX_SEGMENTS, pages - 1, PageSize(limit));
    }
    if least <= MAX_SEGMENTS {
      MulMono(least, MAX_SEGMENTS, size);
    }
  }

  predicate Distinct(segments: seq<array<byte>>) {
    forall i, j :: 0 <= i < j < |segments| ==> segments[i] != segments[j]
  }

  /** `pages` is what the segments hold now. */
  ghost predicate Mirrors(segments: seq<array<byte>>, pages: seq<seq<byte>>)
    reads segments
  {
    |segments| == |pages| && forall i :: 0 <= i < |pages| ==> segments[i][..] == pages[i]
  }

  /** The segments are allocated, are different pages, and hold `pages`. */
  ghost predicate Backs(segments: seq<array<byte>>, repr: set<array<byte>>, pages: seq<seq<byte>>)
    reads repr
  {
    && (forall i :: 0 <= i < |segments| ==> segments[i] in repr)
    && Distinct(segments) && Mirrors(segments, pages)
  }

  lemma BacksMore(segments: seq<array<byte>>, repr: set<array<byte>>, pages: seq<seq<byte>>, page: array<byte>)
    requires Backs(segments, repr, pages) && page !in repr
    ensures Backs(segments + [page], repr + {page}, pages + [page[..]])
  {
  }

  /**
   The pages start with the bytes received, the cursor stands behind them, and what is
   reserved is what the pages take.
   */
  ghost predicate Laid(pages: seq<seq<byte>>, k: nat, o: nat, received: seq<byte>,
                       reserved: nat, size: nat, limit: nat)
  {
    Shaped(pages, size, limit) && reserved == Capacity(|pages|, size, limit) && PagesHold(pages, k, o, received)
  }

  lemma LaidMore(pages: seq<seq<byte>>, page: seq<byte>, k: nat, o: nat, received: seq<byte>,
                 reserved: nat, size: nat, limit: nat)
    requires Laid(pages, k, o, received, reserved, size, limit)
    requires page != [] && |page| == Min(size, limit - reserved)
    ensures Laid(pages + [page], k, o, received, reserved + |page|, size, limit)
  {
    var next := pages + [page];
    forall i | 0 <= i < |next|
      ensures next[i] != [] && |next[i]| == Min(size, limit - Capacity(i, size, limit))
    {
      assert next[i] == if i < |pages| then pages[i] else page;
    }
    assert Capacity(|next|, size, limit) == reserved + |page|;
    PagesHoldMore(pages, page, k, o, received);
  }

  lemma LaidBehind(pages: seq<seq<byte>>, next: seq<seq<byte>>, k: nat, o: nat, received: seq<byte>,
                   reserved: nat, size: nat, limit: nat)
    requires Shaped(pages, size, limit) && reserved == Capacity(|pages|, size, limit)
    requires SameShape(pages, next) && PagesHold(next, k, o, received)
    ensures Laid(next, k, o, received, reserved, size, limit)
  {
  }

  method WritePage(segments: seq<array<byte>>, k: nat, offset: nat, data: seq<byte>, ghost pages: seq<seq<byte>>)
    requires Distinct(segments) && Mirrors(segments, pages)
    requires k < |segments| && offset + |data| <= |pages[k]|
    modifies segments[k]
    ensures Mirrors(segments, pages[k := Overwrite(pages[k], offset, data)])
  {
    var segment := segments[k];
    assert segment[..] == pages[k];
    forall i | 0 <= i < |data| {
      segment[offset + i] := data[i];
    }
    assert segment[..] == Overwrite(pages[k], offset, data);
    assert forall i :: 0 <= i < |segments| && i != k ==> segments[i][..] == pages[i];
  }

  /** One copy into the page at the cursor: as much of the chunk as fits there. */
  method CopyOnce(segments: seq<array<byte>>, k: nat, o: nat, chunk: seq<byte>, done: nat,
                  ghost pages: seq<seq<byte>>, ghost received: seq<byte>)
    returns (done': nat, k': nat, o': nat, ghost pages': seq<seq<byte>>)
    requires Distinct(segments) && Mirrors(segments, pages) && done < |chunk|
    requires PagesHold(pages, k, o, received + chunk[..done])
    requires |received| + |chunk| <= |Flat(pages)|
    modifies segments
    ensures done < done' <= |chunk|
    ensures Mirrors(segments, pages') && SameShape(pages, pages')
    ensures PagesHold(pages', k', o', received + chunk[..done'])
  {
    ghost var written := received + chunk[..done];
    CursorInside(pages, k, o, written);
    assert segments[k][..] == pages[k];
    var length := segments[k].Length;
    var copied := Min(|chunk| - done, length - o);
    done' := done + copied;
    var data := chunk[done..done'];
    CopyHolds(pages, k, o, written, data);
    assert written + data == received + chunk[..done'];
    WritePage(segments, k, o, data, pages);
    pages' := pages[k := Overwrite(pages[k], o, data)];
    k', o' := if o + copied == length then k + 1 else k, if o + copied == length then 0 else o + copied;
  }

  /** The whole chunk goes behind the bytes received so far. */
  method CopyChunk(segments: seq<array<byte>>, k: nat, o: nat, chunk: seq<byte>, ghost repr: set<array<byte>>,
                   ghost pages: seq<seq<byte>>, ghost received: seq<byte>)
    returns (k': nat, o': nat, ghost pages': seq<seq<byte>>)
    requires Backs(segments, repr, pages) && PagesHold(pages, k, o, received)
    requires |received| + |chunk| <= |Flat(pages)|
    modifies repr
    ensures Backs(segments, repr, pages') && SameShape(pages, pages')
    ensures PagesHold(pages', k', o', received + chunk)
  {
    k', o', pages' := k, o, pages;
    var done := 0;
    assert received + chunk[..0] == received;
    while done < |chunk|
      invariant done <= |chunk| && Mirrors(segments, pages') && SameShape(pages, pages')
      invariant PagesHold(pages', k', o', received + chunk[..done])
    {
      done, k', o', pages' := CopyOnce(segments, k', o', chunk, done, pages', received);
    }
    assert chunk[..done] == chunk;
  }

  // ----- one upload ----------------------------------------------------------------------------------

  class Upload {
    var segments: seq<array<byte>>
    var receivedBytes: nat
    var reserved: nat
    var writeSegment: nat
    var writeOffset: nat
    var terminal: bool
    var released: bool
    ghost var received: seq<byte>     // the chunks so far, as one byte string
    ghost var pages: seq<seq<byte>>   // what the segments hold
    ghost var repr: set<array<byte>>  // every page allocated for this upload

    constructor ()
      ensures segments == [] && pages == [] && repr == {} && received == [] && receivedBytes == 0 && reserved == 0
      ensures writeSegment == 0 && writeOffset == 0 && !terminal && !released
    {
      segments, receivedBytes, reserved := [], 0, 0;
      writeSegment, writeOffset, terminal, released := 0, 0, false, false;
      received, pages, repr := [], [], {};
    }

    ghost predicate Ok(size: nat, limit: nat)
      reads this, repr
    {
      && Backs(segments, repr, pages) && Laid(pages, writeSegment, writeOffset, received, reserved, size, limit)
      && receivedBytes == |received| && !terminal && !released
    }

    /** The upload as it stands after a page or a chunk. */
    method Install(segments': seq<array<byte>>, k: nat, o: nat, receivedBytes': nat, reserved': nat,
                   ghost repr': set<array<byte>>, ghost pages': seq<seq<byte>>, ghost received': seq<byte>,
                   ghost size: nat, ghost limit: nat)
      requires Backs(segments', repr', pages') && Laid(pages', k, o, received', reserved', size, limit)
      requires receivedBytes' == |received'| && !terminal && !released
      modifies this`segments, this`writeSegment, this`writeOffset, this`receivedBytes, this`reserved
      modifies this`repr, this`pages, this`received
      ensures segments == segments' && receivedBytes == receivedBytes' && reserved == reserved'
      ensures repr == repr' && received == received' && Ok(size, limit)
    {
      segments, writeSegment, writeOffset, receivedBytes, reserved := segments', k, o, receivedBytes', reserved';
      repr, pages, received := repr', pages', received';
    }

    /** One page more; the allocator may refuse it. */
    method AddPage(size: nat, limit: nat, memory: nat) returns (ok: bool)
      requires Ok(size, limit) && size >= 1 && reserved < limit
      modifies this`segments, this`writeSegment, this`writeOffset, this`receivedBytes, this`reserved
      modifies this`repr, this`pages, this`received
      ensures ok == (memory > 0) && reserved == old(reserved) + Min(size, limit - old(reserved))
      ensures |segments| == |old(segments)| + (if ok then 1 else 0)
      ensures receivedBytes == old(receivedBytes) && received == old(received)
      ensures old(repr) <= repr && fresh(repr - old(repr)) && (!ok ==> repr == old(repr))
      ensures ok ==> Ok(size, limit)
    {
      var bytes := Min(size, limit - reserved);
      if memory == 0 {
        reserved := reserved + bytes;
        return false;
      }
      var page := new byte[bytes];
      LaidMore(pages, page[..], writeSegment, writeOffset, received, reserved, size, limit);
      BacksMore(segments, repr, pages, page);
      Install(segments + [page], writeSegment, writeOffset, receivedBytes, reserved + bytes,
              repr + {page}, pages + [page[..]], received, size, limit);
      ok := true;
    }

    /** The chunk goes behind what has been received, into pages that are there already. */
    method Append(size: nat, limit: nat, chunk: seq<byte>)
      requires Ok(size, limit) && receivedBytes + |chunk| <= reserved
      modifies this`segments, this`writeSegment, this`writeOffset, this`receivedBytes, this`reserved
      modifies this`repr, this`pages, this`received, repr
      ensures segments == old(segments) && reserved == old(reserved) && repr == old(repr)
      ensures received == old(received) + chunk && receivedBytes == old(receivedBytes) + |chunk|
      ensures Ok(size, limit)
    {
      FlatLength(pages, size, limit);
      var k, o, next := CopyChunk(segments, writeSegment, writeOffset, chunk, repr, pages, received);
      LaidBehind(pages, next, k, o, received + chunk, reserved, size, limit);
      Install(segments, k, o, receivedBytes + |chunk|, reserved, repr, next, received + chunk, size, limit);
    }
  }

  // ----- the relay --------------------------------------------------------------------------------------

  class RelayStore {
    const maxPayloadBytes: nat
    const maxRelayBytes: nat
    const maxPayloads: nat
    const segmentBytes: nat

    var payloads: map<PayloadId, Payload>
    var storedAllocatedBytes: nat
    var inFlightAllocatedBytes: nat
    var activeUploads: nat

    ghost var live: map<Upload, nat>                      // uploads in progress, with what each has reserved
    ghost var owner: map<array<byte>, Upload>             // the upload that allocated a page
    ghost var origin: map<PayloadId, Upload>              // the upload a payload came from
    ghost var images: map<PayloadId, seq<seq<byte>>>      // what a payload's pages hold
    ghost var contents: map<PayloadId, seq<byte>>         // the payloads as flat byte strings

    constructor (maxPayloadBytes: nat, maxRelayBytes: nat, maxPayloads: nat)
      ensures Valid() && fresh(this) && payloads == map[] && contents == map[] && live == map[]
      ensures this.maxPayloadBytes == maxPayloadBytes && this.maxRelayBytes == maxRelayBytes
      ensures this.maxPayloads == maxPayloads
    {
      this.maxPayloadBytes := maxPayloadBytes;
      this.maxRelayBytes := maxRelayBytes;
      this.maxPayloads := maxPayloads;
      this.segmentBytes := PageSize(maxPayloadBytes);
      payloads, storedAllocatedBytes, inFlightAllocatedBytes, activeUploads := map[], 0, 0, 0;
      live, owner, origin, images, contents := map[], map[], map[], map[], map[];
    }

    ghost function Allocations(): map<PayloadId, nat>
      reads this
    {
      map p | p in payloads :: payloads[p].allocatedBytes
    }

    /** The counters are the sums they stand for, within the relay's limits. */
    ghost predicate Books()
      reads this
    {
      && segmentBytes == PageSize(maxPayloadBytes)
      && inFlightAllocatedBytes == Sum(live)
      && storedAllocatedBytes == Sum(Allocations())
      && activeUploads == |live|
      && storedAllocatedBytes + inFlightAllocatedBytes <= maxRelayBytes
      && |payloads| + activeUploads <= maxPayloads
    }

    /** The pages of `u` are its own. */
    ghost predicate Owns(u: Upload)
      reads this, u
    {
      forall page :: page in u.repr ==> page in owner && owner[page] == u
    }

    /** A page belongs to the upload that allocated it, and to the payload made of that upload. */
    ghost predicate Ownership()
      reads this, live.Keys
    {
      && (forall u :: u in live ==> Owns(u))
      && (forall p, i :: p in payloads && 0 <= i < |payloads[p].segments| ==>
            payloads[p].segments[i] in owner && p in origin && owner[payloads[p].segments[i]] == origin[p])
      && origin.Keys == payloads.Keys && (forall p :: p in origin ==> origin[p] !in live)
    }

    /** A payload's byte length and pages stand for exactly the bytes of its upload. */
    ghost predicate PayloadsOk()
      reads this
    {
      && contents.Keys == images.Keys == payloads.Keys
      && forall p :: p in payloads ==>
           StandsFor(payloads[p], images[p], contents[p], segmentBytes, maxPayloadBytes)
    }

    ghost predicate UploadsOk()
      reads this, live.Keys, owner.Keys
      requires Ownership()
    {
      forall u :: u in live ==> u.Ok(segmentBytes, maxPayloadBytes) && live[u] == u.reserved
    }

    ghost predicate PagesOk()
      reads this, live.Keys, owner.Keys
      requires Ownership() && images.Keys == payloads.Keys
    {
      forall p :: p in payloads ==> Mirrors(payloads[p].segments, images[p])
    }

    ghost predicate Valid()
      reads this, live.Keys, owner.Keys
    {
      Books() && Ownership() && PayloadsOk() && UploadsOk() && PagesOk()
    }

    // ----- steps of an upload -------------------------------------------------------------------

    /** An upload this relay has begun: still running, or over for good. */
    ghost predicate Knows(u: Upload)
      reads this, u
    {
      u in live || (u.terminal && u.released)
    }

    lemma LiveSum(u: Upload)
      requires Books() && u in live && live[u] == u.reserved
      ensures u.reserved <= inFlightAllocatedBytes && activeUploads > 0
    {
      SumWithout(live, u);
    }

    /** The relay's own books outside the uploads in progress are as they were. */
    twostate predicate StoreKept()
      reads this
    {
      // field by field: the uploads and the counters for them may have changed
      unchanged(this`payloads, this`contents, this`images, this`origin, this`storedAllocatedBytes)
    }

    /** What `u` has reserved is given back, or passes to the stored payloads; a second call does nothing. */
    method Release(u: Upload, committed: bool)
      requires u.released || (u.reserved <= inFlightAllocatedBytes && activeUploads > 0)
      modifies this`storedAllocatedBytes, this`inFlightAllocatedBytes, this`activeUploads, this`live
      modifies u`released, u`segments
      ensures u.released
      ensures old(u.released) ==> unchanged(this) && u.segments == old(u.segments)
      ensures !old(u.released) ==>
        && live == old(live) - {u}
        && activeUploads == old(activeUploads) - 1
        && inFlightAllocatedBytes == old(inFlightAllocatedBytes) - u.reserved
        && storedAllocatedBytes == old(storedAllocatedBytes) + (if committed then u.reserved else 0)
        && u.segments == (if committed then old(u.segments) else [])
      ensures OthersKept(u, old(live), old(owner))
      ensures unchanged(this`payloads, this`contents, this`images, this`origin, this`owner)
      ensures unchanged(u`pages, u`received, u`receivedBytes, u`reserved, u`repr)
    {
      if u.released {
        return;
      }
      u.released := true;
      inFlightAllocatedBytes := inFlightAllocatedBytes - u.reserved;
      activeUploads := activeUploads - 1;
      live := live - {u};
      if committed {
        storedAllocatedBytes := storedAllocatedBytes + u.reserved;
      } else {
        u.segments := [];
      }
    }

    twostate lemma UploadsStay(new u: Upload)
      requires old(Ownership()) && old(UploadsOk()) && OthersKept(u, old(live), old(owner))
      ensures forall v :: v in old(live) && v != u ==>
        v.Ok(segmentBytes, maxPayloadBytes) && v.repr == old(v.repr) && v.reserved == old(v.reserved)
    {
      assert forall v, page :: v in old(live) && v != u && page in v.repr ==> old(owner)[page] == v;
    }

    twostate lemma PagesStay(new u: Upload)
      requires old(Ownership()) && old(PayloadsOk()) && OthersKept(u, old(live), old(owner))
      requires old(PagesOk()) && forall p :: p in old(payloads) ==> old(origin)[p] != u
      ensures forall p :: p in old(payloads) ==> Mirrors(old(payloads)[p].segments, old(images)[p])
    {
      assert forall p, i :: p in old(payloads) && 0 <= i < |old(payloads)[p].segments| ==>
        old(owner)[old(payloads)[p].segments[i]] == old(origin)[p];
    }

    twostate lemma BooksWithout(u: Upload)
      requires old(Books()) && StoreKept() && u in old(live) && old(live)[u] == old(u.reserved)
      requires live == old(live) - {u} && activeUploads == old(activeUploads) - 1
      requires inFlightAllocatedBytes == old(inFlightAllocatedBytes - u.reserved)
      ensures Books()
    {
      SumWithout(old(live), u);
      assert live.Keys == old(live).Keys - {u};
      assert Allocations() == old(Allocations());
    }

    twostate lemma OwnershipWithout(u: Upload)
      requires old(Ownership()) && StoreKept() && OthersKept(u, old(live), old(owner))
      requires live == old(live) - {u} && OwnersKept(u)
      ensures Ownership()
    {
      assert forall v :: v in live ==> v.repr == old(v.repr);
    }

    /** The upload ends without a payload: everything it has reserved is free again. */
    twostate lemma DiscardedIsValid(u: Upload)
      requires OthersKept(u, old(live), old(owner)) && StoreKept() && u in old(live)
      requires live == old(live) - {u} && OwnersKept(u)
      requires activeUploads == old(activeUploads) - 1
      requires inFlightAllocatedBytes == old(inFlightAllocatedBytes - u.reserved)
      ensures old(Valid()) ==> Valid()
    {
      if old(Valid()) {
        BooksWithout(u);
        OwnershipWithout(u);
        UploadsStay(u);
        PagesStay(u);
      }
    }

    /** What `u` has reserved since is charged to the relay, within its limits. */
    twostate predicate Charged(new u: Upload)
      reads this, u
    {
      && live == old(live)[u := u.reserved]
      && activeUploads == old(activeUploads) + (if u in old(live) then 0 else 1)
      && inFlightAllocatedBytes ==
           old(inFlightAllocatedBytes) + u.reserved - (if u in old(live) then old(u.reserved) else 0)
      && storedAllocatedBytes + inFlightAllocatedBytes <= maxRelayBytes
      && |payloads| + activeUploads <= maxPayloads
    }

    twostate lemma BooksWith(new u: Upload)
      requires old(Books()) && StoreKept() && (u in old(live) ==> old(live)[u] == old(u.reserved))
      requires Charged(u)
      ensures Books()
    {
      SumUpdate(old(live), u, u.reserved);
      if u in old(live) {
        SumWithout(old(live), u);
        assert live.Keys == old(live).Keys;
      } else {
        assert old(live) - {u} == old(live);
        assert live.Keys == old(live).Keys + {u};
      }
      assert Allocations() == old(Allocations());
    }

    /** The owner map has grown by pages of `u` at most. */
    twostate predicate OwnersKept(new u: Upload)
      reads this, u
    {
      && (forall page :: page in old(owner) ==> page in owner && owner[page] == old(owner)[page])
      && Owns(u)
    }

    twostate lemma OwnershipWith(new u: Upload)
      requires old(Ownership()) && StoreKept() && OthersKept(u, old(live), old(owner)) && OwnersKept(u)
      requires live == old(live)[u := u.reserved]
      requires forall p :: p in origin ==> origin[p] != u
      ensures Ownership()
    {
      assert forall v :: v in live && v != u ==> v.repr == old(v.repr);
    }

    twostate lemma UploadsWith(new u: Upload)
      requires old(Ownership()) && old(UploadsOk()) && OthersKept(u, old(live), old(owner)) && Ownership()
      requires live == old(live)[u := u.reserved] && u.Ok(segmentBytes, maxPayloadBytes)
      ensures UploadsOk()
    {
      UploadsStay(u);
    }

    /** `u` has grown and nothing else has changed. */
    twostate lemma GrownIsValid(new u: Upload)
      requires OthersKept(u, old(live), old(owner)) && StoreKept() && OwnersKept(u)
      requires forall p :: p in origin ==> origin[p] != u
      requires Charged(u) && u.Ok(segmentBytes, maxPayloadBytes)
      ensures old(Valid()) ==> Valid()
    {
      if old(Valid()) {
        BooksWith(u);
        OwnershipWith(u);
        UploadsWith(u);
        PagesStay(u);
      }
    }

    // ----- request events -----------------------------------------------------------------------

    /** The end of an upload without a payload: what was reserved is free, whatever state `u` is in. */
    method Discard(u: Upload)
      requires u in live && Owns(u) && !u.terminal && !u.released
      requires u.reserved <= inFlightAllocatedBytes && activeUploads > 0
      modifies this`storedAllocatedBytes, this`inFlightAllocatedBytes, this`activeUploads, this`live
      modifies u`terminal, u`released, u`segments
      ensures u.terminal && u.released && live == old(live) - {u} && activeUploads == old(activeUploads) - 1
      ensures inFlightAllocatedBytes == old(inFlightAllocatedBytes - u.reserved)
      ensures u.segments == [] && StoreKept() && OthersKept(u, old(live), old(owner))
      ensures old(Valid()) ==> Valid()
    {
      u.terminal := true;
      Release(u, false);
      DiscardedIsValid(u);
    }

    /** An upload is aborted, fails, or is closed before its end; later events change nothing. */
    method Reject(u: Upload)
      requires Valid() && Knows(u)
      modifies this`storedAllocatedBytes, this`inFlightAllocatedBytes, this`activeUploads, this`live
      modifies u`terminal, u`released, u`segments
      ensures Valid() && u.terminal && u.released
      ensures old(u.terminal) ==> unchanged(this) && unchanged(u)
      ensures !old(u.terminal) ==>
        && live == old(live) - {u}
        && inFlightAllocatedBytes == old(inFlightAllocatedBytes - u.reserved)
        && storedAllocatedBytes == old(storedAllocatedBytes)
    {
      if !u.terminal {
        Drop(u);
      }
    }

    /** The same for an upload in progress. */
    method Drop(u: Upload)
      requires Valid() && u in live
      modifies this`storedAllocatedBytes, this`inFlightAllocatedBytes, this`activeUploads, this`live
      modifies u`terminal, u`released, u`segments
      ensures Valid() && u.terminal && u.released && live == old(live) - {u}
      ensures inFlightAllocatedBytes == old(inFlightAllocatedBytes - u.reserved)
      ensures storedAllocatedBytes == old(storedAllocatedBytes)
    {
      LiveSum(u);
      LiveOwns(u);
      Discard(u);
    }

    /** Whether `bytes` bytes of `u` fit into the relay's budget beside everything retained now. */
    ghost predicate Fits(u: Upload, bytes: nat)
      reads this, u
      requires segmentBytes >= 1
    {
      storedAllocatedBytes + inFlightAllocatedBytes + Allocation(bytes, segmentBytes, maxPayloadBytes) - u.reserved
        <= maxRelayBytes
    }

    /** One page more, charged to the relay's budget before it is allocated. */
    method AddPage(u: Upload, memory: nat) returns (ok: bool)
      requires u.Ok(segmentBytes, maxPayloadBytes) && Owns(u) && segmentBytes >= 1 && u.reserved < maxPayloadBytes
      modifies this`inFlightAllocatedBytes, this`owner
      modifies u`segments, u`writeSegment, u`writeOffset, u`receivedBytes, u`reserved, u`repr, u`pages, u`received
      ensures ok == (memory > 0) && |u.segments| == |old(u.segments)| + (if ok then 1 else 0)
      ensures u.receivedBytes == old(u.receivedBytes) && u.received == old(u.received)
      ensures fresh(u.repr - old(u.repr)) && OwnersKept(u)
      ensures ok ==> u.Ok(segmentBytes, maxPayloadBytes)
      ensures u.reserved == old(u.reserved) + Min(segmentBytes, maxPayloadBytes - old(u.reserved))
      ensures inFlightAllocatedBytes - u.reserved == old(inFlightAllocatedBytes - u.reserved)
    {
      inFlightAllocatedBytes := inFlightAllocatedBytes + Min(segmentBytes, maxPayloadBytes - u.reserved);
      ok := u.AddPage(segmentBytes, maxPayloadBytes, memory);
      if ok {
        owner := map page | page in owner.Keys + u.repr :: if page in u.repr then u else owner[page];
      }
    }

    /** Why a chunk that brings `u` to `bytes` bytes is refused, if it is. */
    ghost function Refusal(u: Upload, bytes: nat, memory: nat): Answer
      reads this, u
      requires segmentBytes >= 1
    {
      if bytes > maxPayloadBytes then TooLarge
      else if !Fits(u, bytes) || PagesFor(bytes, segmentBytes) > |u.segments| + memory then NoSpace
      else Fine
    }

    /** Pages are added until `bytes` bytes have room; `memory` pages can be had from the allocator. */
    method AddPages(u: Upload, bytes: nat, memory: nat) returns (ok: bool)
      requires u.Ok(segmentBytes, maxPayloadBytes) && segmentBytes >= 1 && bytes <= maxPayloadBytes
      requires Owns(u)
      modifies this`inFlightAllocatedBytes, this`owner
      modifies u`segments, u`writeSegment, u`writeOffset, u`receivedBytes, u`reserved, u`repr, u`pages, u`received
      ensures ok == (PagesFor(bytes, segmentBytes) <= |old(u.segments)| + memory)
      ensures ok ==> u.Ok(segmentBytes, maxPayloadBytes)
      ensures u.receivedBytes == old(u.receivedBytes) && u.received == old(u.received)
      ensures u.reserved == old(u.reserved)
              || old(u.reserved) <= u.reserved <= Allocation(bytes, segmentBytes, maxPayloadBytes)
      ensures ok ==> u.reserved >= Allocation(bytes, segmentBytes, maxPayloadBytes)
      ensures fresh(u.repr - old(u.repr)) && OwnersKept(u)
      ensures inFlightAllocatedBytes - u.reserved == old(inFlightAllocatedBytes - u.reserved)
    {
      var left: nat := memory;
      while u.reserved < Allocation(bytes, segmentBytes, maxPayloadBytes)
        invariant u.Ok(segmentBytes, maxPayloadBytes) && OwnersKept(u) && fresh(u.repr - old(u.repr))
        invariant inFlightAllocatedBytes - u.reserved == old(inFlightAllocatedBytes - u.reserved)
        invariant u.reserved == old(u.reserved)
                  || old(u.reserved) <= u.reserved <= Allocation(bytes, segmentBytes, maxPayloadBytes)
        invariant left + |u.segments| == memory + |old(u.segments)|
        invariant left == memory || |u.segments| <= PagesFor(bytes, segmentBytes)
        invariant u.receivedBytes == old(u.receivedBytes) && u.received == old(u.received)
      {
        ghost var page := Min(segmentBytes, maxPayloadBytes - u.reserved);
        assert |u.segments| < PagesFor(bytes, segmentBytes) && u.reserved < maxPayloadBytes
            && u.reserved + page <= Allocation(bytes, segmentBytes, maxPayloadBytes)
        by {
          PagesMissing(|u.segments|, bytes, segmentBytes, maxPayloadBytes);
        }
        var added := AddPage(u, left);
        if !added {
          return false;
        }
        left := left - 1;
      }
      assert |u.segments| >= PagesFor(bytes, segmentBytes) by {
        PagesMissing(|u.segments|, bytes, segmentBytes, maxPayloadBytes);
      }
      ok := true;
    }

    /** Room for `bytes` bytes, unless the relay's budget or the allocator says no. */
    method EnsureRetainedCapacity(u: Upload, bytes: nat, memory: nat) returns (ok: bool)
      requires u.Ok(segmentBytes, maxPayloadBytes) && segmentBytes >= 1 && bytes <= maxPayloadBytes
      requires u.reserved <= inFlightAllocatedBytes && storedAllocatedBytes + inFlightAllocatedBytes <= maxRelayBytes
      requires Owns(u)
      modifies this`inFlightAllocatedBytes, this`owner
      modifies u`segments, u`writeSegment, u`writeOffset, u`receivedBytes, u`reserved, u`repr, u`pages, u`received
      ensures ok == (old(Refusal(u, bytes, memory)) == Fine)
      ensures ok ==> u.Ok(segmentBytes, maxPayloadBytes) && bytes <= u.reserved
      ensures ok ==> u.reserved == Max(Allocation(bytes, segmentBytes, maxPayloadBytes), old(u.reserved))
      ensures u.receivedBytes == old(u.receivedBytes) && u.received == old(u.received)
      ensures fresh(u.repr - old(u.repr)) && OwnersKept(u)
      ensures inFlightAllocatedBytes - u.reserved == old(inFlightAllocatedBytes - u.reserved)
      ensures u.reserved <= inFlightAllocatedBytes && storedAllocatedBytes + inFlightAllocatedBytes <= maxRelayBytes
      ensures StoreKept() && OthersKept(u, old(live), old(owner))
    {
      var target := Allocation(bytes, segmentBytes, maxPayloadBytes);
      AllocationIsRoundedUp(bytes, segmentBytes, maxPayloadBytes);
      if target - u.reserved > maxRelayBytes - storedAllocatedBytes - inFlightAllocatedBytes {
        return false;
      }
      ok := AddPages(u, bytes, memory);
    }

    /** What the relay may rely on for an upload in progress. */
    ghost predicate Running(u: Upload)
      reads this, u, u.repr
    {
      && u in live && live[u] == u.reserved && u.Ok(segmentBytes, maxPayloadBytes) && Owns(u)
      && segmentBytes >= 1 && u.reserved <= inFlightAllocatedBytes
      && storedAllocatedBytes + inFlightAllocatedBytes <= maxRelayBytes
      && activeUploads > 0 && |payloads| + activeUploads <= maxPayloads
      && (forall p :: p in origin ==> origin[p] != u)
    }

    lemma LiveIsRunning(u: Upload)
      requires Books() && Ownership() && UploadsOk() && u in live
      ensures Running(u)
    {
      LiveSum(u);
      LiveOwns(u);
    }

    lemma LiveOwns(u: Upload)
      requires Ownership() && u in live
      ensures Owns(u) && forall p :: p in origin ==> origin[p] != u
    {
    }

    /** Room for `bytes` bytes of `u`, charged to it; without it `u` still has to be discarded. */
    method Charge(u: Upload, bytes: nat, memory: nat) returns (ok: bool)
      requires Running(u) && bytes <= maxPayloadBytes
      modifies this`inFlightAllocatedBytes, this`owner, this`live
      modifies u`segments, u`writeSegment, u`writeOffset, u`receivedBytes, u`reserved, u`repr, u`pages, u`received
      ensures ok == (old(Refusal(u, bytes, memory)) == Fine)
      ensures ok ==>
        && Charged(u) && u.Ok(segmentBytes, maxPayloadBytes) && bytes <= u.reserved
        && u.reserved == Max(Allocation(bytes, segmentBytes, maxPayloadBytes), old(u.reserved))
      ensures !ok ==>
        && live == old(live) && u.reserved <= inFlightAllocatedBytes
        && inFlightAllocatedBytes - u.reserved == old(inFlightAllocatedBytes - u.reserved)
      ensures StoreKept() && OthersKept(u, old(live), old(owner)) && OwnersKept(u)
      ensures fresh(u.repr - old(u.repr))
      ensures u.receivedBytes == old(u.receivedBytes) && u.received == old(u.received)
    {
      ok := EnsureRetainedCapacity(u, bytes, memory);
      if ok {
        live := live[u := u.reserved];
      }
    }

    /** And the relay stays valid. */
    method Grow(u: Upload, bytes: nat, memory: nat) returns (ok: bool)
      requires Running(u) && bytes <= maxPayloadBytes
      modifies this`inFlightAllocatedBytes, this`owner, this`live
      modifies u`segments, u`writeSegment, u`writeOffset, u`receivedBytes, u`reserved, u`repr, u`pages, u`received
      ensures ok == (old(Refusal(u, bytes, memory)) == Fine)
      ensures ok ==>
        && Running(u) && bytes <= u.reserved
        && u.reserved == Max(Allocation(bytes, segmentBytes, maxPayloadBytes), old(u.reserved))
        && live == old(live)[u := u.reserved]
      ensures !ok ==>
        && live == old(live) && u.reserved <= inFlightAllocatedBytes
        && inFlightAllocatedBytes - u.reserved == old(inFlightAllocatedBytes - u.reserved)
      ensures StoreKept() && OthersKept(u, old(live), old(owner)) && OwnersKept(u)
      ensures fresh(u.repr - old(u.repr))
      ensures u.receivedBytes == old(u.receivedBytes) && u.received == old(u.received)
      ensures ok && old(Valid()) ==> Valid()
    {
      ok := Charge(u, bytes, memory);
      if ok {
        GrownIsValid(u);
      }
    }

    /** Room for `bytes` bytes of `u`, or the end of `u`. */
    method Reserve(u: Upload, bytes: nat, memory: nat) returns (ok: bool)
      requires Running(u) && bytes <= maxPayloadBytes
      modifies this`inFlightAllocatedBytes, this`owner, this`storedAllocatedBytes, this`activeUploads, this`live
      modifies u`segments, u`writeSegment, u`writeOffset, u`receivedBytes, u`reserved, u`repr, u`pages, u`received
      modifies u`terminal, u`released
      ensures ok == (old(Refusal(u, bytes, memory)) == Fine)
      ensures ok ==>
        && Running(u) && bytes <= u.reserved
        && u.reserved == Max(Allocation(bytes, segmentBytes, maxPayloadBytes), old(u.reserved))
        && live == old(live)[u := u.reserved]
      ensures !ok ==> live == old(live) - {u} && u.terminal && u.released
      ensures fresh(u.repr - old(u.repr))
      ensures u.receivedBytes == old(u.receivedBytes) && u.received == old(u.received)
      ensures storedAllocatedBytes == old(storedAllocatedBytes)
      ensures old(Valid()) ==> Valid()
    {
      ok := Grow(u, bytes, memory);
      if !ok {
        Discard(u);
        DiscardedIsValid(u);
      }
    }

    /** The chunk is written behind what `u` has received. */
    method Write(u: Upload, chunk: seq<byte>)
      requires Running(u) && u.receivedBytes + |chunk| <= u.reserved
      modifies u`segments, u`writeSegment, u`writeOffset, u`receivedBytes, u`reserved, u`repr, u`pages, u`received, u.repr
      ensures Running(u) && u.received == old(u.received) + chunk && u.receivedBytes == old(u.receivedBytes) + |chunk|
      ensures old(Valid()) ==> Valid()
    {
      u.Append(segmentBytes, maxPayloadBytes, chunk);
      GrownIsValid(u);
    }

    /** A chunk for an upload in progress. */
    method Receive(u: Upload, chunk: seq<byte>, memory: nat) returns (answer: Answer)
      requires Running(u)
      modifies this`inFlightAllocatedBytes, this`owner, this`storedAllocatedBytes, this`activeUploads, this`live
      modifies u, u.repr
      ensures answer == old(Refusal(u, u.receivedBytes + |chunk|, memory))
      ensures answer == Fine ==>
        && !u.terminal && u.received == old(u.received) + chunk
        && u.receivedBytes == old(u.receivedBytes) + |chunk|
        && u.reserved == Max(Allocation(old(u.receivedBytes) + |chunk|, segmentBytes, maxPayloadBytes), old(u.reserved))
        && live == old(live)[u := u.reserved]
      ensures answer != Fine ==> u.terminal && u.released && live == old(live) - {u}
      ensures storedAllocatedBytes == old(storedAllocatedBytes)
      ensures old(Valid()) ==> Valid()
    {
      var next := u.receivedBytes + |chunk|;
      if next > maxPayloadBytes {
        Discard(u);
        return TooLarge;
      }
      var ok := Reserve(u, next, memory);
      if !ok {
        return NoSpace;
      }
      Write(u, chunk);
      answer := Fine;
    }

    /** A chunk arrives: it is appended whole, or the upload ends and leaves nothing behind. */
    method Data(u: Upload, chunk: seq<byte>, memory: nat) returns (answer: Answer)
      requires Valid() && Knows(u)
      modifies this`inFlightAllocatedBytes, this`owner, this`storedAllocatedBytes, this`activeUploads, this`live
      modifies u, u.repr
      ensures old(u.terminal) ==> answer == Fine && unchanged(this) && unchanged(u)
      ensures !old(u.terminal) ==> answer == old(Refusal(u, u.receivedBytes + |chunk|, memory))
      ensures !old(u.terminal) && answer == Fine ==>
        && !u.terminal && u.received == old(u.received) + chunk
        && u.receivedBytes == old(u.receivedBytes) + |chunk|
        && u.reserved == Max(Allocation(old(u.receivedBytes) + |chunk|, segmentBytes, maxPayloadBytes), old(u.reserved))
        && live == old(live)[u := u.reserved]
      ensures answer != Fine ==> u.terminal && u.released && live == old(live) - {u}
      ensures storedAllocatedBytes == old(storedAllocatedBytes)
      ensures Valid()
    {
      if u.terminal {
        return Fine;
      }
      assert Running(u) by { LiveIsRunning(u); }
      answer := Receive(u, chunk, memory);
    }

    /** A new upload is counted. */
    method Open() returns (u: Upload)
      requires |payloads| + activeUploads < maxPayloads && segmentBytes >= 1
      requires storedAllocatedBytes + inFlightAllocatedBytes <= maxRelayBytes
      modifies this`activeUploads, this`live
      ensures fresh(u) && fresh(u.repr) && Running(u) && live == old(live)[u := 0]
      ensures u.received == [] && u.receivedBytes == 0 && u.reserved == 0 && u.segments == []
      ensures old(Valid()) ==> Valid()
    {
      u := new Upload();
      activeUploads := activeUploads + 1;
      live := live[u := 0];
      GrownIsValid(u);
    }

    /** Whether an upload may begin that announces `declared` bytes. */
    ghost function Admission(declared: nat, memory: nat): Answer
      reads this
      requires segmentBytes >= 1
    {
      if declared > maxPayloadBytes then TooLarge
      else if |payloads| + activeUploads >= maxPayloads then NoSlot
      else if storedAllocatedBytes + inFlightAllocatedBytes + Allocation(declared, segmentBytes, maxPayloadBytes)
              > maxRelayBytes || PagesFor(declared, segmentBytes) > memory then NoSpace
      else Fine
    }

    ghost predicate WithinLimits()
      reads this
    {
      && segmentBytes >= 1 && |payloads| + activeUploads <= maxPayloads
      && storedAllocatedBytes + inFlightAllocatedBytes <= maxRelayBytes
    }

    /** An upload that announces `declared` bytes. */
    method Admit(declared: nat, memory: nat) returns (answer: Answer, upload: Option<Upload>)
      requires WithinLimits()
      modifies this`inFlightAllocatedBytes, this`owner, this`storedAllocatedBytes, this`activeUploads, this`live
      ensures answer == old(Admission(declared, memory))
      ensures answer == Fine ==>
        && upload.Some? && fresh(upload.value) && live == old(live)[upload.value := upload.value.reserved]
        && upload.value.received == [] && !upload.value.terminal
      ensures answer != Fine ==> upload == None && live == old(live)
      ensures storedAllocatedBytes == old(storedAllocatedBytes)
      ensures old(Valid()) ==> Valid()
    {
      if declared > maxPayloadBytes {
        return TooLarge, None;
      }
      if |payloads| + activeUploads >= maxPayloads {
        return NoSlot, None;
      }
      var u := Open();
      var ok := Reserve(u, declared, memory);
      if !ok {
        assert live == old(live);
        return NoSpace, None;
      }
      answer, upload := Fine, Some(u);
    }

    /** An upload request arrives. One that is refused leaves no trace. */
    method Begin(length: ContentLength, memory: nat) returns (answer: Answer, upload: Option<Upload>)
      requires Valid()
      modifies this`inFlightAllocatedBytes, this`owner, this`storedAllocatedBytes, this`activeUploads, this`live
      ensures length == Unreadable ==> answer == Malformed
      ensures length != Unreadable ==>
        answer == old(Admission(if length == Absent then 0 else length.bytes, memory))
      ensures answer == Fine ==>
        && upload.Some? && fresh(upload.value) && live == old(live)[upload.value := upload.value.reserved]
        && upload.value.received == [] && !upload.value.terminal
      ensures answer != Fine ==> upload == None && live == old(live)
      ensures storedAllocatedBytes == old(storedAllocatedBytes)
      ensures Valid()
    {
      if length == Unreadable {
        return Malformed, None;
      }
      answer, upload := Admit(if length == Absent then 0 else length.bytes, memory);
    }

    // ----- the end of an upload ---------------------------------------------------------------------

    /** `u` has become the payload `id`, with its pages as they are. */
    twostate predicate Stored(u: Upload, id: PayloadId)
      reads this, u
    {
      && id !in old(payloads)
      && payloads == old(payloads)[id := Payload(u.reserved, u.receivedBytes, u.segments)]
      && origin == old(origin)[id := u] && images == old(images)[id := u.pages]
      && contents == old(contents)[id := u.received]
      && owner == old(owner) && live == old(live) - {u} && activeUploads == old(activeUploads) - 1
      && unchanged(u`segments, u`pages, u`received, u`receivedBytes, u`reserved, u`repr)
    }

    twostate lemma BooksStored(new u: Upload, id: PayloadId)
      requires old(Books()) && u in old(live) && Stored(u, id) && old(live)[u] == u.reserved
      requires inFlightAllocatedBytes == old(inFlightAllocatedBytes) - u.reserved
      requires storedAllocatedBytes == old(storedAllocatedBytes) + u.reserved
      ensures Books()
    {
      SumWithout(old(live), u);
      assert live.Keys == old(live).Keys - {u};
      SumUpdate(old(Allocations()), id, u.reserved);
      assert Allocations() == old(Allocations())[id := u.reserved];
      assert old(Allocations()) - {id} == old(Allocations());
      assert payloads.Keys == old(payloads).Keys + {id};
    }

    twostate lemma OwnershipStored(new u: Upload, id: PayloadId)
      requires old(Ownership()) && u in old(live) && Stored(u, id) && OthersKept(u, old(live), old(owner))
      requires forall i :: 0 <= i < |u.segments| ==> u.segments[i] in u.repr
      ensures Ownership()
    {
      assert forall v :: v in live ==> v.repr == old(v.repr);
    }

    twostate lemma PayloadsStored(new u: Upload, id: PayloadId)
      requires old(PayloadsOk()) && u in old(live) && Stored(u, id) && old(u.Ok(segmentBytes, maxPayloadBytes))
      ensures PayloadsOk()
    {
    }

    twostate lemma PagesStored(new u: Upload, id: PayloadId)
      requires old(Ownership()) && old(PayloadsOk()) && old(PagesOk()) && u in old(live) && Stored(u, id)
      requires OthersKept(u, old(live), old(owner)) && Mirrors(u.segments, u.pages)
      requires Ownership() && PayloadsOk()
      ensures PagesOk()
    {
      PagesStay(u);
    }

    /** The upload is complete: its pages and what it has reserved pass to the payload. */
    twostate lemma StoredIsValid(new u: Upload, id: PayloadId)
      requires u in old(live) && Stored(u, id) && OthersKept(u, old(live), old(owner))
      requires old(u.Ok(segmentBytes, maxPayloadBytes)) && u.reserved == old(live)[u]
      requires Mirrors(u.segments, u.pages)
      requires inFlightAllocatedBytes == old(inFlightAllocatedBytes) - u.reserved
      requires storedAllocatedBytes == old(storedAllocatedBytes) + u.reserved
      ensures old(Valid()) ==> Valid()
    {
      if old(Valid()) {
        BooksStored(u, id);
        OwnershipStored(u, id);
        PayloadsStored(u, id);
        UploadsStay(u);
        PagesStored(u, id);
      }
    }

    /** The first of the drawn ids that no payload has. */
    method Draw(ids: seq<PayloadId>) returns (id: PayloadId)
      requires exists i: nat :: i < |ids| && ids[i] !in payloads
      ensures id in ids && id !in payloads
    {
      var i := 0;
      while ids[i] in payloads
        invariant i < |ids| && exists j: nat :: i <= j < |ids| && ids[j] !in payloads
        decreases |ids| - i
      {
        i := i + 1;
      }
      id := ids[i];
    }

    /** The payload is entered and the upload's reservation passes to it. */
    method Commit(u: Upload, id: PayloadId)
      requires u in live && id !in payloads && !u.released
      requires u.reserved <= inFlightAllocatedBytes && activeUploads > 0
      modifies this`payloads, this`storedAllocatedBytes, this`inFlightAllocatedBytes, this`activeUploads, this`live
      modifies this`origin, this`images, this`contents, u`terminal, u`released, u`segments
      ensures Stored(u, id) && OthersKept(u, old(live), old(owner)) && u.terminal && u.released
      ensures storedAllocatedBytes == old(storedAllocatedBytes) + u.reserved
      ensures inFlightAllocatedBytes == old(inFlightAllocatedBytes) - u.reserved
    {
      payloads := payloads[id := Payload(u.reserved, u.receivedBytes, u.segments)];
      u.terminal := true;
      Release(u, true);
      origin, images, contents := origin[id := u], images[id := u.pages], contents[id := u.received];
    }

    method Store(u: Upload, id: PayloadId)
      requires Running(u) && id !in payloads
      modifies this`payloads, this`storedAllocatedBytes, this`inFlightAllocatedBytes, this`activeUploads, this`live
      modifies this`origin, this`images, this`contents, u`terminal, u`released, u`segments
      ensures Stored(u, id) && u.terminal && u.released
      ensures storedAllocatedBytes == old(storedAllocatedBytes) + u.reserved
      ensures inFlightAllocatedBytes == old(inFlightAllocatedBytes) - u.reserved
      ensures old(Valid()) ==> Valid()
    {
      Commit(u, id);
      assert old(Valid()) ==> Valid() by {
        StoredIsValid(u, id);
      }
    }

    /** The request body is complete: what was received becomes a payload under a new id. */
    method End(u: Upload, ids: seq<PayloadId>) returns (id: Option<PayloadId>)
      requires Valid() && Knows(u)
      requires exists i: nat :: i < |ids| && ids[i] !in payloads
      modifies this`payloads, this`storedAllocatedBytes, this`inFlightAllocatedBytes, this`activeUploads, this`live
      modifies this`origin, this`images, this`contents, u`terminal, u`released, u`segments
      ensures old(u.terminal) ==> id == None && unchanged(this) && unchanged(u)
      ensures !old(u.terminal) ==>
        && id.Some? && id.value in ids && Stored(u, id.value) && u.terminal && u.released
        && storedAllocatedBytes == old(storedAllocatedBytes) + u.reserved
        && inFlightAllocatedBytes == old(inFlightAllocatedBytes) - u.reserved
      ensures Valid()
    {
      if u.terminal {
        return None;
      }
      var drawn := Draw(ids);
      assert Valid() && u in live;
      assert Running(u) by {
        LiveIsRunning(u);
      }
      Store(u, drawn);
      id := Some(drawn);
    }

    /** No payload and no upload in progress takes more than MAX_SEGMENTS pages. */
    lemma PagesAreFew()
      requires Valid()
      ensures forall p :: p in payloads ==> |payloads[p].segments| <= MAX_SEGMENTS
      ensures forall u :: u in live ==> |u.segments| <= MAX_SEGMENTS
    {
      forall p | p in payloads ensures |payloads[p].segments| <= MAX_SEGMENTS {
        AtMostMaxSegments(images[p], maxPayloadBytes);
      }
      forall u | u in live ensures |u.segments| <= MAX_SEGMENTS {
        AtMostMaxSegments(u.pages, maxPayloadBytes);
      }
    }

    // ----- download -----------------------------------------------------------------------------------

    /** The body sent for a payload id, page by page; None for an unknown id. */
    method Download(id: PayloadId) returns (body: Option<seq<byte>>)
      requires Valid()
      ensures body == if id in contents then Some(contents[id]) else None
    {
      if id !in payloads {
        return None;
      }
      var payload := payloads[id];
      assert StandsFor(payload, images[id], contents[id], segmentBytes, maxPayloadBytes);
      var sent := Send(payload, images[id], contents[id]);
      body := Some(sent);
    }
  }

  /** The bytes of a payload, page by page, the last page cut off behind its last byte. */
  method Send(payload: Payload, ghost pages: seq<seq<byte>>, ghost content: seq<byte>) returns (sent: seq<byte>)
    requires Mirrors(payload.segments, pages) && payload.byteLength == |content| && content <= Flat(pages)
    ensures sent == content
  {
    if payload.byteLength == 0 {
      return [];
    }
    var remaining, i := payload.byteLength, 0;
    sent := [];
    while i < |payload.segments|
      invariant i <= |pages| && remaining > 0 && |sent| + remaining == payload.byteLength
      invariant sent == Flat(pages[..i])
      invariant i == |pages| ==> sent == Flat(pages)
    {
      var segment := payload.segments[i];
      assert segment[..] == pages[i];
      var bytes := Min(remaining, segment.Length);
      Sending(pages, i, sent, bytes, content);
      remaining := remaining - bytes;
      sent := sent + segment[..bytes];
      if remaining == 0 {
        return;
      }
      i := i + 1;
      assert pages[..|pages|] == pages;
    }
  }

  /** Sending more of a page, up to the page's end or the payload's. */
  lemma Sending(pages: seq<seq<byte>>, i: nat, sent: seq<byte>, bytes: nat, content: seq<byte>)
    requires i < |pages| && sent == Flat(pages[..i]) && content <= Flat(pages)
    requires |sent| < |content| && bytes == Min(|content| - |sent|, |pages[i]|)
    ensures sent + pages[i][..bytes] <= content
    ensures bytes == |pages[i]| ==> sent + pages[i][..bytes] == Flat(pages[..i + 1])
  {
    FlatAround(pages, i);
    assert pages[..i + 1] == pages[..i] + [pages[i]];
    FlatAppend(pages[..i], pages[i]);
    assert Flat(pages)[..|sent| + bytes] == sent + pages[i][..bytes];
    assert content[..|sent| + bytes] == Flat(pages)[..|sent| + bytes];
  }

  /** `payload` and its pages stand for the bytes of one upload. */
  ghost predicate StandsFor(payload: Payload, pages: seq<seq<byte>>, bytes: seq<byte>, size: nat, limit: nat) {
    && |pages| == |payload.segments| && Shaped(pages, size, limit)
    && payload.byteLength == |bytes| && bytes <= Flat(pages)
    && payload.allocatedBytes == Capacity(|pages|, size, limit)
  }

  /** No page but those of `u` has been written, and no upload but `u` has been changed. */
  twostate predicate OthersKept(new u: Upload, uploads: map<Upload, nat>, owners: map<array<byte>, Upload>)
    reads uploads.Keys, owners.Keys
  {
    && (forall v :: v in uploads && v != u ==> unchanged(v))
    && (forall page :: page in owners && owners[page] != u ==> unchanged(page))
  }
}
