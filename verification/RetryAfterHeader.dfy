/**
 Retry-After from end to end: the limiter's seconds, printed into the header, read back
 by the buyer's strict parser, and stored as a cooldown.
 */
module RetryAfterHeader {
  import opened Wrappers
  import opened Decimals
  import W = WalletWindow

  const MAX_COOLDOWN: int := 3_600_000

  /** One to four digits that do not start with a zero. */
  predicate Accepted(header: string) {
    1 <= |header| <= 4 && '1' <= header[0] <= '9' && forall c :: c in header ==> IsDigit(c)
  }

  /** The buyer's reading of the header, in milliseconds. */
  function StrictMilliseconds(header: string): Option<int> {
    if !Accepted(header) then None
    else if Value(header) > 3600 then None
    else Some(Value(header) * 1000)
  }

  /** The cooldown a refused buyer stores. */
  function Cooldown(header: string): int {
    var parsed := StrictMilliseconds(header);
    if parsed.Some? then parsed.value else MAX_COOLDOWN
  }

  lemma DecimalIsAccepted(n: nat)
    requires n >= 1
    ensures Accepted(Decimal(n)) <==> n < 10_000
  {
    DecimalReads(n);
    if n >= 10 {
      DecimalLength(n / 10);
    }
  }

  lemma DecimalLength(n: nat)
    ensures |Decimal(n)| <= 3 <==> n < 1000
  {
    if n >= 10 {
      assert |Decimal(n)| == |Decimal(n / 10)| + 1;
      if n >= 100 {
        assert |Decimal(n / 10)| == |Decimal(n / 10 / 10)| + 1;
        if n >= 1000 {
          assert |Decimal(n / 10 / 10)| == |Decimal(n / 10 / 10 / 10)| + 1;
        }
      }
    }
  }

  /** The strict parser reads back exactly the numbers from 1 to 3600. */
  lemma HeaderRoundTrip(seconds: nat)
    requires seconds >= 1
    ensures StrictMilliseconds(Decimal(seconds)) == if seconds <= 3600 then Some(1000 * seconds) else None
  {
    DecimalIsAccepted(seconds);
    DecimalReads(seconds);
  }

  /**
   For a full record whose oldest reservation is not in the refusing replica's future, the
   stored cooldown is exactly the limiter's Retry-After: waiting it out frees a slot if
   nobody else writes, and waiting any whole number of seconds less does not.
   */
  lemma CooldownIsExact(entries: seq<W.Entry>, now: int, seconds: nat)
    requires |entries| == W.CAPACITY && W.Oldest(entries) <= now
    requires forall e :: e in entries ==> W.IsActive(e.at, now)
    ensures
      var cooldown := Cooldown(Decimal(W.RetryAfter(entries, now)));
      && cooldown == 1000 * W.RetryAfter(entries, now)
      && |W.Active(entries, now + cooldown)| < W.CAPACITY
      && (1000 * seconds < cooldown ==> |W.Active(entries, now + 1000 * seconds)| == W.CAPACITY)
  {
    var r := W.RetryAfter(entries, now);
    W.RetryAfterRange(entries, now);
    HeaderRoundTrip(r);
    W.RetryAfterIsExact(entries, now, r);
    W.RetryAfterIsExact(entries, now, seconds);
  }

  /** Otherwise the parser refuses the header and the buyer waits the whole hour, too short a time. */
  lemma FutureReservationOutlastsCooldown(entries: seq<W.Entry>, now: int)
    requires |entries| == W.CAPACITY && W.Oldest(entries) > now
    requires forall e :: e in entries ==> W.IsActive(e.at, now)
    ensures Cooldown(Decimal(W.RetryAfter(entries, now))) == MAX_COOLDOWN
    ensures |W.Active(entries, now + MAX_COOLDOWN)| == W.CAPACITY
  {
    W.RetryAfterRange(entries, now);
    HeaderRoundTrip(W.RetryAfter(entries, now));
    W.ActiveAll(entries, now + MAX_COOLDOWN);
  }
}
