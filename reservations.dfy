/** The expiry rule of the reservation store: a record is dropped once its
    age, the clock minus its creation time, is strictly greater than the
    reservation duration. */
module Reservations {
  import opened Domain

  /** A record aged exactly the reservation duration is still live. */
  predicate Expired(b: Booking, now: int)
  {
    now - b.reservedAt > ReservationDuration
  }

  /** The store after every expired record is removed. */
  function Purge(m: map<string, Booking>, now: int): (r: map<string, Booking>)
    ensures forall id :: id in r <==> id in m && !Expired(m[id], now)
    ensures forall id :: id in r ==> r[id] == m[id]
  {
    map id | id in m && !Expired(m[id], now) :: m[id]
  }

  /** Every record left after a purge is live: its age is at most the
      reservation duration. */
  lemma PurgeLeavesLive(m: map<string, Booking>, now: int, id: string)
    requires id in Purge(m, now)
    ensures now - Purge(m, now)[id].reservedAt <= ReservationDuration
  {
  }

  /** A purge only removes: it adds no key and alters no surviving record. */
  lemma PurgeOnlyRemoves(m: map<string, Booking>, now: int)
    ensures Purge(m, now).Keys <= m.Keys
    ensures forall id :: id in Purge(m, now) ==> Purge(m, now)[id] == m[id]
  {
  }

  /** A purge changes the store exactly when some record has expired. */
  lemma PurgeChangesIff(m: map<string, Booking>, now: int)
    ensures Purge(m, now) != m <==> exists id :: id in m && Expired(m[id], now)
  {
  }

  /** A second purge at the same clock value changes nothing. */
  lemma PurgeIdempotent(m: map<string, Booking>, now: int)
    ensures Purge(Purge(m, now), now) == Purge(m, now)
  {
  }

  /** A later purge removes at least what an earlier one removes. */
  lemma PurgeMonotone(m: map<string, Booking>, earlier: int, later: int)
    requires earlier <= later
    ensures Purge(m, later).Keys <= Purge(m, earlier).Keys
  {
  }

  /** The boundary: a record made exactly 30 minutes ago survives, one made
      a millisecond earlier does not. */
  lemma PurgeBoundary(m: map<string, Booking>, now: int, id: string)
    requires id in m
    ensures m[id].reservedAt == now - 30 * 60 * 1000 ==> id in Purge(m, now)
    ensures m[id].reservedAt == now - 30 * 60 * 1000 - 1 ==> id !in Purge(m, now)
  {
  }
}
