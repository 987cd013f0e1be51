/** The widget's module-level state and the commands that change it:
    purging expired bookings, loading a snapshot, selecting a slot,
    submitting a booking and releasing one. The clock, the fetched text and
    the user's confirmation are parameters; the browser's key-value storage
    is the field `stored`, the copy last written. */
module App {
  import opened Domain
  import opened SlotData
  import opened Reservations
  import opened Reconciler

  class ParkingApp {
    /** The cards last loaded, as shown. */
    var allSlots: seq<Slot>
    /** The slot whose Reserve button was pressed last; None is `null`. */
    var selectedSlotId: Option<string>
    var currentPlace: string
    /** The reservation store: at most one record per slot id. */
    var bookedSlots: map<string, Booking>
    /** The store as last written to the browser's storage. */
    var stored: map<string, Booking>

    /** The storage holds the in-memory store. */
    ghost predicate Persisted()
      reads this
    {
      stored == bookedSlots
    }

    /** The cards show what the priority rule gives against the store. */
    ghost predicate Shown()
      reads this
    {
      Consistent(allSlots, bookedSlots)
    }

    /** Start-up: the store is read back from storage; nothing is shown yet. */
    constructor (saved: map<string, Booking>)
      ensures bookedSlots == saved && stored == saved
      ensures allSlots == [] && selectedSlotId == None && currentPlace == ""
      ensures Persisted() && Shown()
    {
      allSlots := [];
      selectedSlotId := None;
      currentPlace := "";
      bookedSlots := saved;
      stored := saved;
    }

    /** Removes every record older than the reservation duration at `now`,
        reports whether any was removed, and writes the store to storage
        only then. */
    method CleanExpiredBookings(now: int) returns (changed: bool)
      modifies this
      ensures bookedSlots == Purge(old(bookedSlots), now)
      ensures changed <==> bookedSlots != old(bookedSlots)
      ensures stored == if changed then bookedSlots else old(stored)
      ensures allSlots == old(allSlots) && selectedSlotId == old(selectedSlotId)
      ensures currentPlace == old(currentPlace)
      ensures old(Persisted()) ==> Persisted()
    {
      ghost var m0 := bookedSlots;
      var keys := bookedSlots.Keys;
      changed := false;
      while keys != {}
        invariant keys <= m0.Keys
        invariant forall id :: id in bookedSlots <==> id in m0 && (id in keys || !Expired(m0[id], now))
        invariant forall id :: id in bookedSlots ==> bookedSlots[id] == m0[id]
        invariant changed <==> exists id :: id in m0 && id !in keys && Expired(m0[id], now)
        invariant allSlots == old(allSlots) && selectedSlotId == old(selectedSlotId)
        invariant currentPlace == old(currentPlace) && stored == old(stored)
        decreases keys
      {
        var id :| id in keys;
        if Expired(bookedSlots[id], now) {
          bookedSlots := bookedSlots - {id};
          changed := true;
        }
        keys := keys - {id};
      }
      assert bookedSlots == Purge(m0, now);
      PurgeChangesIff(m0, now);
      if changed {
        stored := bookedSlots;
      }
    }

    /** One refresh: purge at `now`, then parse the fetched text. A text of
        fewer than two lines leaves the cards and the place as they were;
        otherwise the place is replaced and the cards are the reconciled
        readings. */
    method LoadSlotData(now: int, csv: string)
      modifies this
      ensures bookedSlots == Purge(old(bookedSlots), now)
      ensures stored == if bookedSlots != old(bookedSlots) then bookedSlots else old(stored)
      ensures selectedSlotId == old(selectedSlotId)
      ensures match ParseSnapshot(csv)
        case None => allSlots == old(allSlots) && currentPlace == old(currentPlace)
        case Some(snap) => currentPlace == snap.place && allSlots == Reconcile(snap.incoming, bookedSlots)
      ensures ParseSnapshot(csv).Some? ==> Shown() && |allSlots| == 4
      ensures old(Persisted()) ==> Persisted()
    {
      var _ := CleanExpiredBookings(now);
      match ParseSnapshot(csv) {
        case None =>
        case Some(snap) =>
          currentPlace := snap.place;
          allSlots := Reconcile(snap.incoming, bookedSlots);
      }
    }

    /** The Reserve button: remembers which slot the form is for. */
    method ReserveSlot(slotId: string)
      modifies this
      ensures selectedSlotId == Some(slotId)
      ensures allSlots == old(allSlots) && currentPlace == old(currentPlace)
      ensures bookedSlots == old(bookedSlots) && stored == old(stored)
    {
      selectedSlotId := Some(slotId);
    }

    /** The booking form. Refused, with nothing changed, when the name or the
        time is empty or no slot is selected; otherwise the selected slot's
        record is set (replacing any earlier one), the store is written, and
        that slot's cards, and only those, turn `reserved`. */
    method SubmitBooking(name: string, time: string, now: int) returns (confirmed: bool)
      modifies this
      ensures confirmed <==>
        name != "" && time != "" && old(selectedSlotId).Some? && old(selectedSlotId).value != ""
      ensures !confirmed ==>
        bookedSlots == old(bookedSlots) && stored == old(stored) && allSlots == old(allSlots)
      ensures confirmed ==>
        var id := old(selectedSlotId).value;
        && bookedSlots == old(bookedSlots)[id := Booking(name, time, now)]
        && stored == bookedSlots
        && allSlots == MarkSlot(old(allSlots), id, Reserved)
      ensures selectedSlotId == old(selectedSlotId) && currentPlace == old(currentPlace)
      ensures old(Shown()) ==> Shown()
      ensures confirmed || old(Persisted()) ==> Persisted()
    {
      if name == "" || time == "" || selectedSlotId.None? || selectedSlotId.value == "" {
        return false;
      }
      var id := selectedSlotId.value;
      ghost var slots0, booked0 := allSlots, bookedSlots;
      bookedSlots := bookedSlots[id := Booking(name, time, now)];
      stored := bookedSlots;
      allSlots := MarkSlot(allSlots, id, Reserved);
      if Consistent(slots0, booked0) {
        MarkReservedKeepsConsistent(slots0, booked0, id, Booking(name, time, now));
      }
      confirmed := true;
    }

    /** The Unreserve button. Declined: nothing changes. Confirmed: the
        record of `slotId` is removed, the store is written, and that slot's
        cards, and only those, turn `available`. */
    method UnreserveSlot(slotId: string, confirmed: bool)
      modifies this
      ensures !confirmed ==>
        bookedSlots == old(bookedSlots) && stored == old(stored) && allSlots == old(allSlots)
      ensures confirmed ==>
        && bookedSlots == old(bookedSlots) - {slotId}
        && stored == bookedSlots
        && allSlots == MarkSlot(old(allSlots), slotId, Available)
      ensures selectedSlotId == old(selectedSlotId) && currentPlace == old(currentPlace)
      ensures confirmed || old(Persisted()) ==> Persisted()
      ensures old(Shown()) && NotFilled(old(allSlots), slotId) ==> Shown()
    {
      if !confirmed {
        return;
      }
      ghost var slots0, booked0 := allSlots, bookedSlots;
      bookedSlots := bookedSlots - {slotId};
      stored := bookedSlots;
      allSlots := MarkSlot(allSlots, slotId, Available);
      if Consistent(slots0, booked0) && NotFilled(slots0, slotId) {
        MarkAvailableKeepsConsistent(slots0, booked0, slotId);
      }
    }
  }
}
