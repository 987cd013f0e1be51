/** The state reconciler of `loadSlotData` and the local rewrites that the
    booking commands apply to the displayed list. */
module Reconciler {
  import opened Domain
  import opened Reservations

  /** The priority rule: a key in the store wins, then the "FILLED" sensor
      token, then the slot is available. */
  function StateFor(r: Reading, booked: map<string, Booking>): (st: FinalState)
    ensures st == Reserved <==> r.id in booked
    ensures st == Occupied <==> r.id !in booked && r.status == Some(Filled)
    ensures st == Available <==> r.id !in booked && r.status != Some(Filled)
  {
    if r.id in booked then Reserved
    else if r.status == Some(Filled) then Occupied
    else Available
  }

  /** `incoming.map(...)`: one card per reading, same order, same id and
      status, with the state the priority rule gives. */
  function Reconcile(incoming: seq<Reading>, booked: map<string, Booking>): (slots: seq<Slot>)
    ensures |slots| == |incoming|
    ensures forall i :: 0 <= i < |slots| ==> ReadingOf(slots[i]) == incoming[i]
    ensures Consistent(slots, booked)
  {
    seq(|incoming|, i requires 0 <= i < |incoming| =>
      Slot(incoming[i].id, incoming[i].status, StateFor(incoming[i], booked)))
  }

  /** Every card shows the state the priority rule gives for its reading. */
  ghost predicate Consistent(slots: seq<Slot>, booked: map<string, Booking>)
  {
    forall i :: 0 <= i < |slots| ==> slots[i].finalState == StateFor(ReadingOf(slots[i]), booked)
  }

  /** No card with id `id` has the "FILLED" status. */
  ghost predicate NotFilled(slots: seq<Slot>, id: string)
  {
    forall i :: 0 <= i < |slots| && slots[i].id == id ==> slots[i].status != Some(Filled)
  }

  /** `allSlots.map(slot => slot.id === id ? {...slot, finalState: st} : slot)`:
      the cards with id `id` take state `st`, every other card, the order
      and the length are kept. */
  function MarkSlot(slots: seq<Slot>, id: string, st: FinalState): (r: seq<Slot>)
    ensures |r| == |slots|
    ensures forall i :: 0 <= i < |r| ==> ReadingOf(r[i]) == ReadingOf(slots[i])
    ensures forall i :: 0 <= i < |r| && slots[i].id != id ==> r[i] == slots[i]
    ensures forall i :: 0 <= i < |r| && slots[i].id == id ==> r[i].finalState == st
  {
    seq(|slots|, i requires 0 <= i < |slots| =>
      if slots[i].id == id then slots[i].(finalState := st) else slots[i])
  }

  /** A list is consistent with a store exactly when it is what reconciling
      its own readings against that store gives. */
  lemma ConsistentIffReconciled(slots: seq<Slot>, booked: map<string, Booking>)
    ensures Consistent(slots, booked) <==>
      slots == Reconcile(seq(|slots|, i requires 0 <= i < |slots| => ReadingOf(slots[i])), booked)
  {
  }

  /** A live reservation always shows `reserved`, whatever the sensor says. */
  lemma ReservationWins(incoming: seq<Reading>, booked: map<string, Booking>, i: nat)
    requires i < |incoming| && incoming[i].id in booked
    ensures Reconcile(incoming, booked)[i].finalState == Reserved
  {
  }

  /** Loading purges at `now` and then reconciles: a card shows `reserved`
      exactly when its slot has a record that is live at `now`. */
  lemma LoadShowsOnlyLive(incoming: seq<Reading>, m: map<string, Booking>, now: int, i: nat)
    requires i < |incoming|
    ensures var id := incoming[i].id;
      Reconcile(incoming, Purge(m, now))[i].finalState == Reserved <==>
      id in m && now - m[id].reservedAt <= ReservationDuration
  {
  }

  /** An expired record never shadows the sensor: after the purge the card
      shows `occupied` for "FILLED" and `available` otherwise. */
  lemma ExpiredDoesNotShadow(incoming: seq<Reading>, m: map<string, Booking>, now: int, i: nat)
    requires i < |incoming|
    requires incoming[i].id in m && Expired(m[incoming[i].id], now)
    ensures Reconcile(incoming, Purge(m, now))[i].finalState ==
      if incoming[i].status == Some(Filled) then Occupied else Available
  {
  }

  /** A reading without a status (a short data row) never shows `occupied`. */
  lemma MissingStatusNotOccupied(incoming: seq<Reading>, booked: map<string, Booking>, i: nat)
    requires i < |incoming| && incoming[i].status == None
    ensures Reconcile(incoming, booked)[i].finalState != Occupied
  {
  }

  /** A booking's local rewrite agrees with reconciling against the new
      store: marking the booked id `reserved` keeps the list consistent. */
  lemma MarkReservedKeepsConsistent(slots: seq<Slot>, booked: map<string, Booking>, id: string, b: Booking)
    requires Consistent(slots, booked)
    ensures Consistent(MarkSlot(slots, id, Reserved), booked[id := b])
  {
  }

  /** Releasing agrees with reconciling against the smaller store when no
      card with that id has the "FILLED" status. */
  lemma MarkAvailableKeepsConsistent(slots: seq<Slot>, booked: map<string, Booking>, id: string)
    requires Consistent(slots, booked)
    requires NotFilled(slots, id)
    ensures Consistent(MarkSlot(slots, id, Available), booked - {id})
  {
  }

  /** ... but when the sensor reads "FILLED", releasing shows `available`
      while reconciling would show `occupied`, until the next load. */
  lemma MarkAvailableHidesFilled(slots: seq<Slot>, booked: map<string, Booking>, i: nat)
    requires i < |slots| && slots[i].status == Some(Filled)
    ensures MarkSlot(slots, slots[i].id, Available)[i].finalState == Available
    ensures StateFor(ReadingOf(slots[i]), booked - {slots[i].id}) == Occupied
    ensures !Consistent(MarkSlot(slots, slots[i].id, Available), booked - {slots[i].id})
  {
  }

  /** Worked cases: "FILLED" without a record shows `occupied`; an empty
      slot with a record 29 minutes old shows `reserved`; one whose record is
      31 minutes old shows `available` once purged. */
  lemma Examples(s: string, b: Booking, now: int)
    requires s != Filled && now - b.reservedAt == 29 * 60 * 1000
    ensures Reconcile([Reading("Slot 1", Some(Filled))], map[])[0].finalState == Occupied
    ensures Reconcile([Reading("Slot 1", Some(s))], Purge(map["Slot 1" := b], now))[0].finalState == Reserved
    ensures Reconcile([Reading("Slot 1", Some(s))], Purge(map["Slot 1" := b], now + 2 * 60 * 1000))[0].finalState
      == Available
  {
  }
}
