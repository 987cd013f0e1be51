/** Values shared by every part of the parking-slot widget: reservation
    records, sensor readings, display states and the fixed constants. */
module Domain {

  datatype Option<T> = None | Some(value: T)

  /** Reservations expire after 30 minutes, measured in milliseconds. */
  const ReservationDuration: int := 30 * 60 * 1000

  /** The sensor token that marks a slot as physically taken. */
  const Filled: string := "FILLED"

  /** The ids the widget gives to the four slots it shows, in order. */
  const SlotIds: seq<string> := ["Slot 1", "Slot 2", "Slot 3", "Slot 4"]

  /** A reservation held in the store: who, for when, and the clock value
      (milliseconds) at which it was made. */
  datatype Booking = Booking(name: string, time: string, reservedAt: int)

  /** One slot as read from the snapshot. A status of None stands for a
      field that the row did not have (JavaScript's `undefined`). */
  datatype Reading = Reading(id: string, status: Option<string>)

  datatype FinalState = Available | Occupied | Reserved

  /** One card of the display: the reading plus its reconciled state. */
  datatype Slot = Slot(id: string, status: Option<string>, finalState: FinalState)

  function ReadingOf(s: Slot): (r: Reading)
  {
    Reading(s.id, s.status)
  }
}
