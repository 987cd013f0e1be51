/** What each card of `displaySlots` shows: a status label and at most one
    button, chosen from the card's reconciled state. */
module Display {
  import opened Domain
  import opened Reconciler

  /** The command a card's button runs on its slot id. */
  datatype Action = Reserve | Unreserve

  /** "Occupied" for occupied, "Reserved" for reserved, "Available" otherwise. */
  function Label(st: FinalState): (s: string)
    ensures s == "Occupied" <==> st == Occupied
    ensures s == "Reserved" <==> st == Reserved
    ensures s == "Available" <==> st == Available
  {
    match st
    case Occupied => "Occupied"
    case Reserved => "Reserved"
    case Available => "Available"
  }

  /** A Reserve button on an available card, an Unreserve button on a
      reserved one, none on an occupied one. */
  function Button(st: FinalState): (b: Option<Action>)
    ensures b == Some(Reserve) <==> st == Available
    ensures b == Some(Unreserve) <==> st == Reserved
    ensures b == None <==> st == Occupied
  {
    match st
    case Available => Some(Reserve)
    case Reserved => Some(Unreserve)
    case Occupied => None
  }

  /** The button always agrees with the label the card shows. */
  lemma ButtonMatchesLabel(st: FinalState)
    ensures Button(st) == Some(Reserve) <==> Label(st) == "Available"
    ensures Button(st) == Some(Unreserve) <==> Label(st) == "Reserved"
    ensures Button(st) == None <==> Label(st) == "Occupied"
  {
  }

  /** On a consistent list a card offers Unreserve exactly when its slot has
      a record in the store, and Reserve exactly when it has none and the
      sensor does not read "FILLED". */
  lemma OfferedActions(slots: seq<Slot>, booked: map<string, Booking>, i: nat)
    requires Consistent(slots, booked) && i < |slots|
    ensures Button(slots[i].finalState) == Some(Unreserve) <==> slots[i].id in booked
    ensures Button(slots[i].finalState) == Some(Reserve) <==>
      slots[i].id !in booked && slots[i].status != Some(Filled)
  {
  }
}
