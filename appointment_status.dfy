/** `AppointmentStatus` of types/appointment.ts and its string form in the database. */
module AppointmentStatus {
  import opened Common

  datatype Status = Pending | Confirmed | InHall | InProgress | Completed | Cancelled | NoShow

  /** The status as stored and compared in the source ('pending', 'in_hall', ...). */
  function Name(s: Status): string {
    match s
    case Pending => "pending"
    case Confirmed => "confirmed"
    case InHall => "in_hall"
    case InProgress => "in_progress"
    case Completed => "completed"
    case Cancelled => "cancelled"
    case NoShow => "no_show"
  }

  /** Reads a stored status string; any other text is not a status. */
  function FromName(raw: string): (r: Option<Status>)
    ensures r.Some? ==> Name(r.value) == raw
  {
    if raw == "pending" then Some(Pending)
    else if raw == "confirmed" then Some(Confirmed)
    else if raw == "in_hall" then Some(InHall)
    else if raw == "in_progress" then Some(InProgress)
    else if raw == "completed" then Some(Completed)
    else if raw == "cancelled" then Some(Cancelled)
    else if raw == "no_show" then Some(NoShow)
    else None
  }

  /** Every status reads back from its own name, so names are distinct. */
  lemma NameRoundTrip(s: Status)
    ensures FromName(Name(s)) == Some(s)
  {
  }

  /** The statuses that hold a slot: a pending or confirmed booking blocks it. */
  predicate HoldsSlot(s: Status) {
    s == Pending || s == Confirmed
  }
}
