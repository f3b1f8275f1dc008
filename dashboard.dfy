/**
 * The admin dashboard of app/admin/dashboard/page.tsx: the actions each booking status offers,
 * the optimistic status update of the booking list, the results modal that completes a booking,
 * the status badge, and which business's appointments are loaded.
 *
 * Statuses are kept as the raw strings the page compares (`booking.status === 'pending'`),
 * since the badge has to show whatever text the database holds.
 */
module Dashboard {
  import opened Common
  import opened AppointmentStatus

  /** A booking row; `customerName` stands for every field the page does not change. */
  datatype Booking = Booking(id: string, status: string, customerName: string)

  // ---------------------------------------------------------------------------------
  // Buttons and transitions.

  /** The buttons under a booking. */
  datatype Action =
    | Reject            // "Rechazar": to cancelled
    | Approve           // "Aprobar": to confirmed
    | ArrivedAtHall     // "Llegó al Hall": to in_hall
    | StartConsultation // "Pasar a Consulta": to in_progress
    | FinishCare        // "Finalizar Atención": opens the results modal
    | ViewHistory       // "Ver Historia": disabled

  /** The buttons shown for a status. */
  function Actions(status: string): seq<Action> {
    if status == "pending" then [Reject, Approve]
    else if status == "confirmed" then [ArrivedAtHall]
    else if status == "in_hall" then [StartConsultation]
    else if status == "in_progress" then [FinishCare]
    else if status == "completed" then [ViewHistory]
    else []
  }

  /** The status a button leads to: directly, or through the results modal for FinishCare. */
  function Target(a: Action): Option<Status> {
    match a
    case Reject => Some(Cancelled)
    case Approve => Some(Confirmed)
    case ArrivedAtHall => Some(InHall)
    case StartConsultation => Some(InProgress)
    case FinishCare => Some(Completed)
    case ViewHistory => None
  }

  /** The statuses a booking can be moved to from `status` on this page. */
  function Next(status: string): set<Status> {
    Targets(Actions(status))
  }

  /** The statuses some button of `actions` leads to. */
  function Targets(actions: seq<Action>): (r: set<Status>)
    ensures forall s :: s in r <==> exists i | 0 <= i < |actions| :: Target(actions[i]) == Some(s)
  {
    if actions == [] then {}
    else
      var first := if Target(actions[0]).Some? then {Target(actions[0]).value} else {};
      assert forall i | 1 <= i < |actions| :: actions[i] == actions[1..][i - 1];
      first + Targets(actions[1..])
  }

  /** The workflow: pending to cancelled or confirmed, then in_hall, in_progress, completed, and nothing after. */
  lemma Transitions()
    ensures Next("pending") == {Cancelled, Confirmed}
    ensures Next("confirmed") == {InHall}
    ensures Next("in_hall") == {InProgress}
    ensures Next("in_progress") == {Completed}
    ensures Next("completed") == {} && Next("cancelled") == {} && Next("no_show") == {}
  {
    PendingMoves();
    OneWayMoves();
    FinalStatuses();
  }

  lemma PendingMoves()
    ensures Next("pending") == {Cancelled, Confirmed}
  {
    assert Targets([Approve]) == {Confirmed};
  }

  lemma OneWayMoves()
    ensures Next("confirmed") == {InHall} && Next("in_hall") == {InProgress} && Next("in_progress") == {Completed}
  {
  }

  lemma FinalStatuses()
    ensures Next("completed") == {} && Next("cancelled") == {} && Next("no_show") == {}
  {
  }

  /** Every move goes one step forward along the workflow: no status is ever revisited. */
  lemma TransitionsMoveForward(status: Status, next: Status)
    requires next in Next(Name(status))
    ensures Rank(next) > Rank(status)
  {
    Transitions();
  }

  /** Position in the workflow; cancelled is terminal, like completed. */
  function Rank(s: Status): nat {
    match s
    case Pending => 0
    case Confirmed => 1
    case InHall => 2
    case InProgress => 3
    case Completed => 4
    case Cancelled => 4
    case NoShow => 4
  }

  // ---------------------------------------------------------------------------------
  // The badge.

  datatype Color = Orange | Blue | Yellow | Purple | Green | Red | Slate

  datatype Badge = Badge(color: Color, text: string)

  /** `getStatusBadge(status)` */
  function StatusBadge(status: string): Badge {
    if status == "pending" then Badge(Orange, "Pendiente")
    else if status == "confirmed" then Badge(Blue, "Confirmado")
    else if status == "in_hall" then Badge(Yellow, "En Hall")
    else if status == "in_progress" then Badge(Purple, "Atendiendo")
    else if status == "completed" then Badge(Green, "Finalizado")
    else if status == "cancelled" then Badge(Red, "Cancelado")
    else Badge(Slate, status)
  }

  /** Any other text, no_show included, is shown in slate as it is; each known status has its own color. */
  lemma BadgeCases(status: string)
    ensures StatusBadge(status).color == Slate <==>
      status !in {"pending", "confirmed", "in_hall", "in_progress", "completed", "cancelled"}
    ensures StatusBadge(status).color == Slate ==> StatusBadge(status).text == status
    ensures StatusBadge(Name(NoShow)) == Badge(Slate, "no_show")
    ensures forall s, t | StatusBadge(s).color != Slate && StatusBadge(s).color == StatusBadge(t).color :: s == t
  {
  }

  // ---------------------------------------------------------------------------------
  // The list update.

  /** `prev.map(b => b.id === id ? { ...b, status } : b)` */
  function SetStatus(bookings: seq<Booking>, id: string, status: string): seq<Booking> {
    seq(|bookings|, i requires 0 <= i < |bookings| =>
      if bookings[i].id == id then bookings[i].(status := status) else bookings[i])
  }

  /**
   * The update changes only the status of the bookings with the given id: the length, the
   * order, every id and every other field stay as they were.
   */
  lemma SetStatusChangesOnlyMatching(bookings: seq<Booking>, id: string, status: string)
    ensures var r := SetStatus(bookings, id, status);
      && |r| == |bookings|
      && (forall i | 0 <= i < |r| :: r[i].id == bookings[i].id && r[i].customerName == bookings[i].customerName)
      && (forall i | 0 <= i < |r| && bookings[i].id != id :: r[i] == bookings[i])
      && (forall i | 0 <= i < |r| && bookings[i].id == id :: r[i].status == status)
  {
  }

  /** Applying the same update twice is applying it once. */
  lemma SetStatusIdempotent(bookings: seq<Booking>, id: string, status: string)
    ensures SetStatus(SetStatus(bookings, id, status), id, status) == SetStatus(bookings, id, status)
  {
  }

  /** Updating one booking and then another is the same in either order. */
  lemma SetStatusCommutes(bookings: seq<Booking>, id1: string, s1: string, id2: string, s2: string)
    requires id1 != id2
    ensures SetStatus(SetStatus(bookings, id1, s1), id2, s2) == SetStatus(SetStatus(bookings, id2, s2), id1, s1)
  {
  }

  // ---------------------------------------------------------------------------------
  // Loading.

  /** What `loadDashboardData` does with the user's businesses. */
  datatype Load = NoBusinessAlert | NothingLoaded | LoadAppointmentsOf(businessId: string)

  /**
   * `hasUserId` says whether the signed-in user has an id; `businessIds` are the ids
   * `getUserBusinesses` returns, newest first. Only the first business is shown.
   */
  function LoadPlan(hasUserId: bool, businessIds: seq<string>, isBusinessOwner: bool): (r: Load)
    ensures r.LoadAppointmentsOf? <==> hasUserId && businessIds != [] && businessIds[0] != ""
    ensures r.LoadAppointmentsOf? ==> r.businessId == businessIds[0]
    ensures r == NoBusinessAlert <==> hasUserId && businessIds == [] && isBusinessOwner
  {
    if !hasUserId then NothingLoaded
    else if businessIds == [] then (if isBusinessOwner then NoBusinessAlert else NothingLoaded)
    else if businessIds[0] == "" then NothingLoaded
    else LoadAppointmentsOf(businessIds[0])
  }

  // ---------------------------------------------------------------------------------
  // The page state.

  /** The `updateAppointmentStatus` call a status change or the results modal issues. */
  datatype StatusWrite = StatusWrite(id: string, status: string, resultNotes: Option<string>)

  class DashboardPage {
    var bookings: seq<Booking>
    var selected: Option<Booking>
    var showResultModal: bool
    var resultText: string

    constructor(loaded: seq<Booking>)
      ensures bookings == loaded && selected.None? && !showResultModal && resultText == ""
    {
      bookings := loaded;
      selected := None;
      showResultModal := false;
      resultText := "";
    }

    /**
     * `updateStatus(id, newStatus)`: change the list first, then write; when the write fails
     * the page reloads, and `reloaded` is what the reload reads.
     */
    method UpdateStatus(id: string, newStatus: Status, writeOk: bool, reloaded: seq<Booking>) returns (write: StatusWrite)
      modifies this
      ensures write == StatusWrite(id, Name(newStatus), None)
      ensures bookings == if writeOk then SetStatus(old(bookings), id, Name(newStatus)) else reloaded
      ensures selected == old(selected) && showResultModal == old(showResultModal) && resultText == old(resultText)
    {
      bookings := SetStatus(bookings, id, Name(newStatus));
      write := StatusWrite(id, Name(newStatus), None);
      if !writeOk {
        bookings := reloaded;
      }
    }

    /** `handleFinishBooking(booking)`: open the results modal for it. */
    method FinishBooking(b: Booking)
      modifies this
      ensures selected == Some(b) && showResultModal
      ensures bookings == old(bookings) && resultText == old(resultText)
    {
      selected := Some(b);
      showResultModal := true;
    }

    /** Typing into the results box. */
    method EditResult(text: string)
      modifies this
      ensures resultText == text
      ensures bookings == old(bookings) && selected == old(selected) && showResultModal == old(showResultModal)
    {
      resultText := text;
    }

    /**
     * `saveResults()`: with a booking selected, write status completed and the notes, then mark
     * it completed in the list and close and clear the modal; if the call throws, only an
     * alert is shown. Without a selection nothing happens.
     */
    method SaveResults(raised: bool) returns (write: Option<StatusWrite>)
      modifies this
      ensures old(selected).None? ==> write.None? && unchanged(this)
      ensures old(selected).Some? ==> write == Some(StatusWrite(old(selected).value.id, "completed", Some(old(resultText))))
      ensures old(selected).Some? && !raised ==>
        && bookings == SetStatus(old(bookings), old(selected).value.id, "completed")
        && !showResultModal && resultText == "" && selected.None?
      ensures old(selected).Some? && raised ==> unchanged(this)
    {
      if selected.None? {
        return None;
      }
      var b := selected.value;
      write := Some(StatusWrite(b.id, "completed", Some(resultText)));
      if !raised {
        bookings := SetStatus(bookings, b.id, "completed");
        showResultModal := false;
        resultText := "";
        selected := None;
      }
    }
  }
}
