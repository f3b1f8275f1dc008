/**
 * The specialist's bookings page of app/admin/reservas-especialista/page.tsx: which bookings a
 * specialist sees (those of every active specialist of their specialty, narrowed by the status
 * filter), starting a consultation, and the details modal that records the result notes and
 * the prescription when completing one.
 *
 * The database is an input: the specialty assigned to the user, the specialists table and the
 * appointments table, each None when its query fails.
 */
module SpecialistDesk {
  import opened Common

  /** A row of `specialists`. */
  datatype Specialist = Specialist(id: string, specialtyId: string, isActive: bool)

  /** A row of `appointments`, with the fields the page reads or writes. */
  datatype Row = Row(id: string, specialistId: string, status: string,
                     resultNotes: Option<string>, prescription: Option<string>)

  /** What loading ends in. */
  datatype Load =
    | NoSpecialtyAlert       // no specialist assignment, or one without a specialty
    | LoadErrorAlert         // a query failed; the list stays as it was
    | Loaded(rows: seq<Row>)

  /** `.eq('specialty_id', specialty).eq('is_active', true)`, then `.map(s => s.id)` */
  function SpecialistIds(specialists: seq<Specialist>, specialty: string): (r: seq<string>)
    ensures forall id :: id in r <==> exists s | s in specialists :: s.id == id && s.specialtyId == specialty && s.isActive
  {
    if specialists == [] then []
    else
      var s := specialists[0];
      var rest := SpecialistIds(specialists[1..], specialty);
      assert forall t | t in specialists[1..] :: t in specialists;
      assert forall t | t in specialists && t != s :: t in specialists[1..];
      if s.specialtyId == specialty && s.isActive then [s.id] + rest else rest
  }

  /** The rows the filter lets through: all of them, or those with exactly that status. */
  predicate PassesFilter(r: Row, filter: string) {
    filter == "all" || r.status == filter
  }

  /** `.in('specialist_id', ids)`, then `.eq('status', filter)` unless the filter is 'all'; table order is kept. */
  function Query(table: seq<Row>, ids: seq<string>, filter: string): (r: seq<Row>)
    ensures forall x :: x in r <==> x in table && x.specialistId in ids && PassesFilter(x, filter)
    ensures |r| <= |table|
  {
    if table == [] then []
    else
      var x := table[0];
      var rest := Query(table[1..], ids, filter);
      assert forall t | t in table[1..] :: t in table;
      assert forall t | t in table && t != x :: t in table[1..];
      if x.specialistId in ids && PassesFilter(x, filter) then [x] + rest else rest
  }

  /**
   * `loadSpecialtyAndAppointments()`. `specialty` is the specialty_id of the user's
   * specialist assignment: None when that query fails, finds no single row or the id is null.
   */
  function LoadDesk(specialty: Option<string>, specialists: Option<seq<Specialist>>,
                    table: Option<seq<Row>>, filter: string): Load
  {
    if specialty.None? || specialty.value == "" then NoSpecialtyAlert
    else if specialists.None? then LoadErrorAlert
    else
      var ids := SpecialistIds(specialists.value, specialty.value);
      if ids == [] then Loaded([])
      else if table.None? then LoadErrorAlert
      else Loaded(Query(table.value, ids, filter))
  }

  /**
   * A specialist sees exactly the bookings of the active specialists of their own specialty
   * that pass the filter: nothing of another specialty, nothing of an inactive specialist.
   */
  lemma SeesExactlyOwnSpecialty(specialty: string, specialists: seq<Specialist>, table: seq<Row>, filter: string, x: Row)
    requires specialty != ""
    requires LoadDesk(Some(specialty), Some(specialists), Some(table), filter).Loaded?
    ensures x in LoadDesk(Some(specialty), Some(specialists), Some(table), filter).rows <==>
      && x in table && PassesFilter(x, filter)
      && exists s | s in specialists :: s.id == x.specialistId && s.specialtyId == specialty && s.isActive
  {
  }

  /** When no active specialist has the specialty, the page skips the query and shows no bookings, as the query would. */
  lemma NoSpecialistsShortcutAgrees(specialty: string, specialists: seq<Specialist>, table: Option<seq<Row>>, filter: string)
    requires specialty != "" && SpecialistIds(specialists, specialty) == []
    ensures LoadDesk(Some(specialty), Some(specialists), table, filter) == Loaded([])
    ensures table.Some? ==> Query(table.value, SpecialistIds(specialists, specialty), filter) == []
  {
    if table.Some? {
      QueryWithoutIds(table.value, filter);
    }
  }

  /** With no specialist ids the query returns no rows. */
  lemma {:induction false} QueryWithoutIds(table: seq<Row>, filter: string)
    ensures Query(table, [], filter) == []
  {
    if table != [] {
      QueryWithoutIds(table[1..], filter);
    }
  }

  /** The 'all' filter hides nothing: every status of the specialty's bookings is listed. */
  lemma AllFilterKeepsEveryStatus(table: seq<Row>, ids: seq<string>, x: Row)
    requires x in table && x.specialistId in ids
    ensures x in Query(table, ids, "all")
  {
  }

  /** Any other filter lists only bookings with that status. */
  lemma StatusFilterNarrows(table: seq<Row>, ids: seq<string>, filter: string)
    requires filter != "all"
    ensures forall x | x in Query(table, ids, filter) :: x.status == filter
  {
  }

  // ---------------------------------------------------------------------------------
  // Buttons, and the notes fields' empty-or-null conversion.

  datatype Button = StartCare | ViewDetails

  /** The buttons shown for a status: start on confirmed, details once in progress or completed. */
  function Buttons(status: string): seq<Button> {
    (if status == "confirmed" then [StartCare] else [])
      + (if status == "in_progress" || status == "completed" then [ViewDetails] else [])
  }

  /** Whether `handleOpenDetails` opens the modal rather than refusing with an alert. */
  predicate OpensDetails(status: string) {
    status == "in_progress" || status == "completed"
  }

  /** The details button is shown exactly for the statuses whose details the page agrees to open. */
  lemma DetailsButtonAgrees(status: string)
    ensures ViewDetails in Buttons(status) <==> OpensDetails(status)
    ensures StartCare in Buttons(status) <==> status == "confirmed"
    ensures |Buttons(status)| <= 1
  {
  }

  /** `value || null`: an empty field is stored as null. */
  function NullIfEmpty(s: string): (r: Option<string>)
    ensures r.None? <==> s == ""
    ensures r.Some? ==> r.value == s
  {
    if s == "" then None else Some(s)
  }

  /** `value || ''`: a null column is shown as an empty field. */
  function Shown(o: Option<string>): (r: string)
    ensures o.Some? ==> r == o.value
    ensures o.None? ==> r == ""
  {
    o.GetOr("")
  }

  /**
   * Saving a field and reopening it shows the same text; reopening a stored value and
   * saving it again stores it unchanged, except that an empty string becomes null.
   */
  lemma NotesRoundTrip(s: string, o: Option<string>)
    ensures Shown(NullIfEmpty(s)) == s
    ensures o != Some("") ==> NullIfEmpty(Shown(o)) == o
    ensures NullIfEmpty(Shown(Some(""))) == None
  {
  }

  // ---------------------------------------------------------------------------------
  // The page state.

  /**
   * An `appointments` update the page issues. Starting care writes the status alone and
   * leaves the stored notes as they are; completing writes the status and both note columns.
   */
  datatype Update =
    | SetInProgress(id: string)
    | SetCompleted(id: string, resultNotes: Option<string>, prescription: Option<string>)
  {
    /** The `status` column the update writes. */
    function Status(): string {
      if SetInProgress? then "in_progress" else "completed"
    }
  }

  /** The list the page shows after a load: the new rows, or the old ones when the load alerts. */
  function AfterLoad(current: seq<Row>, l: Load): seq<Row> {
    if l.Loaded? then l.rows else current
  }

  class DeskPage {
    var appointments: seq<Row>
    var selected: Option<Row>
    var showDetailsModal: bool
    var resultNotes: string
    var prescription: string
    var saving: bool

    constructor()
      ensures appointments == [] && selected.None? && !showDetailsModal
      ensures resultNotes == "" && prescription == "" && !saving
    {
      appointments := [];
      selected := None;
      showDetailsModal := false;
      resultNotes := "";
      prescription := "";
      saving := false;
    }

    /** Applying the outcome of `loadSpecialtyAndAppointments()`. */
    method Reload(l: Load)
      modifies this
      ensures appointments == AfterLoad(old(appointments), l)
      ensures selected == old(selected) && showDetailsModal == old(showDetailsModal)
      ensures resultNotes == old(resultNotes) && prescription == old(prescription) && saving == old(saving)
    {
      if l.Loaded? {
        appointments := l.rows;
      }
    }

    /**
     * `handleOpenDetails(appointment)`: for a booking in progress or completed, select it and
     * fill the fields from its stored notes; for any other status only alert.
     */
    method OpenDetails(a: Row) returns (shown: bool)
      modifies this
      ensures shown <==> OpensDetails(a.status)
      ensures shown ==> && selected == Some(a) && showDetailsModal
                        && resultNotes == Shown(a.resultNotes) && prescription == Shown(a.prescription)
      ensures !shown ==> unchanged(this)
      ensures appointments == old(appointments) && saving == old(saving)
    {
      shown := OpensDetails(a.status);
      if shown {
        selected := Some(a);
        resultNotes := Shown(a.resultNotes);
        prescription := Shown(a.prescription);
        showDetailsModal := true;
      }
    }

    /** Typing into the two fields of the modal. */
    method Edit(notes: string, rx: string)
      modifies this
      ensures resultNotes == notes && prescription == rx
      ensures appointments == old(appointments) && selected == old(selected)
      ensures showDetailsModal == old(showDetailsModal) && saving == old(saving)
    {
      resultNotes := notes;
      prescription := rx;
    }

    /**
     * `handleStartAppointment(id)`: mark the booking in progress; reload the list only when
     * the update succeeds.
     */
    method StartAppointment(id: string, writeOk: bool, reload: Load) returns (u: Update)
      modifies this
      ensures u == SetInProgress(id) && u.Status() == "in_progress"
      ensures appointments == if writeOk then AfterLoad(old(appointments), reload) else old(appointments)
      ensures selected == old(selected) && showDetailsModal == old(showDetailsModal)
      ensures resultNotes == old(resultNotes) && prescription == old(prescription) && saving == old(saving)
    {
      u := SetInProgress(id);
      if writeOk {
        Reload(reload);
      }
    }

    /**
     * `handleCompleteAppointment()`: with a booking selected, store it as completed with the
     * fields' text (empty as null). On success close the modal, clear the selection and the
     * fields and reload; on failure keep everything for another try. Saving always ends off.
     */
    method CompleteAppointment(writeOk: bool, reload: Load) returns (u: Option<Update>)
      modifies this
      ensures old(selected).None? ==> u.None? && unchanged(this)
      ensures old(selected).Some? ==>
        u == Some(SetCompleted(old(selected).value.id, NullIfEmpty(old(resultNotes)), NullIfEmpty(old(prescription))))
      ensures old(selected).Some? && writeOk ==>
        && selected.None? && !showDetailsModal && resultNotes == "" && prescription == ""
        && appointments == AfterLoad(old(appointments), reload)
      ensures old(selected).Some? && !writeOk ==>
        && selected == old(selected) && showDetailsModal == old(showDetailsModal)
        && resultNotes == old(resultNotes) && prescription == old(prescription)
        && appointments == old(appointments)
      ensures old(selected).Some? ==> !saving && u.value.Status() == "completed"
    {
      if selected.None? {
        return None;
      }
      saving := true;
      u := Some(SetCompleted(selected.value.id, NullIfEmpty(resultNotes), NullIfEmpty(prescription)));
      if writeOk {
        showDetailsModal := false;
        selected := None;
        resultNotes := "";
        prescription := "";
        Reload(reload);
      }
      saving := false;
    }
  }
}
