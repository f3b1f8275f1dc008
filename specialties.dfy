/**
 * The specialties page of app/admin/especialidades/page.tsx: the business owner creates, edits,
 * activates and deactivates and deletes the specialties customers book.
 *
 * The database answers are inputs: whether a write succeeds (and the error code when it does
 * not), and the `specialists` rows the delete guard looks at. After a successful write the page
 * reloads the list; that reload is not part of this model.
 */
module Specialties {
  import opened Common
  import opened JsString

  /** A row of `specialties`. */
  datatype Specialty = Specialty(id: string, businessId: string, name: string,
                                 description: Option<string>, duration: int, isActive: bool)

  /** The create/edit form. */
  datatype Form = Form(name: string, description: string, duration: int)

  /** The form as the page opens it and resets it: empty, 30 minutes. */
  const EmptyForm := Form("", "", 30)

  /** What the database answers to a write. */
  datatype Answer = Ok | Failed(code: string)

  /** Postgres's unique-violation code, which the insert reports as a duplicate name. */
  const UniqueViolation := "23505"

  /** A `specialties` write. */
  datatype Write =
    | UpdateSpecialty(id: string, name: string, description: Option<string>, duration: int)
    | InsertSpecialty(businessId: string, name: string, description: Option<string>, duration: int, isActive: bool)

  /** How `handleSave` ends. */
  datatype SaveOutcome =
    | InvalidName           // no business loaded, or a blank name
    | Saved(w: Write)       // written; the form is reset and closed
    | Duplicate(w: Write)   // the insert hit the unique name
    | SaveFailed(w: Write)  // any other error

  /** `description.trim() || null` */
  function StoredDescription(description: string): (r: Option<string>)
    ensures r.None? <==> Trim(description) == ""
    ensures r.Some? ==> r.value == Trim(description)
  {
    if Trim(description) == "" then None else Some(Trim(description))
  }

  /** The write `handleSave` issues: an update when editing, an active new row otherwise. */
  function WriteFor(businessId: string, editingId: Option<string>, form: Form): Write {
    var name := Trim(form.name);
    var description := StoredDescription(form.description);
    if editingId.Some? && editingId.value != "" then UpdateSpecialty(editingId.value, name, description, form.duration)
    else InsertSpecialty(businessId, name, description, form.duration, true)
  }

  /** `handleSave()`, on the database's answer to its write. */
  function SaveDecision(business: Option<string>, editingId: Option<string>, form: Form, answer: Answer): SaveOutcome {
    if business.None? || Trim(form.name) == "" then InvalidName
    else
      var w := WriteFor(business.value, editingId, form);
      if answer.Ok? then Saved(w)
      else if w.InsertSpecialty? && answer.code == UniqueViolation then Duplicate(w)
      else SaveFailed(w)
  }

  /** The write a save outcome carries. */
  function Written(o: SaveOutcome): Option<Write> {
    if o.InvalidName? then None else Some(o.w)
  }

  /** A blank name (white space only) writes nothing; any other name is written. */
  lemma BlankNameRefused(business: Option<string>, editingId: Option<string>, form: Form, answer: Answer)
    ensures SaveDecision(business, editingId, form, answer) == InvalidName <==>
      business.None? || forall i | 0 <= i < |form.name| :: IsSpace(form.name[i])
  {
    TrimEmpty(form.name);
  }

  /**
   * What is stored: the trimmed name, which is never blank and neither starts nor ends with
   * white space; the trimmed description, or null when that is empty; the form's duration.
   */
  lemma StoredFields(business: Option<string>, editingId: Option<string>, form: Form, answer: Answer)
    requires Written(SaveDecision(business, editingId, form, answer)).Some?
    ensures var w := Written(SaveDecision(business, editingId, form, answer)).value;
      && w.name == Trim(form.name) && w.name != ""
      && !IsSpace(w.name[0]) && !IsSpace(w.name[|w.name| - 1])
      && (w.description.None? <==> Trim(form.description) == "")
      && w.duration == form.duration
  {
    var o := SaveDecision(business, editingId, form, answer);
    assert o.w == WriteFor(business.value, editingId, form);
    TrimmedEnds(form.name);
  }

  /** A non-empty trimmed string neither starts nor ends with white space. */
  lemma TrimmedEnds(s: string)
    ensures Trim(s) != [] ==> !IsSpace(Trim(s)[0]) && !IsSpace(Trim(s)[|Trim(s)| - 1])
  {
    TrimStartShape(s);
    var t := TrimStart(s);
    TrimEndShape(t);
    if TrimEnd(t) != [] {
      assert TrimEnd(t)[0] == t[0];
    }
  }

  /** Saving a name that was already stored trimmed stores it unchanged. */
  lemma TrimmedNameStable(name: string)
    ensures Trim(Trim(name)) == Trim(name)
  {
    TrimmedEnds(name);
    TrimUnchanged(Trim(name));
  }

  /** A new specialty belongs to the owner's business and is created active. */
  lemma NewSpecialtiesActive(business: Option<string>, form: Form, answer: Answer)
    requires Written(SaveDecision(business, None, form, answer)).Some?
    ensures var w := Written(SaveDecision(business, None, form, answer)).value;
      w.InsertSpecialty? && w.isActive && w.businessId == business.value
  {
  }

  /** Only an insert that hits the unique name is reported as a duplicate; an edit's error never is. */
  lemma DuplicateOnlyOnInsert(business: Option<string>, editingId: Option<string>, form: Form, answer: Answer)
    ensures SaveDecision(business, editingId, form, answer).Duplicate? <==>
      && business.Some? && Trim(form.name) != "" && !(editingId.Some? && editingId.value != "")
      && answer == Failed(UniqueViolation)
  {
  }

  // ---------------------------------------------------------------------------------
  // Delete and toggle.

  /** A row of `specialists`, as far as the delete guard reads it. */
  datatype SpecialistRef = SpecialistRef(id: string, specialtyId: string)

  /** Whether some specialist has the specialty: `.eq('specialty_id', id).limit(1)` is not empty. */
  predicate Referenced(specialists: seq<SpecialistRef>, id: string) {
    exists i | 0 <= i < |specialists| :: specialists[i].specialtyId == id
  }

  /** How `handleDelete` ends. */
  datatype DeleteOutcome = NotConfirmed | StillReferenced | Deleted | DeleteFailed

  /**
   * `handleDelete(id)`: after the confirmation, look for a specialist of the specialty
   * (`specialists` is None when that query fails) and delete only when there is none.
   */
  function DeleteDecision(confirmed: bool, specialists: Option<seq<SpecialistRef>>, id: string, deleteOk: bool): (r: DeleteOutcome)
    ensures r == Deleted ==> specialists.Some? && !Referenced(specialists.value, id)
  {
    if !confirmed then NotConfirmed
    else if specialists.None? then DeleteFailed
    else if Referenced(specialists.value, id) then StillReferenced
    else if deleteOk then Deleted
    else DeleteFailed
  }

  /** Whether `handleDelete` issues the delete. */
  predicate DeleteIssued(confirmed: bool, specialists: Option<seq<SpecialistRef>>, id: string) {
    confirmed && specialists.Some? && !Referenced(specialists.value, id)
  }

  /**
   * The guard: a specialty some specialist references is never deleted, and one nobody
   * references is deleted once confirmed, unless the database refuses.
   */
  lemma DeleteGuard(confirmed: bool, specialists: Option<seq<SpecialistRef>>, id: string, deleteOk: bool)
    ensures specialists.Some? && Referenced(specialists.value, id) ==>
      DeleteDecision(confirmed, specialists, id, deleteOk) in {NotConfirmed, StillReferenced}
    ensures DeleteDecision(confirmed, specialists, id, deleteOk) == Deleted <==>
      DeleteIssued(confirmed, specialists, id) && deleteOk
  {
  }

  /** `handleToggleActive(id, current)` on the table: `is_active := !current` for that row. */
  function Toggle(rows: seq<Specialty>, id: string, current: bool): (r: seq<Specialty>)
    ensures |r| == |rows|
  {
    seq(|rows|, i requires 0 <= i < |rows| => if rows[i].id == id then rows[i].(isActive := !current) else rows[i])
  }

  /**
   * Toggling flips the row's flag and nothing else; toggling again with the value then shown
   * restores the table.
   */
  lemma ToggleFlips(rows: seq<Specialty>, id: string, i: nat)
    requires i < |rows| && rows[i].id == id
    ensures Toggle(rows, id, rows[i].isActive)[i] == rows[i].(isActive := !rows[i].isActive)
    ensures forall j | 0 <= j < |rows| && rows[j].id != id :: Toggle(rows, id, rows[i].isActive)[j] == rows[j]
    ensures (forall j | 0 <= j < |rows| && rows[j].id == id :: rows[j].isActive == rows[i].isActive) ==>
      Toggle(Toggle(rows, id, rows[i].isActive), id, !rows[i].isActive) == rows
  {
  }

  /** `parseInt(e.target.value) || 30`: the duration input; NaN and 0 fall back to 30. */
  function DurationInput(text: string): (r: int)
    ensures r != 0
    ensures ParseInt(text).None? || ParseInt(text) == Some(0) ==> r == 30
    ensures ParseInt(text).Some? && ParseInt(text).value != 0 ==> r == ParseInt(text).value
  {
    var p := ParseInt(text);
    if p.None? || p.value == 0 then 30 else p.value
  }

  /** A typed non-zero number is taken as it is. */
  lemma DurationTyped(minutes: int)
    requires minutes != 0
    ensures DurationInput(IntToString(minutes)) == minutes
  {
    IntToStringRoundTrip(minutes);
  }

  // ---------------------------------------------------------------------------------
  // The page state.

  class SpecialtiesPage {
    var business: Option<string>
    var showForm: bool
    var editingId: Option<string>
    var form: Form
    var saving: bool

    constructor()
      ensures business.None? && !showForm && editingId.None? && form == EmptyForm && !saving
    {
      business := None;
      showForm := false;
      editingId := None;
      form := EmptyForm;
      saving := false;
    }

    /** `handleEdit(specialty)`: fill the form from the row and open it. */
    method Edit(s: Specialty)
      modifies this
      ensures editingId == Some(s.id) && showForm
      ensures form == Form(s.name, s.description.GetOr(""), s.duration)
      ensures business == old(business) && saving == old(saving)
    {
      editingId := Some(s.id);
      form := Form(s.name, s.description.GetOr(""), s.duration);
      showForm := true;
    }

    /**
     * `handleSave()`: on success reset and close the form; on a duplicate name or any other
     * error keep the form as typed, so the user can correct it.
     */
    method Save(answer: Answer) returns (outcome: SaveOutcome)
      modifies this
      ensures outcome == SaveDecision(old(business), old(editingId), old(form), answer)
      ensures outcome.Saved? ==> !showForm && editingId.None? && form == EmptyForm
      ensures !outcome.Saved? ==> showForm == old(showForm) && editingId == old(editingId) && form == old(form)
      ensures business == old(business) && !saving
    {
      outcome := SaveDecision(business, editingId, form, answer);
      if outcome.Saved? {
        showForm := false;
        editingId := None;
        form := EmptyForm;
      }
      saving := false;
    }
  }
}
