/**
 * The tenant's users page of app/admin/usuarios/page.tsx: a business owner adds registered
 * users to their business as specialists or as fellow admins, within the business's user limit,
 * and removes them again.
 *
 * The database answers are inputs: the user's businesses, the `tenant_users` table, the id of
 * the profile registered under the typed email (None when `.single()` finds none), and whether
 * each write succeeds. After a write the page reloads; the model reads back the rows as they
 * were plus the inserted row, or minus the deleted one.
 */
module TenantUsers {
  import opened Common

  datatype Role = Specialist | BusinessOwner

  /** A row of `tenant_users`. */
  datatype Member = Member(id: string, tenantId: string, userId: string, role: Role,
                           specialtyId: Option<string>, isActive: bool)

  /** A business as `getUserBusinesses` returns it; `maxUsers` is None when the column is null. */
  datatype Business = Business(id: string, maxUsers: Option<int>)

  /** `business.max_users || 5` */
  function MaxUsers(b: Business): (r: int)
    ensures b.maxUsers.None? || b.maxUsers.value == 0 ==> r == 5
    ensures b.maxUsers.Some? && b.maxUsers.value != 0 ==> r == b.maxUsers.value
  {
    if b.maxUsers.None? || b.maxUsers.value == 0 then 5 else b.maxUsers.value
  }

  /** No user appears twice among the rows. */
  predicate DistinctUsers(rows: seq<Member>) {
    forall i, j | 0 <= i < j < |rows| :: rows[i].userId != rows[j].userId
  }

  /** `tenantUsers.find(tu => tu.user_id === userId)` */
  function Find(rows: seq<Member>, userId: string): (r: Option<Member>)
    ensures r.Some? <==> exists i | 0 <= i < |rows| :: rows[i].userId == userId
    ensures r.Some? ==> r.value in rows && r.value.userId == userId
  {
    if rows == [] then None
    else if rows[0].userId == userId then Some(rows[0])
    else
      var r := Find(rows[1..], userId);
      assert forall i | 1 <= i < |rows| :: rows[i] == rows[1..][i - 1];
      r
  }

  /** `.eq('tenant_id', id)` on `tenant_users`, in table order. */
  function OfTenant(table: seq<Member>, tenantId: string): (r: seq<Member>)
    ensures forall m :: m in r <==> m in table && m.tenantId == tenantId
  {
    if table == [] then []
    else
      var rest := OfTenant(table[1..], tenantId);
      assert forall m | m in table[1..] :: m in table;
      assert forall m | m in table && m != table[0] :: m in table[1..];
      if table[0].tenantId == tenantId then [table[0]] + rest else rest
  }

  /** The add-user form. */
  datatype Form = Form(email: string, role: Role, specialtyId: string)

  /** How `handleAddUser` ends. */
  datatype AddOutcome =
    | EnterEmail                              // no business loaded, or no email typed
    | LimitReached                            // as many users as the limit allows
    | ChooseSpecialty                         // a specialist needs a specialty
    | NotRegistered                           // no profile has that email
    | AlreadyMember                           // that user is already in the tenant
    | InsertFailed                            // the insert threw
    | Added(member: Member, promoted: bool)   // inserted; `promoted` if the profile role was set

  /** The row `handleAddUser` inserts. */
  function NewMember(id: string, tenantId: string, userId: string, form: Form): Member {
    Member(id, tenantId, userId, form.role,
      if form.role == Specialist then Some(form.specialtyId) else None, true)
  }

  /**
   * The guards of `handleAddUser`, in their order, then the insert. `rows` are the users
   * loaded (their number is the page's `currentUsers`), `profileId` the profile found for the
   * email, `newId` the id the database gives the new row.
   */
  function Admit(business: Option<string>, form: Form, rows: seq<Member>, max: int,
                 profileId: Option<string>, insertOk: bool, newId: string): AddOutcome
  {
    if business.None? || form.email == "" then EnterEmail
    else if |rows| >= max then LimitReached
    else if form.role == Specialist && form.specialtyId == "" then ChooseSpecialty
    else if profileId.None? then NotRegistered
    else if Find(rows, profileId.value).Some? then AlreadyMember
    else if !insertOk then InsertFailed
    else Added(NewMember(newId, business.value, profileId.value, form), form.role == Specialist)
  }

  /** Each refusal happens exactly when its guard fails and every earlier guard passed. */
  lemma AdmitGuards(business: Option<string>, form: Form, rows: seq<Member>, max: int,
                    profileId: Option<string>, insertOk: bool, newId: string)
    ensures var o := Admit(business, form, rows, max, profileId, insertOk, newId);
      && (o == EnterEmail <==> business.None? || form.email == "")
      && (o == LimitReached <==> business.Some? && form.email != "" && |rows| >= max)
      && (o == ChooseSpecialty <==>
            business.Some? && form.email != "" && |rows| < max && form.role == Specialist && form.specialtyId == "")
      && (o.Added? ==> profileId.Some? && insertOk && form.email != "")
      && var earlier := business.Some? && form.email != "" && |rows| < max
                        && !(form.role == Specialist && form.specialtyId == "");
      && (o == NotRegistered <==> earlier && profileId.None?)
      && (o == AlreadyMember <==> earlier && profileId.Some? && Find(rows, profileId.value).Some?)
      && (o == InsertFailed <==>
            earlier && profileId.Some? && Find(rows, profileId.value).None? && !insertOk)
      && (o.Added? <==> earlier && profileId.Some? && Find(rows, profileId.value).None? && insertOk)
  {
  }

  /** An admission never takes the tenant past its limit. */
  lemma AdmitWithinLimit(business: Option<string>, form: Form, rows: seq<Member>, max: int,
                         profileId: Option<string>, insertOk: bool, newId: string)
    requires Admit(business, form, rows, max, profileId, insertOk, newId).Added?
    ensures |rows + [Admit(business, form, rows, max, profileId, insertOk, newId).member]| <= max
  {
  }

  /** An admission never adds a user who is already in the tenant, so user ids stay distinct. */
  lemma AdmitKeepsUsersDistinct(business: Option<string>, form: Form, rows: seq<Member>, max: int,
                                profileId: Option<string>, insertOk: bool, newId: string)
    requires DistinctUsers(rows)
    requires Admit(business, form, rows, max, profileId, insertOk, newId).Added?
    ensures DistinctUsers(rows + [Admit(business, form, rows, max, profileId, insertOk, newId).member])
  {
    var m := Admit(business, form, rows, max, profileId, insertOk, newId).member;
    var rows' := rows + [m];
    forall i, j | 0 <= i < j < |rows'|
      ensures rows'[i].userId != rows'[j].userId
    {
      if j == |rows| {
        assert rows'[i] == rows[i];
      } else {
        assert rows'[i] == rows[i] && rows'[j] == rows[j];
      }
    }
  }

  /**
   * The inserted row: the found user, the chosen role, active, in this tenant; a specialty
   * exactly for a specialist, and it is never empty; only a specialist's profile is promoted.
   */
  lemma AdmittedRow(business: Option<string>, form: Form, rows: seq<Member>, max: int,
                    profileId: Option<string>, insertOk: bool, newId: string)
    requires Admit(business, form, rows, max, profileId, insertOk, newId).Added?
    ensures var o := Admit(business, form, rows, max, profileId, insertOk, newId);
      && o.member.userId == profileId.value && o.member.tenantId == business.value
      && o.member.role == form.role && o.member.isActive
      && (o.member.specialtyId.Some? <==> form.role == Specialist)
      && (o.member.specialtyId.Some? ==> o.member.specialtyId.value == form.specialtyId != "")
      && (o.promoted <==> form.role == Specialist)
  {
  }

  /** The rows left after `.delete().eq('id', id)`. */
  function Without(rows: seq<Member>, id: string): (r: seq<Member>)
    ensures forall m :: m in r <==> m in rows && m.id != id
    ensures |r| <= |rows|
  {
    if rows == [] then []
    else
      var rest := Without(rows[1..], id);
      assert forall m | m in rows[1..] :: m in rows;
      assert forall m | m in rows && m != rows[0] :: m in rows[1..];
      if rows[0].id == id then rest else [rows[0]] + rest
  }

  /** The rows after the first keep distinct users. */
  lemma DistinctTail(rows: seq<Member>)
    requires rows != [] && DistinctUsers(rows)
    ensures DistinctUsers(rows[1..])
    ensures forall m | m in rows[1..] :: m.userId != rows[0].userId
  {
    forall i, j | 0 <= i < j < |rows[1..]|
      ensures rows[1..][i].userId != rows[1..][j].userId
    {
      assert rows[1..][i] == rows[i + 1] && rows[1..][j] == rows[j + 1];
    }
    forall m | m in rows[1..]
      ensures m.userId != rows[0].userId
    {
      var k :| 0 <= k < |rows[1..]| && rows[1..][k] == m;
      assert rows[k + 1] == m;
    }
  }

  /** Removing a user keeps the remaining users distinct and never grows the tenant. */
  lemma {:induction false} RemovalKeepsUsersDistinct(rows: seq<Member>, id: string)
    requires DistinctUsers(rows)
    ensures DistinctUsers(Without(rows, id)) && |Without(rows, id)| <= |rows|
  {
    if rows != [] {
      DistinctTail(rows);
      RemovalKeepsUsersDistinct(rows[1..], id);
      var rest := Without(rows[1..], id);
      if rows[0].id != id {
        var r := [rows[0]] + rest;
        forall i, j | 0 <= i < j < |r|
          ensures r[i].userId != r[j].userId
        {
          assert r[j] == rest[j - 1] && r[j] in rest;
          if i > 0 {
            assert r[i] == rest[i - 1];
          }
        }
      }
    }
  }

  /** Whether a row shows the remove button: `tenantUser.user_id !== user?.id`. */
  predicate Removable(m: Member, signedIn: Option<string>) {
    signedIn.None? || m.userId != signedIn.value
  }

  /** The signed-in owner's own row has no remove button; every other row has one. */
  lemma OwnRowNotRemovable(m: Member, signedIn: string)
    ensures !Removable(m, Some(signedIn)) <==> m.userId == signedIn
  {
  }

  // ---------------------------------------------------------------------------------
  // The page state.

  class UsersPage {
    var business: Option<string>
    var maxUsers: int
    var rows: seq<Member>
    var form: Form
    var showAddForm: bool
    var adding: bool

    constructor()
      ensures business.None? && maxUsers == 5 && rows == [] && !showAddForm && !adding
      ensures form == Form("", Specialist, "")
    {
      business := None;
      maxUsers := 5;
      rows := [];
      form := Form("", Specialist, "");
      showAddForm := false;
      adding := false;
    }

    /**
     * `loadData()`: the first business becomes the page's business, its limit the page's limit,
     * and its `tenant_users` rows the list; returns false when nothing could be loaded (no
     * business, or the users query failed, which leaves the list as it was).
     */
    method Load(businesses: seq<Business>, table: Option<seq<Member>>) returns (ok: bool)
      modifies this
      ensures ok <==> businesses != [] && table.Some?
      ensures businesses == [] ==> unchanged(this)
      ensures businesses != [] ==> business == Some(businesses[0].id) && maxUsers == MaxUsers(businesses[0])
      ensures rows == if ok then OfTenant(table.value, businesses[0].id) else old(rows)
      ensures form == old(form) && showAddForm == old(showAddForm) && adding == old(adding)
    {
      if businesses == [] {
        return false;
      }
      business := Some(businesses[0].id);
      maxUsers := MaxUsers(businesses[0]);
      if table.None? {
        return false;
      }
      rows := OfTenant(table.value, businesses[0].id);
      ok := true;
    }

    /** The role select: choosing admin clears the chosen specialty. */
    method ChooseRole(role: Role)
      modifies this
      ensures form == Form(old(form).email, role, if role == Specialist then old(form).specialtyId else "")
      ensures business == old(business) && maxUsers == old(maxUsers) && rows == old(rows)
      ensures showAddForm == old(showAddForm) && adding == old(adding)
    {
      form := form.(role := role, specialtyId := if role == Specialist then form.specialtyId else "");
    }

    /**
     * `handleAddUser()`: run the guards; on an insert, reset and close the form and reload,
     * which then lists the new row after the old ones.
     */
    method AddUser(profileId: Option<string>, insertOk: bool, newId: string) returns (outcome: AddOutcome)
      modifies this
      ensures outcome == Admit(old(business), old(form), old(rows), old(maxUsers), profileId, insertOk, newId)
      ensures outcome.Added? ==>
        rows == old(rows) + [outcome.member] && form == Form("", old(form).role, "") && !showAddForm
      ensures !outcome.Added? ==> rows == old(rows) && form == old(form) && showAddForm == old(showAddForm)
      ensures business == old(business) && maxUsers == old(maxUsers) && !adding
      ensures |old(rows)| <= maxUsers ==> |rows| <= maxUsers
      ensures DistinctUsers(old(rows)) ==> DistinctUsers(rows)
    {
      outcome := Admit(business, form, rows, maxUsers, profileId, insertOk, newId);
      if outcome.Added? {
        AdmitWithinLimit(business, form, rows, maxUsers, profileId, insertOk, newId);
        if DistinctUsers(rows) {
          AdmitKeepsUsersDistinct(business, form, rows, maxUsers, profileId, insertOk, newId);
        }
        rows := rows + [outcome.member];
        form := Form("", form.role, "");
        showAddForm := false;
      }
      adding := false;
    }

    /** `handleRemoveUser(id)`: after the confirmation, delete the row and reload. */
    method RemoveUser(id: string, confirmed: bool, deleteOk: bool)
      modifies this
      ensures rows == if confirmed && deleteOk then Without(old(rows), id) else old(rows)
      ensures DistinctUsers(old(rows)) ==> DistinctUsers(rows)
      ensures business == old(business) && maxUsers == old(maxUsers) && form == old(form)
      ensures showAddForm == old(showAddForm) && adding == old(adding)
    {
      if confirmed && deleteOk {
        if DistinctUsers(rows) {
          RemovalKeepsUsersDistinct(rows, id);
        }
        rows := Without(rows, id);
      }
    }
  }
}
