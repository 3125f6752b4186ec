/**
 * The owner's staff screen: the active employees of one establishment,
 * newest first; a form to add or edit one; and a soft delete that marks the
 * employee inactive instead of removing the row.
 */
module ManageEmployees {

  import opened Wrappers
  import opened Types
  import opened Text
  import opened StableSort
  import opened Backend

  // ------------------------------------------------------------ the form

  /** The form's six text fields, as typed. */
  datatype EmployeeForm = EmployeeForm(
    name: string, role: string, phone: string, email: string, bio: string, photoUrl: string)

  const EMPTY_FORM := EmployeeForm("", "", "", "", "", "")

  /** `x || ''`: a null field shows as an empty text box. */
  function OrEmpty(x: Option<string>): (s: string)
    ensures x.None? ==> s == ""
    ensures x.Some? ==> s == x.value
  {
    match x
    case Some(v) => v
    case None => ""
  }

  /** The form `handleEditEmployee` opens for an employee. */
  function FormFor(e: Employee): EmployeeForm {
    EmployeeForm(e.name, e.role, OrEmpty(e.phone), OrEmpty(e.email), OrEmpty(e.bio), OrEmpty(e.photoUrl))
  }

  /** Saving needs a name and a role that are not blank once trimmed. */
  predicate FormIsComplete(form: EmployeeForm) {
    !IsBlank(form.name) && !IsBlank(form.role)
  }

  /** A form is complete exactly when its name and its role each hold a non-whitespace character. */
  lemma CompleteIffNameAndRole(form: EmployeeForm)
    ensures FormIsComplete(form) <==> !AllWhitespace(form.name) && !AllWhitespace(form.role)
  {
    BlankIffAllWhitespace(form.name);
    BlankIffAllWhitespace(form.role);
  }

  /** The values a save writes: text trimmed, and an empty optional field stored as null. */
  datatype EmployeeFields = EmployeeFields(
    name: string, role: string, phone: Option<string>, email: Option<string>,
    bio: Option<string>, photoUrl: Option<string>)

  /**
   * What the form saves. The photo URL is not trimmed, only nulled when
   * empty; the other optional fields are trimmed first.
   */
  function FieldsOf(form: EmployeeForm): EmployeeFields {
    EmployeeFields(Trim(form.name), Trim(form.role), TrimmedOrNull(form.phone),
                   TrimmedOrNull(form.email), TrimmedOrNull(form.bio), OrNull(form.photoUrl))
  }

  /**
   * An optional field is stored as null exactly when it holds only
   * whitespace (the photo URL: exactly when it is empty); otherwise the
   * trimmed text is stored.
   */
  lemma FieldsOfNullsBlank(form: EmployeeForm)
    ensures FieldsOf(form).phone.None? <==> AllWhitespace(form.phone)
    ensures FieldsOf(form).email.None? <==> AllWhitespace(form.email)
    ensures FieldsOf(form).bio.None? <==> AllWhitespace(form.bio)
    ensures FieldsOf(form).photoUrl.None? <==> form.photoUrl == ""
    ensures FieldsOf(form).phone.Some? ==> FieldsOf(form).phone.value == Trim(form.phone)
    ensures FieldsOf(form).email.Some? ==> FieldsOf(form).email.value == Trim(form.email)
    ensures FieldsOf(form).bio.Some? ==> FieldsOf(form).bio.value == Trim(form.bio)
    ensures FieldsOf(form).photoUrl.Some? ==> FieldsOf(form).photoUrl.value == form.photoUrl
  {
    BlankIffAllWhitespace(form.phone);
    BlankIffAllWhitespace(form.email);
    BlankIffAllWhitespace(form.bio);
  }

  /** The update a save of an edited employee applies; it also stamps the update time. */
  function Edit(fields: EmployeeFields, now: int): Employee -> Employee {
    (e: Employee) => e.(name := fields.name, role := fields.role, phone := fields.phone,
                        email := fields.email, bio := fields.bio, photoUrl := fields.photoUrl,
                        updatedAt := Some(now))
  }

  /**
   * The row a save of a new employee inserts. `isActive` is the column's
   * default, true; `createdAt` is the insertion time.
   */
  function NewEmployee(id: string, establishmentId: string, fields: EmployeeFields, now: int): Employee {
    Employee(id, establishmentId, fields.name, fields.role, fields.photoUrl, fields.phone,
             fields.email, fields.bio, true, now, None)
  }

  lemma TrimmedOrNullStable(s: string)
    ensures TrimmedOrNull(OrEmpty(TrimmedOrNull(s))) == TrimmedOrNull(s)
  {
    TrimIdempotent(s);
  }

  /**
   * Opening a saved employee in the edit form and saving without changes
   * writes the same values again: the save is a fixed point of
   * edit-then-save.
   */
  lemma ResaveWritesSameFields(form: EmployeeForm, e: Employee, now: int)
    ensures FieldsOf(FormFor(Edit(FieldsOf(form), now)(e))) == FieldsOf(form)
  {
    var saved := FieldsOf(form);
    var reopened := FormFor(Edit(saved, now)(e));
    assert reopened == EmployeeForm(saved.name, saved.role, OrEmpty(saved.phone), OrEmpty(saved.email),
                                    OrEmpty(saved.bio), OrEmpty(saved.photoUrl));
    TrimIdempotent(form.name);
    TrimIdempotent(form.role);
    TrimmedOrNullStable(form.phone);
    TrimmedOrNullStable(form.email);
    TrimmedOrNullStable(form.bio);
  }

  // ------------------------------------------------------------ the listing

  function HasId(id: string): Employee -> bool {
    (e: Employee) => e.id == id
  }

  /** The soft delete's update. */
  function Deactivate(e: Employee): Employee {
    e.(isActive := false)
  }

  /** `created_at` descending, as an ascending key. */
  function NewestFirst(e: Employee): real {
    -(e.createdAt as real)
  }

  /** The staff list: the active employees of the establishment, newest first. */
  function StaffByNewest(rows: seq<Employee>, establishmentId: string): seq<Employee> {
    SortBy(ActiveEmployeesOf(rows, establishmentId), NewestFirst)
  }

  /**
   * The staff list holds exactly the active employees of the establishment,
   * each as often as in the table, newest first (rows created at the same
   * time keep their table order).
   */
  lemma StaffByNewestSpec(rows: seq<Employee>, establishmentId: string)
    ensures var r := StaffByNewest(rows, establishmentId);
            && (forall e :: e in r <==> e in rows && e.establishmentId == establishmentId && e.isActive)
            && multiset(r) == multiset(ActiveEmployeesOf(rows, establishmentId))
            && (forall i, j :: 0 <= i < j < |r| ==> r[i].createdAt >= r[j].createdAt)
  {
    var active := ActiveEmployeesOf(rows, establishmentId);
    SortBySpec(active, NewestFirst);
    SortByMembers(active, NewestFirst);
  }

  /**
   * After a soft delete the employee is no longer listed, and every other
   * active employee still is.
   */
  lemma SoftDeleteHides(rows: seq<Employee>, id: string, establishmentId: string)
    ensures forall e :: e in StaffByNewest(Updated(rows, HasId(id), Deactivate), establishmentId) ==> e.id != id
    ensures forall e :: e in StaffByNewest(rows, establishmentId) && e.id != id ==>
              e in StaffByNewest(Updated(rows, HasId(id), Deactivate), establishmentId)
  {
    var after := Updated(rows, HasId(id), Deactivate);
    StaffByNewestSpec(rows, establishmentId);
    StaffByNewestSpec(after, establishmentId);
    forall e | e in after && e.id == id ensures !e.isActive {
      var i :| 0 <= i < |after| && after[i] == e;
      if rows[i].id == id {
        assert HasId(id)(rows[i]);
      } else {
        assert !HasId(id)(rows[i]);
      }
    }
    forall e | e in rows && e.id != id ensures e in after {
      var i :| 0 <= i < |rows| && rows[i] == e;
      assert !HasId(id)(rows[i]) && after[i] == e;
    }
  }

  // ------------------------------------------------------------ the screen

  datatype SaveOutcome =
    | Incomplete    // "Please fill in name and role"
    | SaveFailed    // the update or insert returned an error
    | Saved

  class ManageEmployeesScreen {
    const establishmentId: string
    var employees: seq<Employee>
    var loading: bool
    var showAddModal: bool
    var editingEmployee: Option<Employee>
    var form: EmployeeForm

    constructor (establishmentId: string)
      ensures this.establishmentId == establishmentId
      ensures employees == [] && loading && !showAddModal
      ensures editingEmployee == None && form == EMPTY_FORM
    {
      this.establishmentId := establishmentId;
      employees := [];
      loading := true;
      showAddModal := false;
      editingEmployee := None;
      form := EMPTY_FORM;
    }

    /** `loadEmployees`: the staff list, newest first; an error keeps the list shown. */
    method LoadEmployees(table: Table<Employee>, queryFails: bool)
      modifies this
      ensures employees == if queryFails then old(employees) else StaffByNewest(table.rows, establishmentId)
      ensures !loading
      ensures showAddModal == old(showAddModal) && editingEmployee == old(editingEmployee)
      ensures form == old(form)
    {
      if !queryFails {
        employees := StaffByNewest(table.rows, establishmentId);
      }
      loading := false;
    }

    /** `handleAddEmployee`: an empty form, in add mode. */
    method HandleAddEmployee()
      modifies this
      ensures form == EMPTY_FORM && editingEmployee == None && showAddModal
      ensures employees == old(employees) && loading == old(loading)
    {
      form := EMPTY_FORM;
      editingEmployee := None;
      showAddModal := true;
    }

    /** `handleEditEmployee`: the employee's values in the form, in edit mode. */
    method HandleEditEmployee(employee: Employee)
      modifies this
      ensures form == FormFor(employee) && editingEmployee == Some(employee) && showAddModal
      ensures employees == old(employees) && loading == old(loading)
    {
      form := FormFor(employee);
      editingEmployee := Some(employee);
      showAddModal := true;
    }

    /**
     * `handleSaveEmployee`: refuses an incomplete form; otherwise updates the
     * edited employee (matched by id) or inserts a new one, closes the form
     * and reloads the list. `now` is the clock, `newId` the id the database
     * gives a new row.
     */
    method HandleSaveEmployee(table: Table<Employee>, newId: string, now: int,
                              writeFails: bool, reloadFails: bool)
      returns (outcome: SaveOutcome)
      requires forall e :: e in table.rows ==> e.id != newId
      modifies this, table
      ensures form == old(form) && editingEmployee == old(editingEmployee)
      ensures !FormIsComplete(form) ==>
                outcome == Incomplete && table.rows == old(table.rows)
                && employees == old(employees) && showAddModal == old(showAddModal)
                && loading == old(loading)
      ensures FormIsComplete(form) && writeFails ==>
                outcome == SaveFailed && table.rows == old(table.rows)
                && employees == old(employees) && showAddModal == old(showAddModal)
                && loading == old(loading)
      ensures FormIsComplete(form) && !writeFails ==> outcome == Saved && !showAddModal && !loading
      ensures FormIsComplete(form) && !writeFails && editingEmployee.Some? ==>
                table.rows == Updated(old(table.rows), HasId(editingEmployee.value.id), Edit(FieldsOf(form), now))
      ensures FormIsComplete(form) && !writeFails && editingEmployee.None? ==>
                table.rows == old(table.rows) + [NewEmployee(newId, establishmentId, FieldsOf(form), now)]
      ensures FormIsComplete(form) && !writeFails ==>
                employees == if reloadFails then old(employees) else StaffByNewest(table.rows, establishmentId)
    {
      if !FormIsComplete(form) {
        return Incomplete;
      }
      WriteEmployee(table, FieldsOf(form), newId, now, writeFails);
      if writeFails {
        return SaveFailed;
      }
      showAddModal := false;
      LoadEmployees(table, reloadFails);
      outcome := Saved;
    }

    /** The update or insert of a save, with the values already taken from the form. */
    method WriteEmployee(table: Table<Employee>, fields: EmployeeFields, newId: string, now: int,
                         writeFails: bool)
      modifies table
      ensures writeFails ==> table.rows == old(table.rows)
      ensures !writeFails && editingEmployee.Some? ==>
                table.rows == Updated(old(table.rows), HasId(editingEmployee.value.id), Edit(fields, now))
      ensures !writeFails && editingEmployee.None? ==>
                table.rows == old(table.rows) + [NewEmployee(newId, establishmentId, fields, now)]
    {
      if editingEmployee.Some? {
        table.Update(HasId(editingEmployee.value.id), Edit(fields, now), writeFails);
      } else {
        table.Insert(NewEmployee(newId, establishmentId, fields, now), writeFails);
      }
    }

    /**
     * `deleteEmployee`: marks every row with that id inactive and reloads.
     * After a successful reload the employee is no longer listed.
     */
    method DeleteEmployee(table: Table<Employee>, employeeId: string, updateFails: bool, reloadFails: bool)
      modifies this, table
      ensures table.rows == if updateFails then old(table.rows)
                            else Updated(old(table.rows), HasId(employeeId), Deactivate)
      ensures |table.rows| == |old(table.rows)|
      ensures updateFails ==> employees == old(employees) && loading == old(loading)
      ensures !updateFails ==> !loading
      ensures !updateFails ==>
                employees == if reloadFails then old(employees) else StaffByNewest(table.rows, establishmentId)
      ensures !updateFails && !reloadFails ==> forall e :: e in employees ==> e.id != employeeId
      ensures form == old(form) && editingEmployee == old(editingEmployee)
      ensures showAddModal == old(showAddModal)
    {
      table.Update(HasId(employeeId), Deactivate, updateFails);
      if updateFails {
        return;
      }
      SoftDeleteHides(old(table.rows), employeeId, establishmentId);
      LoadEmployees(table, reloadFails);
    }
  }
}
