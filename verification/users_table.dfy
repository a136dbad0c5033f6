/** The users screen: the edit dialog and the row update it issues, the
    delete confirmation, and who may change a role. */
module UsersTable {
  import opened Wrappers
  import opened Seqs
  import opened Schema

  /** The values of the edit form. */
  datatype UserForm = UserForm(firstName: string, lastName: string, phone: Option<string>, role: string)

  /** Why the form schema refuses a submission. */
  datatype Issue = FirstNameRequired | LastNameRequired | RoleNotAllowed

  /** The columns an accepted edit writes. An absent phone is left out of
      the written document, so the stored phone is kept. */
  datatype UserPatch = UserPatch(firstName: string, lastName: string, phone: Option<string>, role: Role)

  /** The form schema: both names non-empty and one of the three roles.
      Every failing field is reported. */
  function Validate(f: UserForm): (r: Result<UserPatch, seq<Issue>>)
    ensures r.Success? <==> f.firstName != "" && f.lastName != "" && ParseRole(f.role).Some?
    ensures r.Success? ==> r.value.firstName == f.firstName && r.value.lastName == f.lastName
    ensures r.Success? ==> r.value.phone == f.phone && RoleName(r.value.role) == f.role
    ensures r.Failure? ==> (FirstNameRequired in r.error <==> f.firstName == "")
    ensures r.Failure? ==> (LastNameRequired in r.error <==> f.lastName == "")
    ensures r.Failure? ==> (RoleNotAllowed in r.error <==> ParseRole(f.role).None?)
  {
    var issues :=
      (if f.firstName == "" then [FirstNameRequired] else [])
      + (if f.lastName == "" then [LastNameRequired] else [])
      + (if ParseRole(f.role).None? then [RoleNotAllowed] else []);
    if issues == [] then Success(UserPatch(f.firstName, f.lastName, f.phone, ParseRole(f.role).value))
    else Failure(issues)
  }

  /** One row with an edit applied: names, phone (when given) and role;
      every other column is kept. */
  function Patched(u: User, p: UserPatch): (v: User)
    ensures v.firstName == p.firstName && v.lastName == p.lastName && v.role == p.role
    ensures v.phone == (if p.phone.Some? then p.phone else u.phone)
    ensures v == u.(firstName := v.firstName, lastName := v.lastName, phone := v.phone, role := v.role)
  {
    u.(firstName := p.firstName, lastName := p.lastName,
       phone := if p.phone.Some? then p.phone else u.phone, role := p.role)
  }

  /** The update issued for the selected user: with no user selected
      nothing is written (and the mutation still resolves); otherwise the
      edit is applied to the rows with that user's id. `storeError` is the
      update's error, if any. */
  function Update(table: seq<User>, selected: Option<User>, p: UserPatch,
                  storeError: Option<string>): (r: Result<seq<User>, string>)
    ensures selected.None? ==> r == Success(table)
    ensures selected.Some? && storeError.Some? ==> r == Failure("Failed to update user: " + storeError.value)
    ensures selected.Some? && storeError.None? ==> r.Success?
    ensures r.Success? ==> |r.value| == |table|
    ensures r.Success? && selected.Some? ==> forall i :: 0 <= i < |table| ==>
      r.value[i] == if table[i].id == selected.value.id then Patched(table[i], p) else table[i]
  {
    if selected.None? then Success(table)
    else if storeError.Some? then Failure("Failed to update user: " + storeError.value)
    else Success(PatchRows(table, selected.value.id, p))
  }

  /** The rows with the edit applied to those with id `id`. */
  function PatchRows(table: seq<User>, id: string, p: UserPatch): (r: seq<User>)
    ensures |r| == |table|
    ensures forall i :: 0 <= i < |table| ==> r[i] == if table[i].id == id then Patched(table[i], p) else table[i]
  {
    if |table| == 0 then []
    else [if table[0].id == id then Patched(table[0], p) else table[0]] + PatchRows(table[1..], id, p)
  }

  /** The test that keeps every row whose id is not `id`. */
  function NotId(id: string): User -> bool {
    (u: User) => u.id != id
  }

  /** Deleting by id removes exactly the rows with that id, keeping the
      others in order; `storeError` is the delete's error, if any. */
  function Delete(table: seq<User>, id: string, storeError: Option<string>): (r: Result<seq<User>, string>)
    ensures storeError.Some? ==> r == Failure("Failed to delete user: " + storeError.value)
    ensures storeError.None? ==> r.Success?
    ensures r.Success? ==> forall u: User :: u in r.value <==> u in table && u.id != id
    ensures r.Success? ==> forall u: User :: u.id != id ==> Count(r.value, u) == Count(table, u)
  {
    if storeError.Some? then Failure("Failed to delete user: " + storeError.value)
    else
      forall u: User | u.id != id ensures Count(Filter(table, NotId(id)), u) == Count(table, u) {
        FilterCounts(table, NotId(id), u);
      }
      Success(Filter(table, NotId(id)))
  }

  /** Deleting keeps the order of the remaining rows. */
  lemma DeleteKeepsOrder(a: seq<User>, b: seq<User>, id: string)
    ensures Delete(a + b, id, None).value == Delete(a, id, None).value + Delete(b, id, None).value
  {
    FilterConcat(a, b, NotId(id));
  }

  /** Confirming the delete dialog: with no user pending deletion no delete
      is issued; otherwise that user's id is deleted. */
  function ConfirmDelete(table: seq<User>, pending: Option<User>, storeError: Option<string>): (r: Option<Result<seq<User>, string>>)
    ensures pending.None? <==> r.None?
    ensures pending.Some? ==> r == Some(Delete(table, pending.value.id, storeError))
  {
    match pending
    case None => None
    case Some(u) => Some(Delete(table, u.id, storeError))
  }

  /** Once a confirmed delete succeeds, the user pending deletion is gone
      from the table and every user with another id is kept as often as
      before. */
  lemma ConfirmedUserGone(table: seq<User>, u: User)
    ensures ConfirmDelete(table, Some(u), None).Some?
    ensures var r := ConfirmDelete(table, Some(u), None).value;
      && r.Success?
      && u !in r.value
      && forall v: User :: v.id != u.id ==> Count(r.value, v) == Count(table, v)
  {
  }

  /** The edit form as it opens for a user: the user's own values, with a
      missing phone shown as "". */
  function Prefill(u: User): (f: UserForm)
    ensures f.firstName == u.firstName && f.lastName == u.lastName && f.role == RoleName(u.role)
    ensures f.phone == Some(u.phone.GetOr(""))
  {
    UserForm(u.firstName, u.lastName, Some(u.phone.GetOr("")), RoleName(u.role))
  }

  /** The role field is offered only when the signed-in user's own row has
      the admin role; superadmins and unknown users do not get it. */
  function ShowsRoleSelector(current: Option<User>): (shown: bool)
    ensures shown ==> current.Some?
    ensures current.Some? ==> (shown <==> current.value.role == Admin)
  {
    current.Some? && current.value.role == Admin
  }

  /** What the user typed into the dialog; the role choice is only read
      when the role field is offered. */
  datatype Edits = Edits(firstName: string, lastName: string, phone: string, role: Option<string>)

  /** The form values submitted after editing the prefilled form of `u`. */
  function EditedForm(u: User, e: Edits, roleShown: bool): (f: UserForm)
    ensures f.firstName == e.firstName && f.lastName == e.lastName && f.phone == Some(e.phone)
    ensures roleShown && e.role.Some? ==> f.role == e.role.value
    ensures !(roleShown && e.role.Some?) ==> ParseRole(f.role) == Some(u.role)
  {
    var f := Prefill(u);
    UserForm(e.firstName, e.lastName, Some(e.phone),
             if roleShown && e.role.Some? then e.role.value else f.role)
  }

  /** Without the role field an edit cannot change a role: it is always
      accepted on the role and writes the user's existing role back. */
  lemma HiddenSelectorKeepsRole(table: seq<User>, u: User, e: Edits, current: Option<User>)
    requires !ShowsRoleSelector(current)
    requires e.firstName != "" && e.lastName != ""
    ensures Validate(EditedForm(u, e, ShowsRoleSelector(current))).Success?
    ensures Validate(EditedForm(u, e, ShowsRoleSelector(current))).value.role == u.role
  {
    assert ParseRole(RoleName(u.role)) == Some(u.role);
  }

  /** A superadmin sees no role field. */
  lemma SuperadminCannotChangeRoles(current: User)
    requires current.role == Superadmin
    ensures !ShowsRoleSelector(Some(current))
  {
  }

  /** Saving the dialog unchanged writes the user's own values back; only a
      missing phone becomes "". */
  lemma SaveUnchanged(table: seq<User>, u: User)
    requires u.firstName != "" && u.lastName != ""
    ensures Validate(Prefill(u)).Success?
    ensures Update(table, Some(u), Validate(Prefill(u)).value, None) ==
            Success(PatchRows(table, u.id, UserPatch(u.firstName, u.lastName, Some(u.phone.GetOr("")), u.role)))
    ensures Patched(u, Validate(Prefill(u)).value) == u.(phone := Some(u.phone.GetOr("")))
  {
    assert ParseRole(RoleName(u.role)) == Some(u.role);
  }
}
