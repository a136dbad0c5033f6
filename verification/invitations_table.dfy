/** The invitations screen: the invitation form and the row it inserts, the
    resend button, and the status badge. */
module InvitationsTable {
  import opened Wrappers
  import opened Seqs
  import opened Schema

  /** The values of the invitation form; the role may not have been chosen. */
  datatype InvitationForm = InvitationForm(email: string, role: Option<string>)

  /** The form as it opens, and as it is reset after a successful insert. */
  const DefaultForm := InvitationForm("", Some("customer"))

  /** Why the form schema refuses a submission. */
  datatype Issue = InvalidEmail | RoleMissing | RoleNotAllowed

  /** The message shown for an issue; a role outside the enum gets the
      schema library's own enum message. */
  function IssueMessage(i: Issue): (m: Option<string>)
    ensures m.None? <==> i == RoleNotAllowed
    ensures m.Some? ==> m.value != ""
  {
    match i
    case InvalidEmail => Some("Please enter a valid email address")
    case RoleMissing => Some("Please select a role")
    case RoleNotAllowed => None
  }

  /** The two messages of the form differ, so a message names its issue. */
  lemma IssueMessagesDistinct(i: Issue, j: Issue)
    requires IssueMessage(i).Some? && IssueMessage(i) == IssueMessage(j)
    ensures i == j
  {
  }

  /** A submission the schema accepted. */
  datatype ValidInvitation = ValidInvitation(email: string, role: Role)

  /** The form schema: a well-formed email (`isEmail` stands for the schema
      library's check) and one of the three roles. Every failing field is
      reported. */
  function Validate(f: InvitationForm, isEmail: string -> bool): (r: Result<ValidInvitation, seq<Issue>>)
    ensures r.Success? <==> isEmail(f.email) && f.role.Some? && ParseRole(f.role.value).Some?
    ensures r.Success? ==> r.value.email == f.email && RoleName(r.value.role) == f.role.value
    ensures r.Failure? ==> (InvalidEmail in r.error <==> !isEmail(f.email))
    ensures r.Failure? ==> (RoleMissing in r.error <==> f.role.None?)
    ensures r.Failure? ==> (RoleNotAllowed in r.error <==> f.role.Some? && ParseRole(f.role.value).None?)
  {
    var emailIssues := if isEmail(f.email) then [] else [InvalidEmail];
    var roleIssues :=
      if f.role.None? then [RoleMissing]
      else if ParseRole(f.role.value).None? then [RoleNotAllowed]
      else [];
    if emailIssues == [] && roleIssues == [] then
      Success(ValidInvitation(f.email, ParseRole(f.role.value).value))
    else
      Failure(emailIssues + roleIssues)
  }

  /** The form's initial role is the customer role. */
  lemma DefaultRoleIsCustomer()
    ensures DefaultForm.email == ""
    ensures ParseRole(DefaultForm.role.value) == Some(Customer)
  {
  }

  /** The columns the database fills in for a new row. */
  datatype Generated = Generated(id: string, createdAt: Option<string>, expiresAt: Option<string>, invitedBy: Option<string>)

  /** The row inserted for a valid submission: the submitted email and role,
      and always status pending. */
  function NewRow(v: ValidInvitation, g: Generated): (row: Invitation)
    ensures row.email == v.email && row.role == RoleName(v.role) && row.status == "pending"
    ensures row.id == g.id && row.createdAt == g.createdAt
  {
    Invitation(g.id, v.email, RoleName(v.role), "pending", g.createdAt, g.expiresAt, g.invitedBy)
  }

  /** The effect of submitting the invitation form. */
  datatype Submission = Submission(
    table: seq<Invitation>,      // the `invitations` rows afterwards
    form: InvitationForm,        // the form afterwards
    issues: seq<Issue>,          // what the schema refused, if anything
    error: Option<string>)       // the insert failure reported, if any

  /** Submitting the form: an accepted submission is inserted
      unconditionally (there is no check for an existing invitation to the
      same email); `storeError` is the insert's error, if any. */
  function Submit(table: seq<Invitation>, f: InvitationForm, isEmail: string -> bool,
                  g: Generated, storeError: Option<string>): (s: Submission)
    ensures Validate(f, isEmail).Failure? ==>
      s == Submission(table, f, Validate(f, isEmail).error, None)
    ensures Validate(f, isEmail).Success? && storeError.Some? ==>
      s == Submission(table, f, [], Some("Failed to send invitation: " + storeError.value))
    ensures Validate(f, isEmail).Success? && storeError.None? ==>
      s == Submission(table + [NewRow(Validate(f, isEmail).value, g)], DefaultForm, [], None)
  {
    match Validate(f, isEmail)
    case Failure(issues) => Submission(table, f, issues, None)
    case Success(v) =>
      if storeError.Some? then Submission(table, f, [], Some("Failed to send invitation: " + storeError.value))
      else Submission(table + [NewRow(v, g)], DefaultForm, [], None)
  }

  /** The pending invitations to `email`. */
  function PendingFor(table: seq<Invitation>, email: string): (r: seq<Invitation>) {
    Filter(table, (inv: Invitation) => inv.email == email && inv.status == "pending")
  }

  /** A successful submission adds one pending invitation for its email and
      keeps every earlier one, even when one is already pending. */
  lemma SubmitAddsPending(table: seq<Invitation>, f: InvitationForm, isEmail: string -> bool, g: Generated)
    requires Validate(f, isEmail).Success?
    ensures |PendingFor(Submit(table, f, isEmail, g, None).table, f.email)| == |PendingFor(table, f.email)| + 1
  {
    var row := NewRow(Validate(f, isEmail).value, g);
    FilterConcat(table, [row], (inv: Invitation) => inv.email == f.email && inv.status == "pending");
  }

  /** The resend button is enabled only for a pending invitation, which is
      exactly when the row shows the yellow Pending badge. */
  predicate ResendEnabled(inv: Invitation)
    ensures ResendEnabled(inv) <==> StatusBadge(inv.status).tone == Warning
  {
    inv.status == "pending"
  }

  /** A freshly created invitation can be resent. */
  lemma NewRowResendable(v: ValidInvitation, g: Generated)
    ensures ResendEnabled(NewRow(v, g))
  {
  }

  /** Pressing resend: a disabled button does nothing; an enabled one only
      reports success, leaving every invitation as it is. */
  function Resend(table: seq<Invitation>, inv: Invitation): (r: (seq<Invitation>, Option<string>))
    ensures r.0 == table
    ensures r.1.Some? <==> ResendEnabled(inv)
    ensures r.1.Some? ==> r.1.value == "Invitation resent to " + inv.email + "!"
  {
    if ResendEnabled(inv) then (table, Some("Invitation resent to " + inv.email + "!")) else (table, None)
  }

  /** The look of a status badge. */
  datatype Tone = Warning | Positive | Negative | Plain

  datatype Badge = Badge(text: string, tone: Tone)

  /** The badge for an invitation status: the three known statuses get a
      fixed label and colour, any other status is shown verbatim. */
  function StatusBadge(status: string): (b: Badge)
    ensures status == "pending" ==> b == Badge("Pending", Warning)
    ensures status == "accepted" ==> b == Badge("Accepted", Positive)
    ensures status == "expired" ==> b == Badge("Expired", Negative)
    ensures b.tone == Plain <==> status != "pending" && status != "accepted" && status != "expired"
    ensures b.tone == Plain ==> b.text == status
  {
    if status == "pending" then Badge("Pending", Warning)
    else if status == "accepted" then Badge("Accepted", Positive)
    else if status == "expired" then Badge("Expired", Negative)
    else Badge(status, Plain)
  }

  /** Different statuses never look alike: a status can be read back from
      its badge. */
  lemma StatusBadgeInjective(s: string, t: string)
    requires StatusBadge(s) == StatusBadge(t)
    ensures s == t
  {
  }
}
