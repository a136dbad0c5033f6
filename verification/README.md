# Magic On Tap dashboard: the rules behind its screens and invite functions

The dashboard is a React single-page application over a hosted database,
plus two edge functions that ask the identity provider to email an invite.
It has no algorithmic core. What it has is a set of small rules inside event
handlers. This project pulls each rule out as a pure Dafny function over
immutable records and sequences, and proves what the screens promise about
it:

- **Keyword codec** of the profile editor (`EditProfile`). Comma-separated
  text becomes a trimmed keyword list, and a list becomes text joined by
  `", "`. Also modelled: the form prefill from the stored profile and the
  update issued on submit.
- **Talking-point selection** (`TalkingPoints`). A checkbox toggles an id in
  a list used as a set. The approval post carries the selected points.
- **Article approval** (`SessionArticles`). A checkbox maps to the status
  `approved` or `draft`. The row update comes first. The next-workflow
  webhook is called only after an approval, and the list on screen is
  updated by id.
- **Invitations** (`InvitationsTable`). The form schema, the row inserted,
  the resend rule and the status badge.
- **Users** (`UsersTable`). The edit schema, the update by id, delete by id,
  the delete confirmation guard, and who sees the role field.
- **Password change** (`PasswordChange`). The form schema and what is sent
  to the auth update.
- **Invite edge functions** (`SendInvitation`, `SentInvitation`). Each is a
  decision function from a request and the provider's reply to the provider
  call made and the response returned. `send-invitation` also answers CORS
  preflights. This is a simplified form of the CORS protocol (section 3.2 of
  the WHATWG Fetch Standard): the answer allows every origin and the listed
  request headers, but names no allowed methods.

Shared modules:

- `Wrappers` holds `Option` and `Result`.
- `Seqs` holds an order-preserving `Filter` and occurrence counting.
- `Text` holds JavaScript `trim`, `split`, `join` and UTF-16 `length`.
- `Json` holds parsed JSON values, member access and truthiness.
- `Http` holds requests, responses and the provider's invite endpoint.
- `Schema` holds the database rows and the `user_role` enum.

The database, the webhooks and the identity provider are not modelled as
services. A table is a sequence of rows. The result of each outside call
(store error, webhook ok, provider reply) is an input parameter.

Three facts about the code shape the model:

- There is no duplicate check on invitations. The insert at
  src/components/InvitationsTable.tsx:80-88 is unconditional (see
  `InvitationsTable.SubmitAddsPending`). The edge functions only call the
  provider and never touch the invitations table.
- The preflight answer allows every origin and names no allowed methods.
- Configuration is read with the non-null assertion `!` and never checked.

## Model

| member | source | states |
|---|---|---|
| Text.LeadingSpace | src/pages/EditProfile.tsx:111 | the count of leading characters that are all whitespace and are followed by a non-whitespace character or the end |
| Text.TrailingSpace | src/pages/EditProfile.tsx:111 | the count of trailing characters that are all whitespace and are preceded by a non-whitespace character or the start |
| Text.Trim | src/pages/EditProfile.tsx:111 | the result has no whitespace at either end; it is the slice of the input that starts right after the leading whitespace, with only whitespace before it and after it |
| Text.TrimTrimmed | src/pages/EditProfile.tsx:111 | trimming a string that is already trimmed leaves it unchanged |
| Text.JoinFirst | src/pages/EditProfile.tsx:97 | the join of no parts is empty, and the first part begins the join |
| Text.JoinChars | src/pages/EditProfile.tsx:97 | every character of a join comes from one of the parts or from the separator |
| Text.Split | src/pages/EditProfile.tsx:111 | splitting at a character gives one piece more than the input has separators, no piece contains the separator, and joining the pieces with it restores the input |
| Text.SplitJoin | src/pages/EditProfile.tsx:111 | splitting the join of a non-empty list of separator-free pieces gives back that list |
| Text.Utf16Length | src/components/PasswordChangeForm.tsx:21-22 | the JavaScript length of a string is between its number of characters and twice that |
| Seqs.Filter | src/components/TalkingPointsDialog.tsx:69 | filtering keeps exactly the elements that pass the test, and every kept element passes |
| Seqs.FilterConcat | src/components/TalkingPointsDialog.tsx:86-88 | filtering a concatenation gives the kept part of the first sequence followed by the kept part of the second, so order is preserved |
| Seqs.FilterCounts | src/components/UsersTable.tsx:144-147 | a kept value keeps every one of its occurrences and a dropped value keeps none |
| Seqs.FilterNoDuplicates | src/components/TalkingPointsDialog.tsx:69 | filtering a duplicate-free sequence gives a duplicate-free sequence |
| Schema.ParseRole | src/components/InvitationsTable.tsx:50-52 | a role string is accepted iff it is customer, admin or superadmin, and then it parses to the role with that spelling |
| EditProfile.ParseKeywords | src/pages/EditProfile.tsx:111 | absent or empty text gives no list (null, not an empty list); otherwise there are as many keywords as commas plus one, and each keyword is the trimmed piece between commas, in input order, with no comma and no surrounding whitespace |
| EditProfile.FormatKeywords | src/pages/EditProfile.tsx:97 | no stored list shows as empty text; a list shows as its keywords joined with ", " |
| EditProfile.KeywordsRoundTrip | src/pages/EditProfile.tsx:97-111 | formatting a list of comma-free, trimmed keywords (other than the empty list and the list of one empty keyword) and parsing the text back gives the same list |
| EditProfile.EmptyListBecomesNull | src/pages/EditProfile.tsx:97-111 | a stored empty keyword list shows as empty text and is written back as null |
| EditProfile.IsValid | src/pages/EditProfile.tsx:25-38 | the profile form is accepted iff both names are non-empty, since a minimum of one UTF-16 unit means at least one character, and the email is well formed |
| EditProfile.Prefill | src/pages/EditProfile.tsx:86-99 | the form shows the stored names; a missing optional field shows as ""; a missing profile email falls back to the signed-in user's email, then to "" |
| EditProfile.UpdateFor | src/pages/EditProfile.tsx:107-112 | the update copies every non-keyword form field unchanged and stores the keyword text parsed into a list |
| EditProfile.Submit | src/pages/EditProfile.tsx:104-112 | an invalid form issues nothing; with no signed-in user the submission fails before any update; otherwise the update is issued for the signed-in user's auth id |
| EditProfile.SaveUnchanged | src/pages/EditProfile.tsx:86-112 | saving the prefilled form unchanged writes back the stored names, email, role and keywords (when storable), and turns each missing optional field (phone, industry, subject matter, audience, USP, writing style, bio) into "" |
| TalkingPoints.Toggle | src/components/TalkingPointsDialog.tsx:66-74 | after toggling an id it is selected iff it was not before; every other id keeps its membership; an unselected id is appended at the end |
| TalkingPoints.ToggleRemoves | src/components/TalkingPointsDialog.tsx:69 | toggling a selected id removes it and leaves the ids before it followed by the ids after it, in their order |
| TalkingPoints.ToggleTwice | src/components/TalkingPointsDialog.tsx:66-74 | toggling an unselected id twice restores the selection exactly |
| TalkingPoints.ToggleFlips | src/components/TalkingPointsDialog.tsx:66-74 | one toggle flips the membership of the toggled id and of no other |
| TalkingPoints.ToggleNoDuplicates | src/components/TalkingPointsDialog.tsx:66-74 | a toggle keeps a duplicate-free selection duplicate-free |
| TalkingPoints.ClicksKeepNoDuplicates | src/components/TalkingPointsDialog.tsx:37-74 | starting from a duplicate-free selection, such as the initial empty one, any sequence of toggles keeps it duplicate-free |
| TalkingPoints.ClicksParity | src/components/TalkingPointsDialog.tsx:66-74 | after a sequence of toggles an id is selected iff its initial membership differs from whether it was toggled an odd number of times |
| TalkingPoints.ApprovedPoints | src/components/TalkingPointsDialog.tsx:86-88 | the points sent are exactly the fetched points whose id is selected, with their multiplicities; with no points fetched none are sent |
| TalkingPoints.ApprovedPointsInOrder | src/components/TalkingPointsDialog.tsx:86-88 | the approved points keep the fetched order |
| TalkingPoints.SaveApprovals | src/components/TalkingPointsDialog.tsx:76-108 | with no article id nothing happens; with no user it fails before posting; otherwise it posts the article id, user id and approved points |
| SessionArticles.StatusFor | src/pages/PRSessionDetails.tsx:142-147 | checking asks for "approved" and unchecking for "draft" |
| SessionArticles.ShowsChecked | src/pages/PRSessionDetails.tsx:314 | a row's checkbox is checked iff its status is the one a check requests; a draft row shows unchecked |
| SessionArticles.SetStatus | src/pages/PRSessionDetails.tsx:128-134 | the list keeps its length and order; an article with the id gets the new status and keeps all its other fields; every other article is unchanged |
| SessionArticles.CheckboxShowsRequest | src/pages/PRSessionDetails.tsx:313-315 | after a successful change the article's checkbox shows the requested state, and every other row shows what it showed before |
| SessionArticles.LastStatusWins | src/pages/PRSessionDetails.tsx:128-134 | setting a status twice is the same as setting the second one |
| SessionArticles.ChangeStatus | src/pages/PRSessionDetails.tsx:96-140 | a failed row update is reported before any webhook call and leaves rows and list unchanged; the webhook is attempted iff the update succeeded and the new status is approved; a failing webhook only warns, and the mutation still succeeds and updates the list |
| InvitationsTable.IssueMessage | src/components/InvitationsTable.tsx:49-51 | a bad email and a missing role each get their own non-empty message, and only a role outside the enum has none of the form's own |
| InvitationsTable.IssueMessagesDistinct | src/components/InvitationsTable.tsx:49-51 | two issues with the same message of the form are the same issue |
| InvitationsTable.Validate | src/components/InvitationsTable.tsx:48-53 | a submission is accepted iff the email is well formed and the role is one of the three; each failing field is reported |
| InvitationsTable.DefaultRoleIsCustomer | src/components/InvitationsTable.tsx:104-110 | the form opens with an empty email and the customer role |
| InvitationsTable.NewRow | src/components/InvitationsTable.tsx:80-88 | the inserted row carries the submitted email and role and always has status "pending" |
| InvitationsTable.Submit | src/components/InvitationsTable.tsx:78-114 | a refused form inserts nothing; a failed insert keeps the table and form; a successful one appends the new row and resets the form to its defaults |
| InvitationsTable.SubmitAddsPending | src/components/InvitationsTable.tsx:80-88 | a successful submission adds one pending invitation for its email even when one is already pending, since there is no duplicate check |
| InvitationsTable.NewRowResendable | src/components/InvitationsTable.tsx:262 | a freshly created invitation can be resent |
| InvitationsTable.ResendEnabled | src/components/InvitationsTable.tsx:262 | the resend button is enabled iff the row shows the yellow Pending badge |
| InvitationsTable.Resend | src/components/InvitationsTable.tsx:116-118 | resend changes no invitation; it reports success iff the invitation is pending, which is when the button is enabled, with the message "Invitation resent to " followed by the email and "!" |
| InvitationsTable.StatusBadge | src/components/InvitationsTable.tsx:120-131 | pending, accepted and expired get fixed labels and colours; any other status is shown verbatim with the plain style |
| InvitationsTable.StatusBadgeInjective | src/components/InvitationsTable.tsx:120-131 | two different statuses never get the same badge |
| UsersTable.Validate | src/components/UsersTable.tsx:57-62 | an edit is accepted iff both names are non-empty and the role is one of the three; each failing field is reported |
| UsersTable.Patched | src/components/UsersTable.tsx:118-123 | an edit sets first name, last name and role, sets the phone when given, and keeps every other column |
| UsersTable.PatchRows | src/components/UsersTable.tsx:116-124 | the edit applies to exactly the rows with the selected id; the other rows and the order are unchanged |
| UsersTable.Update | src/components/UsersTable.tsx:112-130 | with no selected user nothing is written; a store error is reported and nothing changes; otherwise only the selected user's rows are edited |
| UsersTable.Delete | src/components/UsersTable.tsx:141-151 | deleting removes exactly the rows whose id is the chosen one, and keeps every occurrence of every other row |
| UsersTable.DeleteKeepsOrder | src/components/UsersTable.tsx:144-147 | the rows left keep their order |
| UsersTable.ConfirmDelete | src/components/UsersTable.tsx:189-193 | with no user pending deletion no delete is issued; otherwise that user's id is deleted |
| UsersTable.ConfirmedUserGone | src/components/UsersTable.tsx:189-193 | after a confirmed delete succeeds the user pending deletion is no longer in the table, and every user with another id is kept as often as before |
| UsersTable.Prefill | src/components/UsersTable.tsx:173-182 | the edit form shows the user's names and role, with a missing phone as "" |
| UsersTable.ShowsRoleSelector | src/components/UsersTable.tsx:320 | the role field is offered iff the signed-in user's row has exactly the admin role |
| UsersTable.EditedForm | src/components/UsersTable.tsx:320-346 | the submitted form carries the typed names and phone; the chosen role only when the role field is shown and a role was chosen, and otherwise a role that parses to the user's current role |
| UsersTable.HiddenSelectorKeepsRole | src/components/UsersTable.tsx:320-346 | without the role field, an edit with both names filled in is accepted and writes the user's existing role back |
| UsersTable.SuperadminCannotChangeRoles | src/components/UsersTable.tsx:320 | a superadmin is not offered the role field |
| UsersTable.SaveUnchanged | src/components/UsersTable.tsx:173-182 | saving the edit dialog unchanged writes the user's own values back, turning only a missing phone into "" |
| PasswordChange.Issues | src/components/PasswordChangeForm.tsx:20-26 | the schema reports no complaint iff both entries are at least 6 UTF-16 units and equal; it reports a short entry on its own field, and a mismatch on confirmPassword with "Passwords don't match", even when that entry is also short |
| PasswordChange.Submit | src/components/PasswordChangeForm.tsx:45-62 | a refused form sends nothing; an accepted one sends exactly the new password; after a successful update the form is reset to empty fields |
| PasswordChange.AcceptedIff | src/components/PasswordChangeForm.tsx:20-26 | a submission is accepted iff both entries have at least 6 units and are equal; a new password under 6 is never sent |
| PasswordChange.BmpLength | src/components/PasswordChangeForm.tsx:21-22 | for characters of the Basic Multilingual Plane the minimum counts characters |
| PasswordChange.ShortNeverAccepted | src/components/PasswordChangeForm.tsx:21 | a new password of two characters or fewer is never sent, whatever their encoding |
| PasswordChange.ResetFormRefused | src/components/PasswordChangeForm.tsx:37-56 | the form left after a successful change is empty and would be refused if resubmitted |
| Json.Lookup | supabase/functions/send-invitation/index.ts:17 | member access yields the value of the last member with that key, and none when no member has it |
| Json.Field | supabase/functions/send-invitation/index.ts:17 | member access on a non-object is undefined; on an object it is defined iff some member has the key, and then it is the value of the last such member |
| Json.Truthy | supabase/functions/send-invitation/index.ts:19 | a value is falsy iff it is undefined, null, false, 0 or the empty string |
| Json.OrElse | supabase/functions/send-invitation/index.ts:41 | `v \|\| fallback` is v when v is truthy and the fallback otherwise |
| Http.IsOk | supabase/functions/send-invitation/index.ts:47 | a reply is ok iff its status is in the 2xx class |
| Http.InviteCallFor | supabase/functions/send-invitation/index.ts:39-42 | the provider is sent the request's email as given, and redirectTo when it is truthy in the JavaScript sense, otherwise the fixed sign-in URL |
| Http.ProviderError | supabase/functions/send-invitation/index.ts:48 | the forwarded error is the provider's message when present and non-empty, otherwise "Invite failed", so it is never empty |
| Http.InvitedDocument | supabase/functions/send-invitation/index.ts:57 | the success document has status "invited" and wraps the provider's data as user |
| Http.ErrorDocument | supabase/functions/send-invitation/index.ts:20 | the error document carries the message under error |
| SendInvitation.Handle | supabase/functions/send-invitation/index.ts:9-63 | a preflight gets an empty response with the CORS headers and sends no invite; a missing email gets 400 "Missing email" and sends no invite; otherwise exactly one invite is sent, and a provider failure is forwarded with the provider's status while a success gets the default status wrapping the provider data |
| SendInvitation.EveryResponseHasCors | supabase/functions/send-invitation/index.ts:11-62 | every response the handler itself returns carries the CORS headers, and every one of them other than the preflight answer declares JSON |
| SendInvitation.ErrorsAreExplained | supabase/functions/send-invitation/index.ts:19-55 | every error response names a non-empty error, with status 400 before the provider is called and the provider's status after |
| SentInvitation.Handle | supabase/functions/sent-invitation/index.ts:3-35 | a missing email gets plain-text 400 "Missing email" and makes no provider call; otherwise exactly one call is made; a failure is returned as plain text with the provider's status; a success returns JSON with status "invited" wrapping the provider data |
| SentInvitation.MethodIgnored | supabase/functions/sent-invitation/index.ts:3-4 | the method is never inspected, so a preflight is handled as an invite request |
| SentInvitation.AgreesWithSendInvitation | supabase/functions/sent-invitation/index.ts:3-35 | on every non-preflight request both functions make the same provider call and return the same status; only the error bodies are plain text |

## Left out

- Database, network and provider calls are not modelled as services. This
  covers Supabase queries and mutations, react-query caching and
  invalidation, the webhook `fetch` calls, and the provider's invite
  endpoint. Tables are sequences of rows, and each call's result is an
  input parameter.
- Each database-generated column of a new invitation (id, created_at,
  expires_at, invited_by) is an input, `InvitationsTable.Generated`.
- Rendering, toasts, navigation, dialog open/close state, loading states
  and the `isPending` button disabling are UI plumbing or concurrency.
- The profile update is modelled as the update it issues. Applying it to
  the `users` row, and the database refusing a role outside the enum, are
  the database's behaviour.
- The email-shape check of the form schemas is the schema library's
  behaviour. It is a predicate parameter, `isEmail`.
- The schema library's own wording for a role outside the enum is not
  modelled (`InvitationsTable.IssueMessage` gives `None`).
- JavaScript `trim` removes a fixed set of code points: the ECMAScript
  WhiteSpace and LineTerminator characters listed in `Text.IsWhitespace`.
- Strings are sequences of Unicode scalar values. JavaScript strings that
  contain an unpaired surrogate are not modelled, so `trim`, `split`, the
  UTF-16 length and the schemas' minimums are stated for well-formed text
  only.
- JSON numbers are integers. Floating point and NaN are not modelled.
- In `sent-invitation`, a non-string error message is handed to the
  response as a value (`Http.PlainText`). Its conversion to text by the
  runtime is not modelled.
- A request body that is not JSON, or is JSON `null`, throws outside any
  handler branch. Such a body is read as having no fields. A provider
  reply whose body is not JSON also throws, and is not modelled.
- SendInvitation.EveryResponseHasCors: covers only the responses the
  handler returns. A throw ends in the runtime's own 500 response, which has
  no CORS headers. The throwing paths are `req.json()` on an empty, null or
  non-JSON body (send-invitation/index.ts:17), a provider `fetch` rejected by
  a network failure (:32), and `response.json()` on a non-JSON reply (:45).
  None of them is modelled.
- SentInvitation.MethodIgnored: a real preflight has no body, so
  `req.json()` throws at sent-invitation/index.ts:4 before the email check.
  The 400 answer the model gives it holds only under the convention above
  that an unreadable body has no fields. A provider `fetch` rejected by a
  network failure (:13) is not modelled either.
- Configuration (the provider URL and service key) is not read. The code
  does not check it.
- A failing `getUser` call in the talking-points dialog is left out. A
  missing user is modelled.
- Dashboard, statistics, sidebar, routing and the other screens are not
  part of this model. They hold display fallbacks, static demo data and a
  floating-point percentage.
