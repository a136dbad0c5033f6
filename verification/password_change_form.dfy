/** The password change form: its schema, the value handed to the password
    update, and the reset after success. */
module PasswordChange {
  import opened Wrappers
  import opened Text

  datatype PasswordForm = PasswordForm(newPassword: string, confirmPassword: string)

  /** The form as it opens, and as it is reset. */
  const EmptyForm := PasswordForm("", "")

  /** The fewest UTF-16 code units a password may have. */
  const MinLength := 6

  const TooShort := "Password must be at least 6 characters"
  const Mismatch := "Passwords don't match"

  datatype Field = NewPassword | ConfirmPassword

  /** A schema complaint, attached to one field. */
  datatype Issue = Issue(field: Field, message: string)

  /** The complaints the schema reports: each field shorter than the minimum,
      and, checked as well, the confirmation differing from the new password.
      The form displays only the first complaint of each field. */
  function Issues(f: PasswordForm): (r: seq<Issue>)
    ensures r == [] <==> Utf16Length(f.newPassword) >= MinLength && Utf16Length(f.confirmPassword) >= MinLength
                          && f.newPassword == f.confirmPassword
    ensures Issue(NewPassword, TooShort) in r <==> Utf16Length(f.newPassword) < MinLength
    ensures Issue(ConfirmPassword, TooShort) in r <==> Utf16Length(f.confirmPassword) < MinLength
    ensures Issue(ConfirmPassword, Mismatch) in r <==> f.newPassword != f.confirmPassword
    ensures forall i :: 0 <= i < |r| ==> r[i] in [Issue(NewPassword, TooShort), Issue(ConfirmPassword, TooShort), Issue(ConfirmPassword, Mismatch)]
  {
    (if Utf16Length(f.newPassword) < MinLength then [Issue(NewPassword, TooShort)] else [])
    + (if Utf16Length(f.confirmPassword) < MinLength then [Issue(ConfirmPassword, TooShort)] else [])
    + (if f.newPassword != f.confirmPassword then [Issue(ConfirmPassword, Mismatch)] else [])
  }

  /** The effect of submitting the form. */
  datatype Outcome = Outcome(
    sent: Option<string>,       // the password handed to the auth update, if any
    form: PasswordForm,         // the form afterwards
    issues: seq<Issue>,         // the schema's complaints
    failed: bool)               // whether "Failed to update password" was reported

  /** Submitting: a refused form issues nothing; an accepted one hands the
      new password to the auth update and, when that succeeds, resets the
      form. `authError` is the update's error, if any. */
  function Submit(f: PasswordForm, authError: Option<string>): (o: Outcome)
    ensures o.sent.Some? <==> Issues(f) == []
    ensures o.sent.Some? ==> o.sent.value == f.newPassword
    ensures o.issues == Issues(f)
    ensures o.failed <==> o.sent.Some? && authError.Some?
    ensures o.form == if o.sent.Some? && authError.None? then EmptyForm else f
  {
    var issues := Issues(f);
    if issues != [] then Outcome(None, f, issues, false)
    else if authError.Some? then Outcome(Some(f.newPassword), f, [], true)
    else Outcome(Some(f.newPassword), EmptyForm, [], false)
  }

  /** A submission is accepted exactly when both entries are at least six
      characters long and equal; a new password under six characters is
      never sent. */
  lemma AcceptedIff(f: PasswordForm, authError: Option<string>)
    ensures Submit(f, authError).sent.Some? <==>
      Utf16Length(f.newPassword) >= 6 && Utf16Length(f.confirmPassword) >= 6 && f.newPassword == f.confirmPassword
    ensures Utf16Length(f.newPassword) < 6 ==> Submit(f, authError).sent.None?
  {
  }

  /** Strings of characters from the Basic Multilingual Plane have one
      UTF-16 code unit per character. */
  lemma {:induction false} BmpLength(s: string)
    requires forall i :: 0 <= i < |s| ==> s[i] as int <= 0xFFFF
    ensures Utf16Length(s) == |s|
  {
    if |s| > 0 {
      BmpLength(s[1..]);
    }
  }

  /** Two characters or fewer never make a valid password, whatever their
      encoding: each takes at most two UTF-16 units. */
  lemma ShortNeverAccepted(f: PasswordForm, authError: Option<string>)
    requires |f.newPassword| < 3
    ensures Submit(f, authError).sent.None?
  {
  }

  /** The form left after a successful change is refused as it stands: the
      reset does not leave a password that could be resubmitted. */
  lemma ResetFormRefused(f: PasswordForm)
    requires Submit(f, None).sent.Some?
    ensures Submit(f, None).form == EmptyForm
    ensures Submit(Submit(f, None).form, None).sent.None?
    ensures Issue(NewPassword, TooShort) in Issues(Submit(f, None).form)
  {
  }
}
