/** The check both password forms of the front end run before they call
    the back end (src/components/SuperAdminProfile.tsx and
    src/components/ResetPasswordPage.tsx): the length first, then the
    confirmation. Only the minimum and the messages differ. */
module PasswordForm {
  import opened Js

  /** The form's own rejections, in the order checked. */
  datatype FormError = TooShort | Mismatch

  /** `newPassword.length < minLength`, then `newPassword !== confirmPassword`;
      the length is JavaScript's, in UTF-16 code units. */
  function Problem(minLength: nat, newPassword: string, confirmPassword: string): (e: Option<FormError>)
    ensures e == Some(TooShort) <==> Utf16Length(newPassword) < minLength
    ensures e == Some(Mismatch) <==> Utf16Length(newPassword) >= minLength && newPassword != confirmPassword
    ensures e.None? <==> Utf16Length(newPassword) >= minLength && newPassword == confirmPassword
  {
    if Utf16Length(newPassword) < minLength then Some(TooShort)
    else if newPassword != confirmPassword then Some(Mismatch)
    else None
  }

  /** A password the form lets through is never empty when a minimum is
      set, so the back end's "required" check passes too. */
  lemma AcceptedIsTruthy(minLength: nat, newPassword: string, confirmPassword: string)
    requires minLength > 0 && Problem(minLength, newPassword, confirmPassword).None?
    ensures Truthy(Given(newPassword)) && Truthy(Given(confirmPassword))
  {
  }
}
