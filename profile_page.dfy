/** The super-admin profile page (src/components/SuperAdminProfile.tsx):
    editing name and e-mail, which sends only what changed, and the
    change-password form's checks. */
module ProfilePage {
  import opened Js
  import SuperAdmins
  import opened PasswordForm

  /** The loaded profile's editable part. */
  datatype Profile = Profile(fullName: string, email: string)

  /** The `updateData` object: a property is present only when sent. */
  datatype ProfileUpdate = ProfileUpdate(fullName: Field, email: Field)

  /** The `changeSuperAdminPassword` call's body. */
  datatype PasswordChange = PasswordChange(currentPassword: string, newPassword: string)

  const MinLength: nat := 8
  const UpdatedMessage: string := "Profile updated successfully"
  const PasswordChangedMessage: string := "Password changed successfully"
  const UpdateFailedMessage: string := "Failed to update profile"
  const ChangeFailedMessage: string := "Failed to change password"

  /** The text shown for each of the form's rejections. */
  function FormErrorMessage(e: FormError): string {
    match e
    case TooShort => "New password must be at least 8 characters long"
    case Mismatch => "Passwords do not match"
  }

  /** `profile?.x`: undefined while no profile is loaded. */
  function Loaded(profile: Option<Profile>, name: bool): Field {
    if profile.None? then Absent
    else if name then Given(profile.value.fullName) else Given(profile.value.email)
  }

  /** The fields whose edited value differs from the loaded profile. With no
      profile loaded both differ, since a string is never `undefined`. */
  function ProfileDiff(profile: Option<Profile>, editedName: string, editedEmail: string): (u: ProfileUpdate)
    ensures u.fullName.Given? <==> Loaded(profile, true) != Given(editedName)
    ensures u.email.Given? <==> Loaded(profile, false) != Given(editedEmail)
    ensures u.fullName.Given? ==> u.fullName.text == editedName
    ensures u.email.Given? ==> u.email.text == editedEmail
  {
    ProfileUpdate(if Loaded(profile, true) != Given(editedName) then Given(editedName) else Absent,
                  if Loaded(profile, false) != Given(editedEmail) then Given(editedEmail) else Absent)
  }

  /** What a partial update does to a profile: the fields it carries
      replace the old values. */
  function ApplyUpdate(p: Profile, u: ProfileUpdate): Profile {
    Profile(if u.fullName.Given? then u.fullName.text else p.fullName,
            if u.email.Given? then u.email.text else p.email)
  }

  /** Sending the diff turns the loaded profile into the edited values, and
      the diff is empty exactly when nothing was edited. */
  lemma DiffRoundTrip(p: Profile, editedName: string, editedEmail: string)
    ensures ApplyUpdate(p, ProfileDiff(Some(p), editedName, editedEmail)) == Profile(editedName, editedEmail)
    ensures ProfileDiff(Some(p), editedName, editedEmail) == ProfileUpdate(Absent, Absent)
      <==> p == Profile(editedName, editedEmail)
  {
  }

  /** The change-password form's checks, with its 8-character minimum. */
  function PasswordProblem(newPassword: string, confirmPassword: string): Option<FormError> {
    Problem(MinLength, newPassword, confirmPassword)
  }

  /** A new password the form lets through passes the backend's own length
      check for a password change. */
  lemma FormPasswordMeetsBackend(newPassword: string, confirmPassword: string)
    requires PasswordProblem(newPassword, confirmPassword).None?
    ensures Utf16Length(newPassword) >= SuperAdmins.MinPasswordLength
    ensures Truthy(Given(newPassword))
  {
  }

  /** How the profile update call ends: the server's updated profile, or a
      throw as for any other call. */
  datatype UpdateCall = UpdatedTo(profile: Profile) | UpdateThrew(message: Option<string>)

  /** How the password change call ends. */
  datatype ChangeCall = Changed | ChangeThrew(message: Option<string>)

  class ProfileState {
    var profile: Option<Profile>
    var isEditing: bool
    var error: Option<string>
    var successMessage: Option<string>
    var editedName: string
    var editedEmail: string
    var updateLoading: bool
    var currentPassword: string
    var newPassword: string
    var confirmPassword: string
    var passwordLoading: bool
    var passwordError: Option<string>

    constructor()
      ensures profile.None? && !isEditing && error.None? && successMessage.None?
      ensures editedName == "" && editedEmail == "" && !updateLoading
      ensures currentPassword == "" && newPassword == "" && confirmPassword == ""
      ensures !passwordLoading && passwordError.None?
    {
      profile := None;
      isEditing := false;
      error := None;
      successMessage := None;
      editedName := "";
      editedEmail := "";
      updateLoading := false;
      currentPassword := "";
      newPassword := "";
      confirmPassword := "";
      passwordLoading := false;
      passwordError := None;
    }

    /** `handleEditToggle`: cancelling restores the edited values from the
        profile (or "" without one); either way the mode flips and the error
        clears. */
    method HandleEditToggle()
      modifies this`isEditing, this`editedName, this`editedEmail, this`error
      ensures isEditing == !old(isEditing) && error.None?
      ensures old(isEditing) ==>
        && editedName == (if profile.Some? then profile.value.fullName else "")
        && editedEmail == (if profile.Some? then profile.value.email else "")
      ensures !old(isEditing) ==> editedName == old(editedName) && editedEmail == old(editedEmail)
    {
      if isEditing {
        editedName := if profile.Some? then profile.value.fullName else "";
        editedEmail := if profile.Some? then profile.value.email else "";
      }
      isEditing := !isEditing;
      error := None;
    }

    /** `handleUpdateProfile`: send only the changed fields; with none,
        leave edit mode without a request. */
    method HandleUpdateProfile(service: UpdateCall) returns (request: Option<ProfileUpdate>)
      modifies this`error, this`updateLoading, this`isEditing, this`profile, this`successMessage
      ensures !updateLoading
      ensures var diff := ProfileDiff(old(profile), editedName, editedEmail);
        && (diff == ProfileUpdate(Absent, Absent) ==>
              && request.None? && !isEditing && error.None?
              && profile == old(profile) && successMessage == old(successMessage))
        && (diff != ProfileUpdate(Absent, Absent) ==>
              && request == Some(diff)
              && (service.UpdatedTo? ==>
                    && profile == Some(service.profile) && !isEditing && error.None?
                    && successMessage == Some(UpdatedMessage))
              && (service.UpdateThrew? ==>
                    && profile == old(profile) && isEditing == old(isEditing)
                    && successMessage == old(successMessage)
                    && error == Some(if service.message.Some? then service.message.value else UpdateFailedMessage)))
    {
      error := None;
      updateLoading := true;
      var diff := ProfileDiff(profile, editedName, editedEmail);
      if diff == ProfileUpdate(Absent, Absent) {
        isEditing := false;
        updateLoading := false;
        return None;
      }
      request := Some(diff);
      if service.UpdatedTo? {
        profile := Some(service.profile);
        isEditing := false;
        successMessage := Some(UpdatedMessage);
      } else {
        error := Some(if service.message.Some? then service.message.value else UpdateFailedMessage);
      }
      updateLoading := false;
    }

    /** `handleChangePassword`: the form's checks, then the call; success
        clears all three inputs. */
    method HandleChangePassword(service: ChangeCall) returns (request: Option<PasswordChange>)
      modifies this`passwordError, this`passwordLoading, this`successMessage,
               this`currentPassword, this`newPassword, this`confirmPassword
      ensures var problem := PasswordProblem(old(newPassword), old(confirmPassword));
        && (request.Some? <==> problem.None?)
        && (problem.Some? ==>
              && passwordError == Some(FormErrorMessage(problem.value))
              && passwordLoading == old(passwordLoading) && successMessage == old(successMessage)
              && currentPassword == old(currentPassword) && newPassword == old(newPassword)
              && confirmPassword == old(confirmPassword))
        && (problem.None? ==>
              && request == Some(PasswordChange(old(currentPassword), old(newPassword)))
              && !passwordLoading
              && (service.Changed? ==>
                    && currentPassword == "" && newPassword == "" && confirmPassword == ""
                    && successMessage == Some(PasswordChangedMessage) && passwordError.None?)
              && (service.ChangeThrew? ==>
                    && currentPassword == old(currentPassword) && newPassword == old(newPassword)
                    && confirmPassword == old(confirmPassword) && successMessage == old(successMessage)
                    && passwordError == Some(if service.message.Some? then service.message.value else ChangeFailedMessage)))
    {
      passwordError := None;
      var problem := PasswordProblem(newPassword, confirmPassword);
      if problem.Some? {
        passwordError := Some(FormErrorMessage(problem.value));
        return None;
      }
      passwordLoading := true;
      request := Some(PasswordChange(currentPassword, newPassword));
      if service.Changed? {
        successMessage := Some(PasswordChangedMessage);
        currentPassword := "";
        newPassword := "";
        confirmPassword := "";
      } else {
        passwordError := Some(if service.message.Some? then service.message.value else ChangeFailedMessage);
      }
      passwordLoading := false;
    }
  }
}
