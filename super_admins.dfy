/** The super-admin management routes (backend/routes/superAdmins.js):
    create with ordered validation, the two partial-update handlers, the
    guard against deleting the last active super-admin, password change,
    and the older single-token reset flow kept on the super_admins row. */
module SuperAdmins {
  import opened Js
  import opened EmailFormat
  import opened Store
  import opened SqlBuilder
  import AuthRoutes

  /** Minimum password length of these routes. */
  const MinPasswordLength: nat := 8

  /** Lifetime of a legacy reset token: one hour in milliseconds. */
  const LegacyResetExpiry: int := 3600000

  /** One constructor per error message of the routes. */
  datatype SuperAdminError =
    | FieldsRequired              // 'Email, password, and full name are required'
    | InvalidEmailFormat          // 'Invalid email format'
    | PasswordTooShort            // '(New) password must be at least 8 characters long'
    | EmailTaken                  // 'A super admin with this email already exists'
    | ProfileFieldRequired        // 'At least one field (email or full_name) is required'
    | NotFound                    // 'Super admin not found'
    | NoFieldsToUpdate            // 'No fields to update'
    | LastActiveSuperAdmin        // 'Cannot delete the last active super admin'
    | PasswordsRequired           // 'Current password and new password are required'
    | CurrentPasswordIncorrect    // 'Current password is incorrect'
    | EmailRequired               // 'Email is required'
    | ResetFieldsRequired         // 'Reset token and new password are required'
    | InvalidOrExpiredResetToken  // 'Invalid or expired reset token'
    | UpdateFailed                // the catch block: a UNIQUE violation on email

  function ErrorStatus(e: SuperAdminError): nat {
    match e
    case EmailTaken => 409
    case NotFound => 404
    case CurrentPasswordIncorrect => 401
    case UpdateFailed => 500
    case _ => 400
  }

  datatype Outcome<T> = Ok(value: T) | Err(error: SuperAdminError)

  /** The columns the create and PUT handlers return: never the hash. */
  datatype SuperAdminView = SuperAdminView(id: int, email: string, fullName: string, status: string, phone: Option<string>)

  /** The columns the profile update returns. */
  datatype ProfileView = ProfileView(id: int, email: string, fullName: string, lastLogin: Option<int>)

  /** The columns the delete returns. */
  datatype DeletedView = DeletedView(id: int, email: string, fullName: string)

  datatype Done = Done

  function ViewOf(id: int, row: SuperAdminRow): SuperAdminView {
    SuperAdminView(id, row.email, row.fullName, row.status, row.phone)
  }

  /** `SELECT id FROM super_admins WHERE email = $1 AND id != $2` finds a row. */
  predicate TakenByOther(m: map<int, SuperAdminRow>, email: string, id: int) {
    exists other :: other in m && other != id && m[other].email == email
  }

  // ---------------------------------------------------------------------
  // POST /

  /** POST /: `passwordHash` is the bcrypt hash of the password. */
  method CreateSuperAdmin(db: Database, email: Field, password: Field, fullName: Field, status: Field,
                          phone: Field, passwordHash: string)
    returns (r: Outcome<SuperAdminView>)
    requires db.Valid()
    modifies db`superAdmins, db`nextSuperAdminId
    ensures db.Valid()
    ensures !Truthy(email) || !Truthy(password) || !Truthy(fullName) ==> r == Err(FieldsRequired)
    ensures Truthy(email) && Truthy(password) && Truthy(fullName) ==>
      && (!MatchesEmailRegex(email.text) ==> r == Err(InvalidEmailFormat))
      && (MatchesEmailRegex(email.text) && Utf16Length(password.text) < MinPasswordLength ==> r == Err(PasswordTooShort))
      && ((MatchesEmailRegex(email.text) && Utf16Length(password.text) >= MinPasswordLength &&
           AuthRoutes.HasSuperAdminEmail(old(db.superAdmins), email.text)) ==> r == Err(EmailTaken))
    // every check passed: the row is inserted
    ensures Truthy(email) && Truthy(password) && Truthy(fullName) && MatchesEmailRegex(email.text) &&
            Utf16Length(password.text) >= MinPasswordLength &&
            !AuthRoutes.HasSuperAdminEmail(old(db.superAdmins), email.text) ==>
      r.Ok?
    ensures r.Err? ==>
      db.superAdmins == old(db.superAdmins) && db.nextSuperAdminId == old(db.nextSuperAdminId)
    ensures r.Ok? ==>
      && Truthy(email) && Truthy(password) && Truthy(fullName)
      && MatchesEmailRegex(email.text) && WellFormedEmail(email.text)
      && Utf16Length(password.text) >= MinPasswordLength
      && !AuthRoutes.HasSuperAdminEmail(old(db.superAdmins), email.text)
      && var id := old(db.nextSuperAdminId);
         var row := SuperAdminRow(email.text, passwordHash, fullName.text,
                                  if status.Given? then status.text else "active",
                                  if phone.Given? then Some(phone.text) else None,
                                  Some(0), None, None, None, None);
         && id !in old(db.superAdmins)
         && db.superAdmins == old(db.superAdmins)[id := row]
         && db.nextSuperAdminId == id + 1
         && r.value == ViewOf(id, row)
  {
    if !Truthy(email) || !Truthy(password) || !Truthy(fullName) {
      return Err(FieldsRequired);
    }
    if !MatchesEmailRegex(email.text) {
      return Err(InvalidEmailFormat);
    }
    if Utf16Length(password.text) < MinPasswordLength {
      return Err(PasswordTooShort);
    }
    if AuthRoutes.HasSuperAdminEmail(db.superAdmins, email.text) {
      return Err(EmailTaken);
    }
    RegexImpliesWellFormed(email.text);
    var id := db.nextSuperAdminId;
    var row := SuperAdminRow(email.text, passwordHash, fullName.text,
                             if status.Given? then status.text else "active",
                             if phone.Given? then Some(phone.text) else None,
                             Some(0), None, None, None, None);
    db.superAdmins := db.superAdmins[id := row];
    db.nextSuperAdminId := id + 1;
    r := Ok(ViewOf(id, row));
  }

  // ---------------------------------------------------------------------
  // Partial updates

  /** The assignment `column = value` on a super_admins row. */
  function SetColumn(row: SuperAdminRow, column: Column, value: string): SuperAdminRow {
    match column
    case EmailColumn => row.(email := value)
    case FullNameColumn => row.(fullName := value)
    case StatusColumn => row.(status := value)
    case PhoneColumn => row.(phone := Some(value))
    case _ => row
  }

  /** The intended effect of PUT /:id: every field that was sent replaces
      the stored one, every omitted field is kept. */
  function Patch(row: SuperAdminRow, email: Field, fullName: Field, status: Field, phone: Field): SuperAdminRow {
    row.(email := if email.Given? then email.text else row.email,
         fullName := if fullName.Given? then fullName.text else row.fullName,
         status := if status.Given? then status.text else row.status,
         phone := if phone.Given? then Some(phone.text) else row.phone)
  }

  function PutFields(email: Field, fullName: Field, status: Field, phone: Field): seq<(Column, Field)> {
    [(EmailColumn, email), (FullNameColumn, fullName), (StatusColumn, status), (PhoneColumn, phone)]
  }

  /** The fields of PUT /profile/me, assigned in order, amount to the
      same patch with status and phone omitted. */
  lemma ProfileAppliesPatch(row: SuperAdminRow, email: Field, fullName: Field)
    ensures Apply(row, Defined([(EmailColumn, email), (FullNameColumn, fullName)]), SetColumn)
         == Patch(row, email, fullName, Absent, Absent)
  {
    var f1 := [(EmailColumn, email)];
    assert f1 == [] + [(EmailColumn, email)];
    assert [(EmailColumn, email), (FullNameColumn, fullName)] == f1 + [(FullNameColumn, fullName)];
    ApplySuppliedStep(row, [], EmailColumn, email, SetColumn);
    ApplySuppliedStep(row, f1, FullNameColumn, fullName, SetColumn);
  }

  /** The first three fields of PUT /:id amount to the patch without the
      phone. */
  lemma PutPrefixAppliesPatch(row: SuperAdminRow, email: Field, fullName: Field, status: Field)
    ensures Apply(row, Defined([(EmailColumn, email), (FullNameColumn, fullName), (StatusColumn, status)]), SetColumn)
         == Patch(row, email, fullName, status, Absent)
  {
    var f2 := [(EmailColumn, email), (FullNameColumn, fullName)];
    assert [(EmailColumn, email), (FullNameColumn, fullName), (StatusColumn, status)] == f2 + [(StatusColumn, status)];
    ProfileAppliesPatch(row, email, fullName);
    ApplySuppliedStep(row, f2, StatusColumn, status, SetColumn);
  }

  /** The fields of PUT /:id, assigned in order, amount to the patch. */
  lemma PutAppliesPatch(row: SuperAdminRow, email: Field, fullName: Field, status: Field, phone: Field)
    ensures Apply(row, Defined(PutFields(email, fullName, status, phone)), SetColumn)
         == Patch(row, email, fullName, status, phone)
  {
    var f3 := [(EmailColumn, email), (FullNameColumn, fullName), (StatusColumn, status)];
    assert PutFields(email, fullName, status, phone) == f3 + [(PhoneColumn, phone)];
    PutPrefixAppliesPatch(row, email, fullName, status);
    ApplySuppliedStep(row, f3, PhoneColumn, phone, SetColumn);
  }

  /** A patch never touches the password, the counters or the lock. */
  lemma PatchKeepsCredentials(row: SuperAdminRow, email: Field, fullName: Field, status: Field, phone: Field)
    ensures var p := Patch(row, email, fullName, status, phone);
      p.passwordHash == row.passwordHash && p.failedLoginAttempts == row.failedLoginAttempts
      && p.accountLockedUntil == row.accountLockedUntil && p.passwordResetToken == row.passwordResetToken
  {
  }

  /** Lines building the SET list and parameters of PUT /:id: the
      statement, once run, performs the patch on any row, and is empty
      exactly when no field was sent. */
  method BuildPut(email: Field, fullName: Field, status: Field, phone: Field, id: int)
    returns (updates: seq<Assignment>, params: seq<Param>)
    ensures var s := Defined(PutFields(email, fullName, status, phone));
      updates == Numbered(s) && params == Values(s) + [IdParam(id)]
    ensures PlaceholdersBound(updates, params) && |params| == |updates| + 1 && params[|updates|] == IdParam(id)
    ensures |updates| == 0 <==> email.Absent? && fullName.Absent? && status.Absent? && phone.Absent?
    ensures forall row :: Execute(row, updates, params, SetColumn) == Patch(row, email, fullName, status, phone)
  {
    var paramIndex: nat := 1;
    updates, params := [], [];
    ghost var fields: seq<(Column, Field)> := [];
    updates, params, paramIndex := PushIfDefined(updates, params, paramIndex, fields, EmailColumn, email);
    fields := fields + [(EmailColumn, email)];
    updates, params, paramIndex := PushIfDefined(updates, params, paramIndex, fields, FullNameColumn, fullName);
    fields := fields + [(FullNameColumn, fullName)];
    updates, params, paramIndex := PushIfDefined(updates, params, paramIndex, fields, StatusColumn, status);
    fields := fields + [(StatusColumn, status)];
    updates, params, paramIndex := PushIfDefined(updates, params, paramIndex, fields, PhoneColumn, phone);
    fields := fields + [(PhoneColumn, phone)];
    assert fields == PutFields(email, fullName, status, phone);
    params := params + [IdParam(id)];
    PutStatementPerformsPatch(email, fullName, status, phone, id);
  }

  /** The statement built from the PUT fields, with the id appended, is
      well numbered, is empty exactly when nothing was sent, and performs
      the patch on any row. */
  lemma PutStatementPerformsPatch(email: Field, fullName: Field, status: Field, phone: Field, id: int)
    ensures var s := Defined(PutFields(email, fullName, status, phone));
      var params := Values(s) + [IdParam(id)];
      && PlaceholdersBound(Numbered(s), params)
      && |params| == |Numbered(s)| + 1 && params[|Numbered(s)|] == IdParam(id)
      && (|Numbered(s)| == 0 <==> email.Absent? && fullName.Absent? && status.Absent? && phone.Absent?)
      && forall row :: Execute(row, Numbered(s), params, SetColumn) == Patch(row, email, fullName, status, phone)
  {
    var fields := PutFields(email, fullName, status, phone);
    var s := Defined(fields);
    NoneSupplied(fields);
    assert email.Absent? <==> fields[0].1.Absent?;
    assert fullName.Absent? <==> fields[1].1.Absent?;
    assert status.Absent? <==> fields[2].1.Absent?;
    assert phone.Absent? <==> fields[3].1.Absent?;
    BuiltStatementShape(s, id);
    forall row ensures Execute(row, Numbered(s), Values(s) + [IdParam(id)], SetColumn)
                       == Patch(row, email, fullName, status, phone) {
      ExecuteBuiltSet(row, s, id, SetColumn);
      PutAppliesPatch(row, email, fullName, status, phone);
    }
  }

  /** Lines building the SET list and parameters of PUT /profile/me. */
  method BuildProfileUpdate(email: Field, fullName: Field, id: int)
    returns (updates: seq<Assignment>, params: seq<Param>)
    ensures var s := Defined([(EmailColumn, email), (FullNameColumn, fullName)]);
      updates == Numbered(s) && params == Values(s) + [IdParam(id)]
    ensures PlaceholdersBound(updates, params) && |params| == |updates| + 1 && params[|updates|] == IdParam(id)
    ensures |updates| == 0 <==> email.Absent? && fullName.Absent?
    ensures forall row :: Execute(row, updates, params, SetColumn) == Patch(row, email, fullName, Absent, Absent)
  {
    var paramIndex: nat := 1;
    updates, params := [], [];
    ghost var fields: seq<(Column, Field)> := [];
    updates, params, paramIndex := PushIfDefined(updates, params, paramIndex, fields, EmailColumn, email);
    fields := fields + [(EmailColumn, email)];
    updates, params, paramIndex := PushIfDefined(updates, params, paramIndex, fields, FullNameColumn, fullName);
    fields := fields + [(FullNameColumn, fullName)];
    assert fields == [(EmailColumn, email), (FullNameColumn, fullName)];
    params := params + [IdParam(id)];
    var s := Defined(fields);
    NoneSupplied(fields);
    assert email.Absent? <==> fields[0].1.Absent?;
    assert fullName.Absent? <==> fields[1].1.Absent?;
    BuiltStatementShape(s, id);
    forall row ensures Execute(row, updates, params, SetColumn) == Patch(row, email, fullName, Absent, Absent) {
      ExecuteBuiltSet(row, s, id, SetColumn);
      ProfileAppliesPatch(row, email, fullName);
    }
  }

  /** Replacing a row by a patched one whose e-mail no other row holds
      keeps the table's invariants. */
  lemma UpdateKeepsValid(m: map<int, SuperAdminRow>, id: int, row: SuperAdminRow, updated: map<int, SuperAdminRow>)
    requires updated == m[id := row]
    requires UniqueSuperAdminEmails(m) && id in m && !TakenByOther(m, row.email, id)
    requires forall i :: i in m ==> LockConsistent(m[i])
    requires row.failedLoginAttempts == m[id].failedLoginAttempts && row.accountLockedUntil == m[id].accountLockedUntil
    ensures UniqueSuperAdminEmails(updated)
    ensures forall i :: i in updated ==> LockConsistent(updated[i])
  {
    assert LockConsistent(row);
  }

  /** PUT /:id */
  method UpdateSuperAdmin(db: Database, id: int, email: Field, fullName: Field, status: Field, phone: Field)
    returns (r: Outcome<SuperAdminView>)
    requires db.Valid()
    modifies db`superAdmins
    ensures db.Valid()
    ensures id !in old(db.superAdmins) ==> r == Err(NotFound)
    ensures id in old(db.superAdmins) && Truthy(email) && TakenByOther(old(db.superAdmins), email.text, id) ==>
      r == Err(EmailTaken)
    ensures id in old(db.superAdmins) && !(Truthy(email) && TakenByOther(old(db.superAdmins), email.text, id)) &&
            email.Absent? && fullName.Absent? && status.Absent? && phone.Absent? ==>
      r == Err(NoFieldsToUpdate)
    ensures r.Err? ==> db.superAdmins == old(db.superAdmins)
    ensures r.Ok? ==>
      && id in old(db.superAdmins)
      && !(email.Absent? && fullName.Absent? && status.Absent? && phone.Absent?)
      && var row := Patch(old(db.superAdmins)[id], email, fullName, status, phone);
         db.superAdmins == old(db.superAdmins)[id := row] && r.value == ViewOf(id, row)
    // the statement runs, and fails only on the UNIQUE constraint
    ensures id in old(db.superAdmins) && !(Truthy(email) && TakenByOther(old(db.superAdmins), email.text, id)) &&
            !(email.Absent? && fullName.Absent? && status.Absent? && phone.Absent?) ==>
      (r == Err(UpdateFailed) <==>
         TakenByOther(old(db.superAdmins), Patch(old(db.superAdmins)[id], email, fullName, status, phone).email, id))
    // every check passed and the patched e-mail is free: the row is updated
    ensures id in old(db.superAdmins) && !(Truthy(email) && TakenByOther(old(db.superAdmins), email.text, id)) &&
            !(email.Absent? && fullName.Absent? && status.Absent? && phone.Absent?) &&
            !TakenByOther(old(db.superAdmins), Patch(old(db.superAdmins)[id], email, fullName, status, phone).email, id) ==>
      r.Ok?
  {
    if id !in db.superAdmins {
      return Err(NotFound);
    }
    if Truthy(email) && TakenByOther(db.superAdmins, email.text, id) {
      return Err(EmailTaken);
    }
    var updates, params := BuildPut(email, fullName, status, phone, id);
    if |updates| == 0 {
      return Err(NoFieldsToUpdate);
    }
    var updated := Execute(db.superAdmins[id], updates, params, SetColumn);
    if TakenByOther(db.superAdmins, updated.email, id) {
      return Err(UpdateFailed);
    }
    UpdateKeepsValid(db.superAdmins, id, updated, db.superAdmins[id := updated]);
    db.superAdmins := db.superAdmins[id := updated];
    r := Ok(ViewOf(id, updated));
  }

  /** PUT /profile/me for the authenticated super-admin `selfId`. The e-mail
      is validated and checked only when truthy, but written whenever it
      was sent, so an empty e-mail sent together with a name is stored. */
  method UpdateOwnProfile(db: Database, selfId: int, email: Field, fullName: Field)
    returns (r: Outcome<ProfileView>)
    requires db.Valid() && selfId in db.superAdmins
    modifies db`superAdmins
    ensures db.Valid()
    ensures !Truthy(email) && !Truthy(fullName) ==> r == Err(ProfileFieldRequired)
    ensures Truthy(email) && !MatchesEmailRegex(email.text) ==> r == Err(InvalidEmailFormat)
    ensures Truthy(email) && MatchesEmailRegex(email.text) && TakenByOther(old(db.superAdmins), email.text, selfId) ==>
      r == Err(EmailTaken)
    ensures r.Err? ==> db.superAdmins == old(db.superAdmins)
    ensures r.Ok? ==>
      && (Truthy(email) || Truthy(fullName))
      && (Truthy(email) ==> WellFormedEmail(email.text))
      && var row := Patch(old(db.superAdmins)[selfId], email, fullName, Absent, Absent);
         && db.superAdmins == old(db.superAdmins)[selfId := row]
         && r.value == ProfileView(selfId, row.email, row.fullName, row.lastLogin)
    // as written: an empty e-mail skips both checks and is stored
    ensures email == Given("") && Truthy(fullName) &&
            !TakenByOther(old(db.superAdmins), "", selfId) ==>
      r.Ok? && db.superAdmins[selfId].email == "" && !WellFormedEmail(db.superAdmins[selfId].email)
    // every check passed and the patched e-mail is free: the row is updated
    ensures (Truthy(email) || Truthy(fullName)) && (Truthy(email) ==> MatchesEmailRegex(email.text)) &&
            !TakenByOther(old(db.superAdmins), Patch(old(db.superAdmins)[selfId], email, fullName, Absent, Absent).email, selfId) ==>
      r.Ok?
  {
    if !Truthy(email) && !Truthy(fullName) {
      return Err(ProfileFieldRequired);
    }
    if Truthy(email) {
      if !MatchesEmailRegex(email.text) {
        return Err(InvalidEmailFormat);
      }
      if TakenByOther(db.superAdmins, email.text, selfId) {
        return Err(EmailTaken);
      }
      RegexImpliesWellFormed(email.text);
    }
    var updates, params := BuildProfileUpdate(email, fullName, selfId);
    var updated := Execute(db.superAdmins[selfId], updates, params, SetColumn);
    if TakenByOther(db.superAdmins, updated.email, selfId) {
      return Err(UpdateFailed);
    }
    UpdateKeepsValid(db.superAdmins, selfId, updated, db.superAdmins[selfId := updated]);
    db.superAdmins := db.superAdmins[selfId := updated];
    r := Ok(ProfileView(selfId, updated.email, updated.fullName, updated.lastLogin));
  }

  // ---------------------------------------------------------------------
  // DELETE /:id

  /** The delete guard: at most one active super-admin, and the target is
      an active one. */
  predicate DeleteRefused(m: map<int, SuperAdminRow>, id: int) {
    |ActiveSuperAdminIds(m)| <= 1 && id in m && m[id].status == "active"
  }

  /** The guard refuses exactly the deletion of the only active
      super-admin. */
  lemma DeleteRefusedIffOnlyActive(m: map<int, SuperAdminRow>, id: int)
    ensures DeleteRefused(m, id) <==> ActiveSuperAdminIds(m) == {id}
  {
    var active := ActiveSuperAdminIds(m);
    if DeleteRefused(m, id) {
      assert id in active;
      assert |active - {id}| == |active| - 1 == 0;
      assert active == (active - {id}) + {id};
    }
    if active == {id} {
      assert id in active;
    }
  }

  /** Whatever the guard lets through, at least one active super-admin
      remains if there was one before. */
  lemma DeleteKeepsAnActiveSuperAdmin(m: map<int, SuperAdminRow>, id: int)
    requires |ActiveSuperAdminIds(m)| >= 1
    requires !DeleteRefused(m, id)
    ensures |ActiveSuperAdminIds(m - {id})| >= 1
  {
    var before := ActiveSuperAdminIds(m);
    var after := ActiveSuperAdminIds(m - {id});
    assert after == before - {id};
    if id in before {
      assert |before| >= 2;
      assert |after| == |before| - 1;
    } else {
      assert after == before;
    }
  }

  /** DELETE /:id */
  method DeleteSuperAdmin(db: Database, id: int) returns (r: Outcome<DeletedView>)
    requires db.Valid()
    modifies db`superAdmins
    ensures db.Valid()
    ensures DeleteRefused(old(db.superAdmins), id) ==>
      r == Err(LastActiveSuperAdmin) && db.superAdmins == old(db.superAdmins)
    ensures !DeleteRefused(old(db.superAdmins), id) && id !in old(db.superAdmins) ==>
      r == Err(NotFound) && db.superAdmins == old(db.superAdmins)
    ensures !DeleteRefused(old(db.superAdmins), id) && id in old(db.superAdmins) ==>
      && db.superAdmins == old(db.superAdmins) - {id}
      && r == Ok(DeletedView(id, old(db.superAdmins)[id].email, old(db.superAdmins)[id].fullName))
  {
    var activeCount := |ActiveSuperAdminIds(db.superAdmins)|;
    if activeCount <= 1 {
      if id in db.superAdmins && db.superAdmins[id].status == "active" {
        return Err(LastActiveSuperAdmin);
      }
    }
    if id !in db.superAdmins {
      return Err(NotFound);
    }
    var deleted := db.superAdmins[id];
    db.superAdmins := db.superAdmins - {id};
    r := Ok(DeletedView(id, deleted.email, deleted.fullName));
  }

  // ---------------------------------------------------------------------
  // Password change and the legacy reset flow

  /** POST /profile/change-password, with `id` the authenticated
      super-admin (and POST /:id/change-password, with `id` from the path).
      `newHash` is the bcrypt hash of the new password. */
  method ChangePassword(db: Database, id: int, currentPassword: Field, newPassword: Field,
                        compare: AuthRoutes.PasswordCheck, newHash: string)
    returns (r: Outcome<Done>)
    requires db.Valid()
    modifies db`superAdmins
    ensures db.Valid()
    ensures !Truthy(currentPassword) || !Truthy(newPassword) ==> r == Err(PasswordsRequired)
    ensures Truthy(currentPassword) && Truthy(newPassword) ==>
      && (Utf16Length(newPassword.text) < MinPasswordLength ==> r == Err(PasswordTooShort))
      && (Utf16Length(newPassword.text) >= MinPasswordLength && id !in old(db.superAdmins) ==> r == Err(NotFound))
      && (Utf16Length(newPassword.text) >= MinPasswordLength && id in old(db.superAdmins) ==>
            (r == Err(CurrentPasswordIncorrect) <==>
               !compare(currentPassword.text, old(db.superAdmins)[id].passwordHash)))
    ensures Truthy(currentPassword) && Truthy(newPassword) && Utf16Length(newPassword.text) >= MinPasswordLength &&
            id in old(db.superAdmins) && compare(currentPassword.text, old(db.superAdmins)[id].passwordHash) ==>
      r.Ok?
    ensures r.Err? ==> db.superAdmins == old(db.superAdmins)
    // only the hash changes: counters and lock stay as they were
    ensures r.Ok? ==>
      && id in old(db.superAdmins)
      && compare(currentPassword.text, old(db.superAdmins)[id].passwordHash)
      && db.superAdmins == old(db.superAdmins)[id := old(db.superAdmins)[id].(passwordHash := newHash)]
  {
    if !Truthy(currentPassword) || !Truthy(newPassword) {
      return Err(PasswordsRequired);
    }
    if Utf16Length(newPassword.text) < MinPasswordLength {
      return Err(PasswordTooShort);
    }
    if id !in db.superAdmins {
      return Err(NotFound);
    }
    var superAdmin := db.superAdmins[id];
    if !compare(currentPassword.text, superAdmin.passwordHash) {
      return Err(CurrentPasswordIncorrect);
    }
    db.superAdmins := db.superAdmins[id := superAdmin.(passwordHash := newHash)];
    r := Ok(Done);
  }

  /** A password change does not lift a lockout: while the lock lasts the
      new password is refused like any other. */
  lemma PasswordChangeKeepsLockout(id: int, row: SuperAdminRow, newHash: string, password: string, now: int,
                                   compare: AuthRoutes.PasswordCheck)
    requires row.status == "active" && AuthRoutes.IsLocked(row, now)
    ensures var s := AuthRoutes.SuperAdminAttempt(id, row.(passwordHash := newHash), password, now, compare);
      s.result.LoginRejected? && s.result.failure.AccountLocked? && s.write.None?
  {
    assert AuthRoutes.IsLocked(row.(passwordHash := newHash), now);
  }

  /** The legacy reset lookup: the stored token matches, has not expired
      (`password_reset_expires > CURRENT_TIMESTAMP`) and the account is
      active. */
  predicate LegacyTokenMatches(row: SuperAdminRow, token: string, now: int) {
    && row.passwordResetToken == Some(token)
    && row.passwordResetExpires.Some? && row.passwordResetExpires.value > now
    && row.status == "active"
  }

  /** What a legacy reset writes: the new hash, and token, expiry, counter
      and lock cleared together. */
  function LegacyCleared(row: SuperAdminRow, hash: string): (r: SuperAdminRow)
    ensures r.passwordResetToken.None? && r.passwordResetExpires.None?
    ensures Attempts(r) == 0 && r.accountLockedUntil.None? && LockConsistent(r)
    ensures r.(passwordHash := row.passwordHash, passwordResetToken := row.passwordResetToken,
               passwordResetExpires := row.passwordResetExpires, failedLoginAttempts := row.failedLoginAttempts,
               accountLockedUntil := row.accountLockedUntil) == row
  {
    row.(passwordHash := hash, passwordResetToken := None, passwordResetExpires := None,
         failedLoginAttempts := Some(0), accountLockedUntil := None)
  }

  /** POST /request-password-reset. `rawToken` is the fresh random token;
      the response carries it only when an active account matched. */
  method RequestLegacyReset(db: Database, email: Field, now: int, rawToken: string)
    returns (r: Outcome<Option<string>>)
    requires db.Valid()
    modifies db`superAdmins
    ensures db.Valid()
    ensures !Truthy(email) ==> r == Err(EmailRequired) && db.superAdmins == old(db.superAdmins)
    ensures Truthy(email) && !HasActiveSuperAdmin(old(db.superAdmins), email.text) ==>
      r == Ok(None) && db.superAdmins == old(db.superAdmins)
    ensures Truthy(email) ==>
      forall id | id in old(db.superAdmins) && old(db.superAdmins)[id].email == email.text &&
                  old(db.superAdmins)[id].status == "active" ::
        && r == Ok(Some(rawToken))
        && db.superAdmins == old(db.superAdmins)[id := old(db.superAdmins)[id].(
             passwordResetToken := Some(rawToken), passwordResetExpires := Some(now + LegacyResetExpiry))]
  {
    if !Truthy(email) {
      return Err(EmailRequired);
    }
    if !HasActiveSuperAdmin(db.superAdmins, email.text) {
      return Ok(None);
    }
    var id :| id in db.superAdmins && db.superAdmins[id].email == email.text && db.superAdmins[id].status == "active";
    var resetExpires := now + LegacyResetExpiry;
    db.superAdmins := db.superAdmins[id := db.superAdmins[id].(passwordResetToken := Some(rawToken),
                                                               passwordResetExpires := Some(resetExpires))];
    r := Ok(Some(rawToken));
  }

  /** POST /reset-password (legacy). `newHash` is the bcrypt hash of the
      new password; when several rows match, one of them is reset. */
  method LegacyResetPassword(db: Database, token: Field, newPassword: Field, now: int, newHash: string)
    returns (r: Outcome<Done>)
    requires db.Valid()
    modifies db`superAdmins
    ensures db.Valid()
    ensures !Truthy(token) || !Truthy(newPassword) ==> r == Err(ResetFieldsRequired)
    ensures Truthy(token) && Truthy(newPassword) && Utf16Length(newPassword.text) < MinPasswordLength ==>
      r == Err(PasswordTooShort)
    ensures Truthy(token) && Truthy(newPassword) && Utf16Length(newPassword.text) >= MinPasswordLength ==>
      (r == Err(InvalidOrExpiredResetToken) <==>
         forall id :: id in old(db.superAdmins) ==> !LegacyTokenMatches(old(db.superAdmins)[id], token.text, now))
    ensures Truthy(token) && Truthy(newPassword) && Utf16Length(newPassword.text) >= MinPasswordLength &&
            (exists id :: id in old(db.superAdmins) && LegacyTokenMatches(old(db.superAdmins)[id], token.text, now)) ==>
      r.Ok?
    ensures r.Err? ==> db.superAdmins == old(db.superAdmins)
    ensures r.Ok? ==>
      exists id :: id in old(db.superAdmins) && LegacyTokenMatches(old(db.superAdmins)[id], token.text, now) &&
        db.superAdmins == old(db.superAdmins)[id := LegacyCleared(old(db.superAdmins)[id], newHash)]
  {
    if !Truthy(token) || !Truthy(newPassword) {
      return Err(ResetFieldsRequired);
    }
    if Utf16Length(newPassword.text) < MinPasswordLength {
      return Err(PasswordTooShort);
    }
    if forall id :: id in db.superAdmins ==> !LegacyTokenMatches(db.superAdmins[id], token.text, now) {
      return Err(InvalidOrExpiredResetToken);
    }
    var id :| id in db.superAdmins && LegacyTokenMatches(db.superAdmins[id], token.text, now);
    db.superAdmins := db.superAdmins[id := LegacyCleared(db.superAdmins[id], newHash)];
    r := Ok(Done);
  }

  /** The token a legacy request stores on an active row opens a reset at
      every moment strictly before now + 1 h and at none after; once used
      it matches nothing. */
  lemma LegacyTokenLifetime(row: SuperAdminRow, rawToken: string, issuedAt: int, at: int, token: string,
                            hash: string, later: int)
    requires row.status == "active"
    ensures var requested := row.(passwordResetToken := Some(rawToken),
                                  passwordResetExpires := Some(issuedAt + LegacyResetExpiry));
      LegacyTokenMatches(requested, rawToken, at) <==> at < issuedAt + LegacyResetExpiry
    ensures !LegacyTokenMatches(LegacyCleared(row, hash), token, later)
  {
  }
}
