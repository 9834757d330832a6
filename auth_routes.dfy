/** The account-security routes (backend/routes/auth.js): super-admin
    login with failed-attempt counting and a timed lockout, admin login
    without lockout, and the password-reset token lifecycle (request,
    verify, consume) over the shared `admin_password_reset_tokens` table.
    Each handler is one atomic step on the Database. */
module AuthRoutes {
  import opened Js
  import opened Store
  import opened Middleware

  const LockoutDuration: int := 15 * 60 * 1000
  const ResetTokenExpiry: int := 60 * 60 * 1000
  /** Minimum new-password length of this reset flow. */
  const ResetMinLength: nat := 6

  /** `bcrypt.compare(plain, hash)` */
  type PasswordCheck = (string, string) -> bool

  /** The hex SHA-256 digest of a raw token. */
  type Digest = string -> string

  // ---------------------------------------------------------------------
  // Login

  /** One constructor per login error message. */
  datatype LoginFailure =
    | CredentialsRequired                    // 'Email and password are required'
    | InvalidCredentials                     // 'Invalid email or password'
    | AttemptsRemaining(remaining: int)      // '... N attempts remaining.'
    | AccountInactive                        // 'Account is inactive'
    | AccountLocked(minutes: int)            // 'Account is locked. ... in N minutes.'
    | LockedAfterFailures                    // 'Account locked due to too many failed ...'

  function LoginStatus(f: LoginFailure): nat {
    match f
    case CredentialsRequired => 400
    case InvalidCredentials => 401
    case AttemptsRemaining(_) => 401
    case _ => 403
  }

  /** The `user` object of a successful login: never the hash or counters. */
  datatype PublicUser = PublicUser(id: int, email: string, fullName: string, role: Option<string>, userType: string)

  /** A successful login returns the signed claims and the public user. */
  datatype LoginResult = LoggedIn(token: Claims, user: PublicUser) | LoginRejected(failure: LoginFailure)

  /** One attempt against a matched row: the response and the row written
      back, if any. */
  datatype Attempt<R> = Attempt(result: LoginResult, write: Option<R>)

  /** `account_locked_until && new Date(account_locked_until) > new Date()` */
  predicate IsLocked(row: SuperAdminRow, now: int) {
    row.accountLockedUntil.Some? && row.accountLockedUntil.value > now
  }

  /** `Math.ceil(ms / 60000)` for a positive duration. */
  function CeilMinutes(ms: int): (m: int)
    requires ms > 0
    ensures m >= 1 && (m - 1) * 60000 < ms <= m * 60000
  {
    (ms + 59999) / 60000
  }

  /** A super-admin login attempt on the row found for the e-mail. */
  function SuperAdminAttempt(id: int, row: SuperAdminRow, password: string, now: int,
                             compare: PasswordCheck): (s: Attempt<SuperAdminRow>)
    // inactive and locked accounts are refused before the password is looked at, and nothing is written
    ensures s.write.None? <==> row.status != "active" || IsLocked(row, now)
    ensures row.status != "active" ==> s.result == LoginRejected(AccountInactive)
    ensures row.status == "active" && IsLocked(row, now) ==>
      && s.result.LoginRejected? && s.result.failure.AccountLocked?
      && var m := s.result.failure.minutes;
         (m - 1) * 60000 < row.accountLockedUntil.value - now <= m * 60000
    // success exactly when active, unlocked and the password matches
    ensures s.result.LoggedIn? <==>
      row.status == "active" && !IsLocked(row, now) && compare(password, row.passwordHash)
    ensures s.result.LoggedIn? ==>
      && s.result.user == PublicUser(id, row.email, row.fullName, None, "super_admin")
      && s.result.token == Claims(id, row.email, None, "super_admin")
      && s.write == Some(row.(lastLogin := Some(now), failedLoginAttempts := Some(0), accountLockedUntil := None))
    // a wrong password counts one more failure, locking at the maximum
    ensures s.write.Some? && s.result.LoginRejected? ==>
      && Attempts(s.write.value) == Attempts(row) + 1
      && s.write.value.(failedLoginAttempts := row.failedLoginAttempts,
                        accountLockedUntil := row.accountLockedUntil) == row
      && (Attempts(row) + 1 < MaxLoginAttempts ==>
            && s.result == LoginRejected(AttemptsRemaining(MaxLoginAttempts - (Attempts(row) + 1)))
            && s.write.value.accountLockedUntil == row.accountLockedUntil)
      && (Attempts(row) + 1 >= MaxLoginAttempts ==>
            && s.result == LoginRejected(LockedAfterFailures)
            && s.write.value.accountLockedUntil == Some(now + LockoutDuration))
    ensures s.result.LoginRejected? && s.result.failure.AttemptsRemaining? ==>
      1 <= s.result.failure.remaining < MaxLoginAttempts
    ensures LockConsistent(row) && s.write.Some? ==> LockConsistent(s.write.value)
  {
    if row.status != "active" then
      Attempt(LoginRejected(AccountInactive), None)
    else if IsLocked(row, now) then
      Attempt(LoginRejected(AccountLocked(CeilMinutes(row.accountLockedUntil.value - now))), None)
    else if !compare(password, row.passwordHash) then
      var failed := Attempts(row) + 1;
      if failed >= MaxLoginAttempts then
        Attempt(LoginRejected(LockedAfterFailures),
                Some(row.(failedLoginAttempts := Some(failed), accountLockedUntil := Some(now + LockoutDuration))))
      else
        Attempt(LoginRejected(AttemptsRemaining(MaxLoginAttempts - failed)),
                Some(row.(failedLoginAttempts := Some(failed))))
    else
      Attempt(LoggedIn(Claims(id, row.email, None, "super_admin"),
                       PublicUser(id, row.email, row.fullName, None, "super_admin")),
              Some(row.(lastLogin := Some(now), failedLoginAttempts := Some(0), accountLockedUntil := None)))
  }

  /** An admin login attempt: no counters and no lockout. */
  function AdminAttempt(id: int, row: AdminUserRow, password: string, now: int,
                        compare: PasswordCheck): (s: Attempt<AdminUserRow>)
    ensures row.status != "active" ==> s == Attempt(LoginRejected(AccountInactive), None)
    ensures row.status == "active" && !compare(password, row.passwordHash) ==>
      s == Attempt(LoginRejected(InvalidCredentials), None)
    ensures s.result.LoggedIn? <==> row.status == "active" && compare(password, row.passwordHash)
    ensures s.write.Some? <==> s.result.LoggedIn?
    ensures s.result.LoggedIn? ==>
      && s.write == Some(row.(lastLogin := Some(now)))
      && s.result.token == Claims(id, row.email, Some(row.role), "admin")
      && s.result.user == PublicUser(id, row.email, row.fullName, Some(row.role), "admin")
  {
    if row.status != "active" then
      Attempt(LoginRejected(AccountInactive), None)
    else if !compare(password, row.passwordHash) then
      Attempt(LoginRejected(InvalidCredentials), None)
    else
      Attempt(LoggedIn(Claims(id, row.email, Some(row.role), "admin"),
                       PublicUser(id, row.email, row.fullName, Some(row.role), "admin")),
              Some(row.(lastLogin := Some(now))))
  }

  function WriteBack<R>(m: map<int, R>, id: int, write: Option<R>): map<int, R> {
    if write.Some? then m[id := write.value] else m
  }

  predicate HasSuperAdminEmail(m: map<int, SuperAdminRow>, email: string) {
    exists id :: id in m && m[id].email == email
  }

  predicate HasAdminEmail(m: map<int, AdminUserRow>, email: string) {
    exists id :: id in m && m[id].email == email
  }

  /** POST /super-admin/login */
  method SuperAdminLogin(db: Database, email: Field, password: Field, now: int, compare: PasswordCheck)
    returns (r: LoginResult)
    requires db.Valid()
    modifies db`superAdmins
    ensures db.Valid()
    ensures !Truthy(email) || !Truthy(password) ==>
      r == LoginRejected(CredentialsRequired) && db.superAdmins == old(db.superAdmins)
    ensures Truthy(email) && Truthy(password) && !HasSuperAdminEmail(old(db.superAdmins), email.text) ==>
      r == LoginRejected(InvalidCredentials) && db.superAdmins == old(db.superAdmins)
    ensures Truthy(email) && Truthy(password) ==>
      forall id | id in old(db.superAdmins) && old(db.superAdmins)[id].email == email.text ::
        var s := SuperAdminAttempt(id, old(db.superAdmins)[id], password.text, now, compare);
        r == s.result && db.superAdmins == WriteBack(old(db.superAdmins), id, s.write)
  {
    if !Truthy(email) || !Truthy(password) {
      return LoginRejected(CredentialsRequired);
    }
    if !HasSuperAdminEmail(db.superAdmins, email.text) {
      return LoginRejected(InvalidCredentials);
    }
    var id :| id in db.superAdmins && db.superAdmins[id].email == email.text;
    var row := db.superAdmins[id];
    if row.status != "active" {
      return LoginRejected(AccountInactive);
    }
    if IsLocked(row, now) {
      return LoginRejected(AccountLocked(CeilMinutes(row.accountLockedUntil.value - now)));
    }
    if !compare(password.text, row.passwordHash) {
      var failedAttempts := Attempts(row) + 1;
      if failedAttempts >= MaxLoginAttempts {
        db.superAdmins := db.superAdmins[id := row.(failedLoginAttempts := Some(failedAttempts),
                                                    accountLockedUntil := Some(now + LockoutDuration))];
        return LoginRejected(LockedAfterFailures);
      }
      db.superAdmins := db.superAdmins[id := row.(failedLoginAttempts := Some(failedAttempts))];
      return LoginRejected(AttemptsRemaining(MaxLoginAttempts - failedAttempts));
    }
    db.superAdmins := db.superAdmins[id := row.(lastLogin := Some(now), failedLoginAttempts := Some(0),
                                                accountLockedUntil := None)];
    r := LoggedIn(Claims(id, row.email, None, "super_admin"),
                  PublicUser(id, row.email, row.fullName, None, "super_admin"));
  }

  /** POST /admin/login */
  method AdminLogin(db: Database, email: Field, password: Field, now: int, compare: PasswordCheck)
    returns (r: LoginResult)
    requires db.Valid()
    modifies db`adminUsers
    ensures db.Valid()
    ensures !Truthy(email) || !Truthy(password) ==>
      r == LoginRejected(CredentialsRequired) && db.adminUsers == old(db.adminUsers)
    ensures Truthy(email) && Truthy(password) && !HasAdminEmail(old(db.adminUsers), email.text) ==>
      r == LoginRejected(InvalidCredentials) && db.adminUsers == old(db.adminUsers)
    ensures Truthy(email) && Truthy(password) ==>
      forall id | id in old(db.adminUsers) && old(db.adminUsers)[id].email == email.text ::
        var s := AdminAttempt(id, old(db.adminUsers)[id], password.text, now, compare);
        r == s.result && db.adminUsers == WriteBack(old(db.adminUsers), id, s.write)
  {
    if !Truthy(email) || !Truthy(password) {
      return LoginRejected(CredentialsRequired);
    }
    if !HasAdminEmail(db.adminUsers, email.text) {
      return LoginRejected(InvalidCredentials);
    }
    var id :| id in db.adminUsers && db.adminUsers[id].email == email.text;
    var admin := db.adminUsers[id];
    if admin.status != "active" {
      return LoginRejected(AccountInactive);
    }
    if !compare(password.text, admin.passwordHash) {
      return LoginRejected(InvalidCredentials);
    }
    db.adminUsers := db.adminUsers[id := admin.(lastLogin := Some(now))];
    r := LoggedIn(Claims(id, admin.email, Some(admin.role), "admin"),
                  PublicUser(id, admin.email, admin.fullName, Some(admin.role), "admin"));
  }

  // ---------------------------------------------------------------------
  // Properties of the lockout state machine

  /** A login attempt at a given time with a given password. */
  datatype Try = Try(password: string, at: int)

  datatype Trace = Trace(results: seq<LoginResult>, final: SuperAdminRow)

  /** Successive attempts against one account, each seeing the row the
      previous one wrote: the reference the lockout properties below are
      stated against. Logging in only ever touches the failure counter,
      the lock and the last-login time, and keeps a recorded lock backed
      by enough failures. */
  function Replay(id: int, row: SuperAdminRow, tries: seq<Try>, compare: PasswordCheck): (t: Trace)
    ensures |t.results| == |tries|
    ensures t.final.(failedLoginAttempts := row.failedLoginAttempts, accountLockedUntil := row.accountLockedUntil,
                     lastLogin := row.lastLogin) == row
    ensures LockConsistent(row) ==> LockConsistent(t.final)
    decreases |tries|
  {
    if tries == [] then Trace([], row)
    else
      var s := SuperAdminAttempt(id, row, tries[0].password, tries[0].at, compare);
      var next := if s.write.Some? then s.write.value else row;
      var rest := Replay(id, next, tries[1..], compare);
      Trace([s.result] + rest.results, rest.final)
  }

  /** A non-empty sequence is its first element and the rest, also with
      something appended. */
  lemma SplitFirst<T>(a: seq<T>, b: seq<T>)
    requires a != []
    ensures a == [a[0]] + a[1..] && a + b == [a[0]] + (a[1..] + b)
  {
  }

  /** Putting an element in front of two joined sequences. */
  lemma ConsAssociates<T>(x: T, p: seq<T>, q: seq<T>)
    ensures [x] + (p + q) == ([x] + p) + q
  {
  }

  /** The row an attempt leaves behind: the one it wrote, if any. */
  function RowAfter(id: int, row: SuperAdminRow, t: Try, compare: PasswordCheck): SuperAdminRow {
    var s := SuperAdminAttempt(id, row, t.password, t.at, compare);
    if s.write.Some? then s.write.value else row
  }

  /** Replaying a first attempt and then the rest. */
  lemma ReplayCons(id: int, row: SuperAdminRow, t: Try, rest: seq<Try>, compare: PasswordCheck)
    ensures var tr := Replay(id, RowAfter(id, row, t, compare), rest, compare);
      Replay(id, row, [t] + rest, compare)
        == Trace([SuperAdminAttempt(id, row, t.password, t.at, compare).result] + tr.results, tr.final)
  {
    assert ([t] + rest)[0] == t;
    assert ([t] + rest)[1..] == rest;
  }

  lemma {:induction false} ReplayAppend(id: int, row: SuperAdminRow, a: seq<Try>, b: seq<Try>, compare: PasswordCheck)
    ensures var ta := Replay(id, row, a, compare);
      Replay(id, row, a + b, compare)
        == Trace(ta.results + Replay(id, ta.final, b, compare).results,
                 Replay(id, ta.final, b, compare).final)
    decreases |a|
  {
    if a == [] {
      assert a + b == b;
    } else {
      var next := RowAfter(id, row, a[0], compare);
      var r := SuperAdminAttempt(id, row, a[0].password, a[0].at, compare).result;
      ReplayAppend(id, next, a[1..], b, compare);
      var ta := Replay(id, next, a[1..], compare);
      var tb := Replay(id, ta.final, b, compare);
      SplitFirst(a, b);
      ReplayCons(id, row, a[0], a[1..], compare);
      ReplayCons(id, row, a[0], a[1..] + b, compare);
      ConsAssociates(r, ta.results, tb.results);
    }
  }

  /** Wrong passwords below the maximum each count one failure and report
      the attempts left, without touching the lock. */
  lemma {:induction false} WrongPasswordsCountDown(id: int, row: SuperAdminRow, tries: seq<Try>,
                                                   compare: PasswordCheck)
    requires row.status == "active"
    requires Attempts(row) + |tries| < MaxLoginAttempts
    requires forall i :: 0 <= i < |tries| ==>
      !compare(tries[i].password, row.passwordHash) && !IsLocked(row, tries[i].at)
    ensures var t := Replay(id, row, tries, compare);
      && (forall i :: 0 <= i < |tries| ==>
            t.results[i] == LoginRejected(AttemptsRemaining(MaxLoginAttempts - (Attempts(row) + i + 1))))
      && Attempts(t.final) == Attempts(row) + |tries|
      && t.final.(failedLoginAttempts := row.failedLoginAttempts) == row
    decreases |tries|
  {
    if tries != [] {
      var s := SuperAdminAttempt(id, row, tries[0].password, tries[0].at, compare);
      var next := s.write.value;
      assert next.(failedLoginAttempts := row.failedLoginAttempts) == row;
      forall i | 0 <= i < |tries[1..]|
        ensures !compare(tries[1..][i].password, next.passwordHash) && !IsLocked(next, tries[1..][i].at)
      {
        assert tries[1..][i] == tries[i + 1];
      }
      WrongPasswordsCountDown(id, next, tries[1..], compare);
      var t := Replay(id, row, tries, compare);
      var rest := Replay(id, next, tries[1..], compare);
      assert t.results == [s.result] + rest.results;
      forall i | 0 <= i < |tries|
        ensures t.results[i] == LoginRejected(AttemptsRemaining(MaxLoginAttempts - (Attempts(row) + i + 1)))
      {
        if i > 0 {
          assert t.results[i] == rest.results[i - 1];
        }
      }
    }
  }

  /** Five wrong passwords in a row on an active, unlocked account with no
      failures answer "4, 3, 2, 1 attempts remaining" and then lock it for
      15 minutes; while the lock lasts even the right password is refused,
      with between 1 and 15 minutes to wait. */
  lemma FiveWrongPasswordsLock(id: int, row: SuperAdminRow, tries: seq<Try>, compare: PasswordCheck,
                               later: Try)
    requires row.status == "active" && Attempts(row) == 0
    requires |tries| == MaxLoginAttempts
    requires forall i :: 0 <= i < |tries| ==>
      !compare(tries[i].password, row.passwordHash) && !IsLocked(row, tries[i].at)
    requires tries[4].at <= later.at < tries[4].at + LockoutDuration
    ensures var t := Replay(id, row, tries, compare);
      && t.results == [LoginRejected(AttemptsRemaining(4)), LoginRejected(AttemptsRemaining(3)),
                       LoginRejected(AttemptsRemaining(2)), LoginRejected(AttemptsRemaining(1)),
                       LoginRejected(LockedAfterFailures)]
      && t.final.accountLockedUntil == Some(tries[4].at + LockoutDuration)
      && var sixth := SuperAdminAttempt(id, t.final, later.password, later.at, compare);
         && sixth.result.LoginRejected? && sixth.result.failure.AccountLocked?
         && 1 <= sixth.result.failure.minutes <= 15
         && sixth.write.None?
  {
    var first4 := tries[..4];
    assert tries == first4 + [tries[4]];
    forall i | 0 <= i < |first4|
      ensures !compare(first4[i].password, row.passwordHash) && !IsLocked(row, first4[i].at)
    {
      assert first4[i] == tries[i];
    }
    WrongPasswordsCountDown(id, row, first4, compare);
    ReplayAppend(id, row, first4, [tries[4]], compare);
    var t4 := Replay(id, row, first4, compare);
    assert t4.final.(failedLoginAttempts := row.failedLoginAttempts) == row;
    assert t4.final.passwordHash == row.passwordHash && t4.final.status == row.status;
    assert t4.final.accountLockedUntil == row.accountLockedUntil;
    var s5 := SuperAdminAttempt(id, t4.final, tries[4].password, tries[4].at, compare);
    assert Replay(id, t4.final, [tries[4]], compare) == Trace([s5.result], s5.write.value);
    var t := Replay(id, row, tries, compare);
    assert t.results == t4.results + [s5.result];
    assert t.results[..4] == t4.results;
    assert t.results == [LoginRejected(AttemptsRemaining(4)), LoginRejected(AttemptsRemaining(3)),
                         LoginRejected(AttemptsRemaining(2)), LoginRejected(AttemptsRemaining(1)),
                         LoginRejected(LockedAfterFailures)];
  }

  /** The counter is not reset when the account locks, so once the window
      has passed a single further wrong password locks it again. */
  lemma RelockAfterWindow(id: int, row: SuperAdminRow, password: string, now: int, compare: PasswordCheck)
    requires LockConsistent(row) && row.status == "active"
    requires row.accountLockedUntil.Some? && row.accountLockedUntil.value <= now
    requires !compare(password, row.passwordHash)
    ensures var s := SuperAdminAttempt(id, row, password, now, compare);
      s.result == LoginRejected(LockedAfterFailures)
      && s.write.Some? && s.write.value.accountLockedUntil == Some(now + LockoutDuration)
      && Attempts(s.write.value) > MaxLoginAttempts
  {
  }

  /** The token a successful super-admin login returns, once signed and
      sent back as a bearer header, passes authenticateSuperAdmin for as
      long as the account stays active. */
  lemma LoginTokenAuthenticates(id: int, row: SuperAdminRow, password: string, now: int,
                                compare: PasswordCheck, signed: string,
                                jwtVerify: string -> JwtOutcome, table: map<int, SuperAdminRow>)
    requires SuperAdminAttempt(id, row, password, now, compare).result.LoggedIn?
    requires jwtVerify(signed) == Decoded(SuperAdminAttempt(id, row, password, now, compare).result.token)
    requires id in table && table[id].status == "active"
    ensures AuthenticateSuperAdmin(Some(BearerPrefix + signed), jwtVerify, table)
         == Accept(SuperAdminPrincipal(SuperAdminIdentityOf(table, id)))
  {
    BearerRoundTrip(signed);
  }

  // ---------------------------------------------------------------------
  // Password-reset tokens

  /** The index of the first row whose digest is `d`
      (`SELECT ... WHERE token_hash = $1`, rows[0]). */
  function FirstWithDigest(rows: seq<ResetTokenRow>, d: string): (r: Option<nat>)
    ensures r.Some? ==>
      && r.value < |rows| && rows[r.value].tokenHash == d
      && forall j :: 0 <= j < r.value ==> rows[j].tokenHash != d
    ensures r.None? ==> forall j :: 0 <= j < |rows| ==> rows[j].tokenHash != d
  {
    if rows == [] then None
    else if rows[0].tokenHash == d then Some(0)
    else
      match FirstWithDigest(rows[1..], d)
      case None => None
      case Some(k) => Some(k + 1)
  }

  /** Why a presented reset token is refused, in the order checked. */
  datatype TokenProblem = TokenNotFound | TokenAlreadyUsed | TokenExpired

  datatype TokenStatus = Rejected(problem: TokenProblem) | Usable(index: nat)

  /** The checks shared by verify-reset-token and reset-password. */
  function CheckToken(rows: seq<ResetTokenRow>, d: string, now: int): (s: TokenStatus)
    ensures s == Rejected(TokenNotFound) <==> forall j :: 0 <= j < |rows| ==> rows[j].tokenHash != d
    ensures s.Usable? ==>
      && FirstWithDigest(rows, d) == Some(s.index)
      && !rows[s.index].used && rows[s.index].expiresAt >= now
    ensures s == Rejected(TokenAlreadyUsed) <==>
      FirstWithDigest(rows, d).Some? && rows[FirstWithDigest(rows, d).value].used
    ensures s == Rejected(TokenExpired) <==>
      && FirstWithDigest(rows, d).Some?
      && !rows[FirstWithDigest(rows, d).value].used
      && rows[FirstWithDigest(rows, d).value].expiresAt < now
  {
    match FirstWithDigest(rows, d)
    case None => Rejected(TokenNotFound)
    case Some(i) =>
      if rows[i].used then Rejected(TokenAlreadyUsed)
      else if rows[i].expiresAt < now then Rejected(TokenExpired)
      else Usable(i)
  }

  /** `DELETE FROM admin_password_reset_tokens WHERE email = $1 AND id != $2` */
  function DeleteSiblings(rows: seq<ResetTokenRow>, email: string, keepId: int): (r: seq<ResetTokenRow>)
    ensures |r| <= |rows|
  {
    if rows == [] then []
    else if rows[0].email == email && rows[0].id != keepId then DeleteSiblings(rows[1..], email, keepId)
    else [rows[0]] + DeleteSiblings(rows[1..], email, keepId)
  }

  /** The rows kept are those of another e-mail and the row with the kept
      id. */
  lemma {:induction false} DeleteSiblingsKeeps(rows: seq<ResetTokenRow>, email: string, keepId: int)
    ensures forall x :: x in DeleteSiblings(rows, email, keepId) <==> x in rows && (x.email != email || x.id == keepId)
    decreases |rows|
  {
    if rows != [] {
      DeleteSiblingsKeeps(rows[1..], email, keepId);
      assert rows == [rows[0]] + rows[1..];
    }
  }

  /** What a successful reset does to the token table: the row is marked
      used and every other row for the same e-mail is deleted. */
  function ConsumeToken(rows: seq<ResetTokenRow>, i: nat): seq<ResetTokenRow>
    requires i < |rows|
  {
    DeleteSiblings(rows[i := rows[i].(used := true)], rows[i].email, rows[i].id)
  }

  /** The rows after the first of an ascending table are ascending and
      all come after it. */
  lemma AscendingTail(rows: seq<ResetTokenRow>, next: int)
    requires IdsAscending(rows, next) && rows != []
    ensures IdsAscending(rows[1..], next)
    ensures forall x | x in rows[1..] :: rows[0].id < x.id
  {
    var tail := rows[1..];
    forall i, j | 0 <= i < j < |tail| ensures tail[i].id < tail[j].id {
      assert tail[i] == rows[i + 1] && tail[j] == rows[j + 1];
    }
    forall x | x in tail ensures rows[0].id < x.id {
      var k :| 0 <= k < |tail| && tail[k] == x;
      assert x == rows[k + 1];
    }
  }

  /** A row before an ascending table, with a smaller id than all of it,
      keeps the table ascending. */
  lemma AscendingCons(head: ResetTokenRow, rest: seq<ResetTokenRow>, next: int)
    requires IdsAscending(rest, next) && 0 < head.id < next
    requires forall x | x in rest :: head.id < x.id
    ensures IdsAscending([head] + rest, next)
  {
    var all := [head] + rest;
    forall i, j | 0 <= i < j < |all| ensures all[i].id < all[j].id {
      assert all[j] == rest[j - 1];
      if i > 0 {
        assert all[i] == rest[i - 1];
      }
    }
  }

  lemma {:induction false} DeleteSiblingsAscending(rows: seq<ResetTokenRow>, email: string, keepId: int, next: int)
    requires IdsAscending(rows, next)
    ensures IdsAscending(DeleteSiblings(rows, email, keepId), next)
    decreases |rows|
  {
    if rows != [] {
      var tail := rows[1..];
      AscendingTail(rows, next);
      DeleteSiblingsAscending(tail, email, keepId, next);
      if !(rows[0].email == email && rows[0].id != keepId) {
        DeleteSiblingsKeeps(tail, email, keepId);
        AscendingCons(rows[0], DeleteSiblings(tail, email, keepId), next);
      }
    }
  }

  lemma ConsumeKeepsAscending(rows: seq<ResetTokenRow>, i: nat, next: int)
    requires IdsAscending(rows, next) && i < |rows|
    ensures IdsAscending(ConsumeToken(rows, i), next)
  {
    DeleteSiblingsAscending(rows[i := rows[i].(used := true)], rows[i].email, rows[i].id, next);
  }

  /** Deleting other rows keeps the first row with a digest first. */
  lemma {:induction false} FirstAfterDelete(rows: seq<ResetTokenRow>, d: string, email: string, keepId: int, i: nat)
    requires FirstWithDigest(rows, d) == Some(i)
    requires rows[i].email != email || rows[i].id == keepId
    ensures var r := DeleteSiblings(rows, email, keepId);
      FirstWithDigest(r, d).Some? && r[FirstWithDigest(r, d).value] == rows[i]
    decreases |rows|
  {
    if i == 0 {
      assert DeleteSiblings(rows, email, keepId)[0] == rows[0];
    } else {
      assert FirstWithDigest(rows[1..], d) == Some(i - 1);
      FirstAfterDelete(rows[1..], d, email, keepId, i - 1);
    }
  }

  /** A consumed token cannot be used again: presenting it a second time,
      at any time, is answered "already used". */
  lemma ConsumedTokenReportsUsed(rows: seq<ResetTokenRow>, next: int, d: string, now: int, later: int)
    requires IdsAscending(rows, next)
    requires CheckToken(rows, d, now).Usable?
    ensures CheckToken(ConsumeToken(rows, CheckToken(rows, d, now).index), d, later) == Rejected(TokenAlreadyUsed)
  {
    var i := CheckToken(rows, d, now).index;
    var marked := rows[i := rows[i].(used := true)];
    assert FirstWithDigest(marked, d) == Some(i) by {
      var f := FirstWithDigest(marked, d);
      assert marked[i].tokenHash == d;
      assert forall j :: 0 <= j < i ==> marked[j].tokenHash == rows[j].tokenHash;
      if f.Some? && f.value != i {
        assert false;
      }
    }
    FirstAfterDelete(marked, d, rows[i].email, rows[i].id, i);
  }

  /** After a reset the only row left for that e-mail is the consumed one,
      which is used: no other outstanding token for the address passes. */
  lemma ConsumeInvalidatesSiblings(rows: seq<ResetTokenRow>, next: int, i: nat, d: string, now: int)
    requires IdsAscending(rows, next) && i < |rows|
    ensures forall x :: x in ConsumeToken(rows, i) && x.email == rows[i].email ==> x == rows[i].(used := true)
    ensures var after := ConsumeToken(rows, i);
      CheckToken(after, d, now).Usable? ==> after[CheckToken(after, d, now).index].email != rows[i].email
  {
    var after := ConsumeToken(rows, i);
    var marked := rows[i := rows[i].(used := true)];
    DeleteSiblingsKeeps(marked, rows[i].email, rows[i].id);
    forall x | x in after && x.email == rows[i].email
      ensures x == rows[i].(used := true)
    {
      assert x in marked && x.id == rows[i].id;
      var k :| 0 <= k < |marked| && marked[k] == x;
      if k != i {
        assert false;
      }
    }
    var s := CheckToken(after, d, now);
    if s.Usable? {
      assert after[s.index] in after;
    }
  }

  /** Rows of other e-mail addresses survive a reset unchanged. */
  lemma ConsumeKeepsOtherEmails(rows: seq<ResetTokenRow>, i: nat, x: ResetTokenRow)
    requires i < |rows| && x in rows && x.email != rows[i].email
    ensures x in ConsumeToken(rows, i)
  {
    var k :| 0 <= k < |rows| && rows[k] == x;
    assert rows[i := rows[i].(used := true)][k] == x;
    DeleteSiblingsKeeps(rows[i := rows[i].(used := true)], rows[i].email, rows[i].id);
  }

  /** A token issued at `now` passes at every moment up to and including
      now + 1 h and is refused as expired after that, provided no older
      row has the same digest. */
  lemma IssuedTokenLastsOneHour(rows: seq<ResetTokenRow>, row: ResetTokenRow, at: int)
    requires forall j :: 0 <= j < |rows| ==> rows[j].tokenHash != row.tokenHash
    requires !row.used
    ensures at <= row.expiresAt ==> CheckToken(rows + [row], row.tokenHash, at) == Usable(|rows|)
    ensures at > row.expiresAt ==> CheckToken(rows + [row], row.tokenHash, at) == Rejected(TokenExpired)
  {
    var all := rows + [row];
    assert all[|rows|] == row;
    assert forall j :: 0 <= j < |rows| ==> all[j] == rows[j];
    assert FirstWithDigest(all, row.tokenHash) == Some(|rows|);
  }

  // ---------------------------------------------------------------------
  // Reset handlers

  /** The account kind forgot-password finds for an e-mail: an active
      super-admin first, then an active admin. */
  function ResetUserType(superAdmins: map<int, SuperAdminRow>, adminUsers: map<int, AdminUserRow>,
                         email: string): (t: Option<string>)
    ensures t == Some("super_admin") <==> HasActiveSuperAdmin(superAdmins, email)
    ensures t == Some("admin") <==> !HasActiveSuperAdmin(superAdmins, email) && HasActiveAdmin(adminUsers, email)
    ensures t.None? <==> !HasActiveSuperAdmin(superAdmins, email) && !HasActiveAdmin(adminUsers, email)
  {
    if HasActiveSuperAdmin(superAdmins, email) then Some("super_admin")
    else if HasActiveAdmin(adminUsers, email) then Some("admin")
    else None
  }

  datatype ForgotResult = EmailRequired | ResetLinkSentIfExists

  /** The message handed to the mail service; its delivery is not modelled
      and cannot change the response. */
  datatype ResetMail = ResetMail(to: string, rawToken: string, userType: string)

  /** POST /forgot-password. `rawToken` is the fresh random token. */
  method ForgotPassword(db: Database, email: Field, now: int, rawToken: string, digest: Digest)
    returns (r: ForgotResult, mail: Option<ResetMail>)
    requires db.Valid()
    modifies db`resetTokens, db`nextResetTokenId
    ensures db.Valid()
    // the same answer whether or not an account matches
    ensures r == if Truthy(email) then ResetLinkSentIfExists else EmailRequired
    ensures !Truthy(email) ==>
      db.resetTokens == old(db.resetTokens) && db.nextResetTokenId == old(db.nextResetTokenId) && mail.None?
    ensures Truthy(email) ==>
      var kind := ResetUserType(db.superAdmins, db.adminUsers, email.text);
      if kind.Some? then
        && db.resetTokens == old(db.resetTokens) +
             [ResetTokenRow(old(db.nextResetTokenId), email.text, digest(rawToken), kind.value,
                            now + ResetTokenExpiry, false)]
        && db.nextResetTokenId == old(db.nextResetTokenId) + 1
        && mail == Some(ResetMail(email.text, rawToken, kind.value))
      else
        && db.resetTokens == old(db.resetTokens)
        && db.nextResetTokenId == old(db.nextResetTokenId)
        && mail.None?
  {
    if !Truthy(email) {
      return EmailRequired, None;
    }
    var userType: Option<string> := None;
    if HasActiveSuperAdmin(db.superAdmins, email.text) {
      userType := Some("super_admin");
    } else if HasActiveAdmin(db.adminUsers, email.text) {
      userType := Some("admin");
    }
    if userType.None? {
      return ResetLinkSentIfExists, None;
    }
    var tokenHash := digest(rawToken);
    var expiresAt := now + ResetTokenExpiry;
    db.resetTokens := db.resetTokens +
      [ResetTokenRow(db.nextResetTokenId, email.text, tokenHash, userType.value, expiresAt, false)];
    db.nextResetTokenId := db.nextResetTokenId + 1;
    mail := Some(ResetMail(email.text, rawToken, userType.value));
    r := ResetLinkSentIfExists;
  }

  datatype VerifyResult = VerifyTokenRequired | VerifyRejected(problem: TokenProblem) | VerifyOk(email: string)

  /** POST /verify-reset-token: read-only. */
  method VerifyResetToken(db: Database, token: Field, now: int, digest: Digest) returns (r: VerifyResult)
    ensures !Truthy(token) ==> r == VerifyTokenRequired
    ensures Truthy(token) ==>
      match CheckToken(db.resetTokens, digest(token.text), now)
      case Rejected(p) => r == VerifyRejected(p)
      case Usable(i) => r == VerifyOk(db.resetTokens[i].email)
  {
    if !Truthy(token) {
      return VerifyTokenRequired;
    }
    var tokenHash := digest(token.text);
    var found := FirstWithDigest(db.resetTokens, tokenHash);
    if found.None? {
      return VerifyRejected(TokenNotFound);
    }
    var resetToken := db.resetTokens[found.value];
    if resetToken.used {
      return VerifyRejected(TokenAlreadyUsed);
    }
    if resetToken.expiresAt < now {
      return VerifyRejected(TokenExpired);
    }
    r := VerifyOk(resetToken.email);
  }

  /** `UPDATE super_admins SET password_hash = $1, failed_login_attempts = 0,
      account_locked_until = NULL WHERE email = $2` */
  function ResetSuperAdminsWithEmail(m: map<int, SuperAdminRow>, email: string, hash: string): (r: map<int, SuperAdminRow>)
    ensures r.Keys == m.Keys
  {
    map id | id in m :: if m[id].email == email
      then m[id].(passwordHash := hash, failedLoginAttempts := Some(0), accountLockedUntil := None)
      else m[id]
  }

  /** `UPDATE admin_users SET password_hash = $1 WHERE email = $2` */
  function ResetAdminsWithEmail(m: map<int, AdminUserRow>, email: string, hash: string): (r: map<int, AdminUserRow>)
    ensures r.Keys == m.Keys
  {
    map id | id in m :: if m[id].email == email then m[id].(passwordHash := hash) else m[id]
  }

  /** A reset by e-mail keeps the e-mails unique and every lock
      consistent: the rows it touches end with no failures and no lock. */
  lemma ResetSuperAdminsKeepsValid(m: map<int, SuperAdminRow>, email: string, hash: string)
    requires UniqueSuperAdminEmails(m)
    requires forall id :: id in m ==> LockConsistent(m[id])
    ensures var r := ResetSuperAdminsWithEmail(m, email, hash);
      && UniqueSuperAdminEmails(r)
      && (forall id :: id in r ==> LockConsistent(r[id]))
      && (forall id :: id in r ==> r[id].email == m[id].email)
  {
    var r := ResetSuperAdminsWithEmail(m, email, hash);
    assert forall id :: id in r ==> r[id].email == m[id].email;
  }

  lemma ResetAdminsKeepsValid(m: map<int, AdminUserRow>, email: string, hash: string)
    requires UniqueAdminEmails(m)
    ensures UniqueAdminEmails(ResetAdminsWithEmail(m, email, hash))
  {
    var r := ResetAdminsWithEmail(m, email, hash);
    assert forall id :: id in r ==> r[id].email == m[id].email;
  }

  datatype ResetResult =
    | ResetFieldsRequired
    | ResetPasswordTooShort
    | ResetRejected(problem: TokenProblem)
    | ResetDone

  /** POST /reset-password. `newHash` is the bcrypt hash of the new password. */
  method ResetPassword(db: Database, token: Field, newPassword: Field, now: int, digest: Digest, newHash: string)
    returns (r: ResetResult)
    requires db.Valid()
    modifies db`resetTokens, db`superAdmins, db`adminUsers
    ensures db.Valid()
    ensures !Truthy(token) || !Truthy(newPassword) ==> r == ResetFieldsRequired
    ensures Truthy(token) && Truthy(newPassword) && Utf16Length(newPassword.text) < ResetMinLength ==>
      r == ResetPasswordTooShort
    ensures !r.ResetDone? ==>
      db.resetTokens == old(db.resetTokens) && db.superAdmins == old(db.superAdmins)
      && db.adminUsers == old(db.adminUsers)
    ensures Truthy(token) && Truthy(newPassword) && Utf16Length(newPassword.text) >= ResetMinLength ==>
      match CheckToken(old(db.resetTokens), digest(token.text), now)
      case Rejected(p) => r == ResetRejected(p)
      case Usable(i) =>
        var row := old(db.resetTokens)[i];
        && r == ResetDone
        && db.resetTokens == ConsumeToken(old(db.resetTokens), i)
        && (row.userType == "super_admin" ==>
              db.superAdmins == ResetSuperAdminsWithEmail(old(db.superAdmins), row.email, newHash)
              && db.adminUsers == old(db.adminUsers))
        && (row.userType != "super_admin" ==>
              db.adminUsers == ResetAdminsWithEmail(old(db.adminUsers), row.email, newHash)
              && db.superAdmins == old(db.superAdmins))
  {
    if !Truthy(token) || !Truthy(newPassword) {
      return ResetFieldsRequired;
    }
    if Utf16Length(newPassword.text) < ResetMinLength {
      return ResetPasswordTooShort;
    }
    var tokenHash := digest(token.text);
    var found := FirstWithDigest(db.resetTokens, tokenHash);
    if found.None? {
      return ResetRejected(TokenNotFound);
    }
    var i := found.value;
    var resetToken := db.resetTokens[i];
    if resetToken.used {
      return ResetRejected(TokenAlreadyUsed);
    }
    if resetToken.expiresAt < now {
      return ResetRejected(TokenExpired);
    }
    if resetToken.userType == "super_admin" {
      ResetSuperAdminsKeepsValid(db.superAdmins, resetToken.email, newHash);
      db.superAdmins := ResetSuperAdminsWithEmail(db.superAdmins, resetToken.email, newHash);
    } else {
      ResetAdminsKeepsValid(db.adminUsers, resetToken.email, newHash);
      db.adminUsers := ResetAdminsWithEmail(db.adminUsers, resetToken.email, newHash);
    }
    ConsumeKeepsAscending(db.resetTokens, i, db.nextResetTokenId);
    db.resetTokens := db.resetTokens[i := resetToken.(used := true)];
    db.resetTokens := DeleteSiblings(db.resetTokens, resetToken.email, resetToken.id);
    r := ResetDone;
  }
}
