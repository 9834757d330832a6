/** The three tables the account-security code reads and writes, held in
    memory: `super_admins` and `admin_users` keyed by their SERIAL id, and
    `admin_password_reset_tokens` kept in row order so that "the first
    row a query returns" is well defined. */
module Store {
  import opened Js

  /** The most consecutive wrong passwords before a super-admin is locked. */
  const MaxLoginAttempts: nat := 5

  /** One row of `super_admins` (times are milliseconds). */
  datatype SuperAdminRow = SuperAdminRow(
    email: string,
    passwordHash: string,
    fullName: string,
    status: string,
    phone: Option<string>,
    failedLoginAttempts: Option<nat>,
    accountLockedUntil: Option<int>,
    lastLogin: Option<int>,
    passwordResetToken: Option<string>,
    passwordResetExpires: Option<int>)

  /** One row of `admin_users`. */
  datatype AdminUserRow = AdminUserRow(
    email: string,
    passwordHash: string,
    fullName: string,
    role: string,
    status: string,
    phone: Option<string>,
    department: Option<string>,
    lastLogin: Option<int>,
    createdBy: Option<string>)

  /** One row of `admin_password_reset_tokens`: only the digest of the
      token is stored. */
  datatype ResetTokenRow = ResetTokenRow(
    id: int,
    email: string,
    tokenHash: string,
    userType: string,
    expiresAt: int,
    used: bool)

  /** `failed_login_attempts || 0` */
  function Attempts(row: SuperAdminRow): nat {
    match row.failedLoginAttempts
    case None => 0
    case Some(n) => n
  }

  /** A lock is only ever recorded together with at least
      MaxLoginAttempts failures. */
  predicate LockConsistent(row: SuperAdminRow) {
    row.accountLockedUntil.Some? ==> Attempts(row) >= MaxLoginAttempts
  }

  /** The UNIQUE constraint on `super_admins.email`. */
  predicate UniqueSuperAdminEmails(m: map<int, SuperAdminRow>) {
    forall i, j :: i in m && j in m && m[i].email == m[j].email ==> i == j
  }

  /** The UNIQUE constraint on `admin_users.email`. */
  predicate UniqueAdminEmails(m: map<int, AdminUserRow>) {
    forall i, j :: i in m && j in m && m[i].email == m[j].email ==> i == j
  }

  /** Token row ids grow along the table and stay below the sequence. */
  predicate IdsAscending(rows: seq<ResetTokenRow>, next: int) {
    && (forall i, j :: 0 <= i < j < |rows| ==> rows[i].id < rows[j].id)
    && (forall i :: 0 <= i < |rows| ==> 0 < rows[i].id < next)
  }

  /** `SELECT ... FROM super_admins WHERE email = $1 AND status = 'active'`
      returns a row. */
  predicate HasActiveSuperAdmin(m: map<int, SuperAdminRow>, email: string) {
    exists id :: id in m && m[id].email == email && m[id].status == "active"
  }

  /** The same query on `admin_users`. */
  predicate HasActiveAdmin(m: map<int, AdminUserRow>, email: string) {
    exists id :: id in m && m[id].email == email && m[id].status == "active"
  }

  /** The number of rows with status 'active' (`SELECT COUNT(*) ... WHERE
      status = 'active'`). */
  function ActiveSuperAdminIds(m: map<int, SuperAdminRow>): set<int> {
    set id | id in m && m[id].status == "active"
  }

  class Database {
    var superAdmins: map<int, SuperAdminRow>
    var adminUsers: map<int, AdminUserRow>
    var resetTokens: seq<ResetTokenRow>
    var nextSuperAdminId: int
    var nextAdminUserId: int
    var nextResetTokenId: int

    ghost predicate Valid()
      reads this
    {
      && UniqueSuperAdminEmails(superAdmins)
      && UniqueAdminEmails(adminUsers)
      && (forall id :: id in superAdmins ==> 0 < id < nextSuperAdminId)
      && (forall id :: id in adminUsers ==> 0 < id < nextAdminUserId)
      && IdsAscending(resetTokens, nextResetTokenId)
      && nextSuperAdminId >= 1 && nextAdminUserId >= 1 && nextResetTokenId >= 1
      && (forall id :: id in superAdmins ==> LockConsistent(superAdmins[id]))
    }

    /** Empty tables with their sequences at 1. */
    constructor ()
      ensures Valid()
      ensures superAdmins == map[] && adminUsers == map[] && resetTokens == []
    {
      superAdmins := map[];
      adminUsers := map[];
      resetTokens := [];
      nextSuperAdminId := 1;
      nextAdminUserId := 1;
      nextResetTokenId := 1;
    }
  }
}
