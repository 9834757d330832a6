/** Bearer-token authorization (backend/middleware/auth.js): every
    protected request carries `Authorization: Bearer <jwt>`; the token is
    verified and the account it names is read again, and must still be
    active. Attaching the account to the request and calling `next()` is
    modelled as an `Accept` decision carrying that account. */
module Middleware {
  import opened Js
  import opened Store

  /** The payload `generateToken` signs. Super-admin tokens carry no role. */
  datatype Claims = Claims(userId: int, email: string, role: Option<string>, userType: string)

  /** What `jwt.verify` does with a token string: returns the payload, or
      throws (bad signature, expired, malformed). */
  datatype JwtOutcome = Decoded(claims: Claims) | Threw(error: string)

  /** `verifyToken`: a thrown verification error becomes null. */
  function VerifyToken(token: string, jwtVerify: string -> JwtOutcome): (r: Option<Claims>)
    ensures r.None? <==> jwtVerify(token).Threw?
    ensures r.Some? ==> r.value == jwtVerify(token).claims
  {
    match jwtVerify(token)
    case Decoded(c) => Some(c)
    case Threw(_) => None
  }

  const BearerPrefix: string := "Bearer "

  /** The token of an `Authorization` header: absent, or not starting with
      "Bearer ", gives none; otherwise everything after the first seven
      characters. */
  function BearerToken(header: Option<string>): (r: Option<string>)
    ensures r.None? <==> header.None? || !(BearerPrefix <= header.value)
    ensures r.Some? ==> header.value == BearerPrefix + r.value
  {
    if header.Some? && BearerPrefix <= header.value then Some(header.value[7..]) else None
  }

  /** The prefix and the token split apart again. */
  lemma BearerRoundTrip(token: string)
    ensures BearerToken(Some(BearerPrefix + token)) == Some(token)
  {
    assert BearerPrefix <= BearerPrefix + token;
    assert (BearerPrefix + token)[7..] == token;
  }

  /** The columns the super-admin lookup selects and attaches as
      `req.superAdmin`. */
  datatype SuperAdminIdentity = SuperAdminIdentity(id: int, email: string, fullName: string, status: string)

  /** The columns the admin lookup selects and attaches as `req.admin`. */
  datatype AdminIdentity = AdminIdentity(id: int, email: string, fullName: string, role: string, status: string)

  datatype Principal =
    | SuperAdminPrincipal(superAdmin: SuperAdminIdentity)
    | AdminPrincipal(admin: AdminIdentity)

  /** `req.userType` as authenticateAny sets it. */
  function UserType(p: Principal): string {
    match p
    case SuperAdminPrincipal(_) => "super_admin"
    case AdminPrincipal(_) => "admin"
  }

  /** One failure response per message of the middleware. */
  datatype AuthFailure =
    | NoTokenProvided
    | InvalidOrExpiredToken
    | SuperAdminRequired
    | AdminRequired
    | SuperAdminNotFoundOrInactive
    | AdminNotFoundOrInactive
    | UserNotFoundOrInactive

  function FailureStatus(f: AuthFailure): nat {
    match f
    case SuperAdminRequired => 403
    case AdminRequired => 403
    case _ => 401
  }

  datatype Decision = Accept(principal: Principal) | Reject(failure: AuthFailure)

  /** `SELECT ... WHERE id = $1 AND status = 'active'` on `super_admins`. */
  predicate ActiveSuperAdminId(table: map<int, SuperAdminRow>, id: int) {
    id in table && table[id].status == "active"
  }

  predicate ActiveAdminId(table: map<int, AdminUserRow>, id: int) {
    id in table && table[id].status == "active"
  }

  function SuperAdminIdentityOf(table: map<int, SuperAdminRow>, id: int): SuperAdminIdentity
    requires id in table
  {
    SuperAdminIdentity(id, table[id].email, table[id].fullName, table[id].status)
  }

  function AdminIdentityOf(table: map<int, AdminUserRow>, id: int): AdminIdentity
    requires id in table
  {
    AdminIdentity(id, table[id].email, table[id].fullName, table[id].role, table[id].status)
  }

  /** The claims a request presents, if its header holds a verifiable token. */
  function PresentedClaims(header: Option<string>, jwtVerify: string -> JwtOutcome): Option<Claims> {
    match BearerToken(header)
    case None => None
    case Some(t) => VerifyToken(t, jwtVerify)
  }

  /** `authenticateSuperAdmin`. */
  function AuthenticateSuperAdmin(header: Option<string>, jwtVerify: string -> JwtOutcome,
                                  superAdmins: map<int, SuperAdminRow>): (d: Decision)
    ensures d.Accept? <==>
      && PresentedClaims(header, jwtVerify).Some?
      && PresentedClaims(header, jwtVerify).value.userType == "super_admin"
      && ActiveSuperAdminId(superAdmins, PresentedClaims(header, jwtVerify).value.userId)
    ensures d.Accept? ==>
      var id := PresentedClaims(header, jwtVerify).value.userId;
      d.principal == SuperAdminPrincipal(SuperAdminIdentityOf(superAdmins, id))
    ensures d.Reject? && FailureStatus(d.failure) == 403 <==>
      PresentedClaims(header, jwtVerify).Some? && PresentedClaims(header, jwtVerify).value.userType != "super_admin"
  {
    match BearerToken(header)
    case None => Reject(NoTokenProvided)
    case Some(token) =>
      match VerifyToken(token, jwtVerify)
      case None => Reject(InvalidOrExpiredToken)
      case Some(c) =>
        if c.userType != "super_admin" then Reject(SuperAdminRequired)
        else if !ActiveSuperAdminId(superAdmins, c.userId) then Reject(SuperAdminNotFoundOrInactive)
        else Accept(SuperAdminPrincipal(SuperAdminIdentityOf(superAdmins, c.userId)))
  }

  /** `authenticateAdmin`: the same decision for userType 'admin' against
      `admin_users`. */
  function AuthenticateAdmin(header: Option<string>, jwtVerify: string -> JwtOutcome,
                             adminUsers: map<int, AdminUserRow>): (d: Decision)
    ensures d.Accept? <==>
      && PresentedClaims(header, jwtVerify).Some?
      && PresentedClaims(header, jwtVerify).value.userType == "admin"
      && ActiveAdminId(adminUsers, PresentedClaims(header, jwtVerify).value.userId)
    ensures d.Accept? ==>
      var id := PresentedClaims(header, jwtVerify).value.userId;
      d.principal == AdminPrincipal(AdminIdentityOf(adminUsers, id))
    ensures d.Reject? && FailureStatus(d.failure) == 403 <==>
      PresentedClaims(header, jwtVerify).Some? && PresentedClaims(header, jwtVerify).value.userType != "admin"
  {
    match BearerToken(header)
    case None => Reject(NoTokenProvided)
    case Some(token) =>
      match VerifyToken(token, jwtVerify)
      case None => Reject(InvalidOrExpiredToken)
      case Some(c) =>
        if c.userType != "admin" then Reject(AdminRequired)
        else if !ActiveAdminId(adminUsers, c.userId) then Reject(AdminNotFoundOrInactive)
        else Accept(AdminPrincipal(AdminIdentityOf(adminUsers, c.userId)))
  }

  /** `authenticateAny`: an active super-admin or admin, tagged with its
      kind; every other outcome is a 401. */
  function AuthenticateAny(header: Option<string>, jwtVerify: string -> JwtOutcome,
                           superAdmins: map<int, SuperAdminRow>,
                           adminUsers: map<int, AdminUserRow>): (d: Decision)
    ensures d.Reject? ==> FailureStatus(d.failure) == 401
    ensures d.Accept? ==>
      && PresentedClaims(header, jwtVerify).Some?
      && var c := PresentedClaims(header, jwtVerify).value;
      && UserType(d.principal) == c.userType
      && (d.principal.SuperAdminPrincipal? ==> ActiveSuperAdminId(superAdmins, c.userId))
      && (d.principal.AdminPrincipal? ==> ActiveAdminId(adminUsers, c.userId))
  {
    match BearerToken(header)
    case None => Reject(NoTokenProvided)
    case Some(token) =>
      match VerifyToken(token, jwtVerify)
      case None => Reject(InvalidOrExpiredToken)
      case Some(c) =>
        if c.userType == "super_admin" && ActiveSuperAdminId(superAdmins, c.userId) then
          Accept(SuperAdminPrincipal(SuperAdminIdentityOf(superAdmins, c.userId)))
        else if c.userType == "admin" && ActiveAdminId(adminUsers, c.userId) then
          Accept(AdminPrincipal(AdminIdentityOf(adminUsers, c.userId)))
        else Reject(UserNotFoundOrInactive)
  }

  /** authenticateAny lets a super-admin in exactly when
      authenticateSuperAdmin does, and an admin exactly when
      authenticateAdmin does, attaching the same account. */
  lemma AnyAgreesWithSpecific(header: Option<string>, jwtVerify: string -> JwtOutcome,
                              superAdmins: map<int, SuperAdminRow>,
                              adminUsers: map<int, AdminUserRow>)
    ensures var any := AuthenticateAny(header, jwtVerify, superAdmins, adminUsers);
      && (any.Accept? && any.principal.SuperAdminPrincipal? <==>
            AuthenticateSuperAdmin(header, jwtVerify, superAdmins).Accept?)
      && (any.Accept? && any.principal.AdminPrincipal? <==>
            AuthenticateAdmin(header, jwtVerify, adminUsers).Accept?)
      && (AuthenticateSuperAdmin(header, jwtVerify, superAdmins).Accept? ==>
            any == AuthenticateSuperAdmin(header, jwtVerify, superAdmins))
      && (AuthenticateAdmin(header, jwtVerify, adminUsers).Accept? ==>
            any == AuthenticateAdmin(header, jwtVerify, adminUsers))
  {
    match BearerToken(header)
    case None =>
    case Some(token) =>
      match VerifyToken(token, jwtVerify)
      case None =>
      case Some(c) =>
  }

  /** A token that still verifies is refused once its account is no
      longer active: every variant re-reads the account with
      status = 'active'. */
  lemma DeactivatedAccountLosesAccess(header: Option<string>, jwtVerify: string -> JwtOutcome,
                                      superAdmins: map<int, SuperAdminRow>,
                                      adminUsers: map<int, AdminUserRow>)
    requires PresentedClaims(header, jwtVerify).Some?
    requires var id := PresentedClaims(header, jwtVerify).value.userId;
      (id in superAdmins ==> superAdmins[id].status != "active") &&
      (id in adminUsers ==> adminUsers[id].status != "active")
    ensures AuthenticateSuperAdmin(header, jwtVerify, superAdmins).Reject?
    ensures AuthenticateAdmin(header, jwtVerify, adminUsers).Reject?
    ensures AuthenticateAny(header, jwtVerify, superAdmins, adminUsers).Reject?
  {
    var c := PresentedClaims(header, jwtVerify).value;
    assert !ActiveSuperAdminId(superAdmins, c.userId);
    assert !ActiveAdminId(adminUsers, c.userId);
  }
}
