/** The dashboard shell (src/App.tsx): which screen is shown, the role
    restored from local storage, the section guard and login/logout. */
module App {
  import opened Js
  import opened AdminTypes
  import Sidebar
  import Store
  import AuthRoutes

  datatype AuthView = LoginView | ForgotPasswordView | ResetPasswordView

  /** The components `renderActiveSection` can return. */
  datatype Section =
    | ApplicationsSection | DoctorsSection | ClinicsSection | UsersSection
    | AnalyticsSection | ProfileSection | SettingsSection

  /** What the shell renders. */
  datatype Screen = LoginScreen | ForgotPasswordScreen | ResetPasswordScreen(token: string) | Dashboard

  /** The two properties of the stored `user` object the shell reads. */
  datatype StoredUser = StoredUser(userType: Field, role: Field)

  /** The outcome of `JSON.parse` on the stored `user` string: an object
      (or another non-null value, whose properties read as `undefined`),
      `null` (the text "null"), or a syntax error. */
  datatype Parsed = ParsedUser(user: StoredUser) | ParsedNull | ParseError

  const TokenKey: string := "token"
  const UserKey: string := "user"
  const HomeSection: string := "applications"

  /** `localStorage.getItem(key)` */
  function GetItem(storage: map<string, string>, key: string): Option<string> {
    if key in storage then Some(storage[key]) else None
  }

  /** Both `token` and `user` are stored and non-empty. */
  predicate HasStoredSession(storage: map<string, string>) {
    Present(GetItem(storage, TokenKey)) && Present(GetItem(storage, UserKey))
  }

  /** The role restored from the stored user. */
  function DeriveRole(user: StoredUser): (r: Role)
    ensures r == SuperAdminRole <==> user.userType == Given("super_admin")
    ensures r == ModeratorRole <==> user.userType != Given("super_admin") && user.role == Given("moderator")
    ensures r == AdminRole <==> user.userType != Given("super_admin") && user.role != Given("moderator")
  {
    if user.userType == Given("super_admin") then SuperAdminRole
    else if user.role == Given("moderator") then ModeratorRole
    else AdminRole
  }

  /** The `user` object the login page stores: the login response's user,
      whose `role` is `undefined` for a super admin. */
  function StoredUserOf(u: AuthRoutes.PublicUser): StoredUser {
    StoredUser(Given(u.userType), if u.role.Some? then Given(u.role.value) else Absent)
  }

  /** A session restored from a successful super-admin login carries the
      super-admin role; one from an admin login carries the moderator role
      exactly when the account's role column says so, and the admin role
      otherwise. */
  lemma RestoredRoleMatchesLogin(id: int, superAdmin: Store.SuperAdminRow, admin: Store.AdminUserRow,
                                 password: string, now: int, compare: AuthRoutes.PasswordCheck)
    ensures var s := AuthRoutes.SuperAdminAttempt(id, superAdmin, password, now, compare);
      s.result.LoggedIn? ==> DeriveRole(StoredUserOf(s.result.user)) == SuperAdminRole
    ensures var a := AuthRoutes.AdminAttempt(id, admin, password, now, compare);
      a.result.LoggedIn? ==>
        && a.result.user.role == Some(admin.role)
        && (DeriveRole(StoredUserOf(a.result.user)) == ModeratorRole <==> admin.role == "moderator")
        && DeriveRole(StoredUserOf(a.result.user)) != SuperAdminRole
  {
  }

  /** The switch of `renderActiveSection`: a known section id and its
      component. */
  function KnownSection(id: string): Option<Section> {
    if id == "applications" then Some(ApplicationsSection)
    else if id == "doctors" then Some(DoctorsSection)
    else if id == "clinics" then Some(ClinicsSection)
    else if id == "users" then Some(UsersSection)
    else if id == "analytics" then Some(AnalyticsSection)
    else if id == "profile" then Some(ProfileSection)
    else if id == "settings" then Some(SettingsSection)
    else None
  }

  /** The guard: settings and profile are for super admins only. */
  predicate Redirects(active: string, role: Role) {
    (active == "settings" || active == "profile") && role != SuperAdminRole
  }

  /** The section `renderActiveSection` shows. */
  function SectionShown(active: string, role: Role): (s: Section)
    ensures Redirects(active, role) ==> s == ApplicationsSection
    ensures !Redirects(active, role) && KnownSection(active).Some? ==> s == KnownSection(active).value
    ensures KnownSection(active).None? ==> s == ApplicationsSection
  {
    if Redirects(active, role) then ApplicationsSection
    else match KnownSection(active)
      case Some(s) => s
      case None => ApplicationsSection
  }

  /** Only a super admin ever sees the profile or settings page. */
  lemma AdminPagesNeedSuperAdmin(active: string, role: Role)
    ensures SectionShown(active, role) in {ProfileSection, SettingsSection} ==> role == SuperAdminRole
    ensures role == SuperAdminRole && active == "profile" ==> SectionShown(active, role) == ProfileSection
    ensures role == SuperAdminRole && active == "settings" ==> SectionShown(active, role) == SettingsSection
  {
  }

  /** Every item the sidebar shows a role opens its own section, without
      the guard sending it back to the applications. */
  lemma MenuItemsOpenTheirSection(role: Role, item: Sidebar.MenuItem)
    requires item in Sidebar.VisibleMenu(role)
    ensures !Redirects(item.id, role)
    ensures KnownSection(item.id).Some? && SectionShown(item.id, role) == KnownSection(item.id).value
  {
    if role == SuperAdminRole {
      Sidebar.SuperAdminSeesAll();
    } else {
      Sidebar.OthersSeeFive(role);
    }
    assert item in Sidebar.CommonItems + Sidebar.SuperAdminItems;
  }

  /** The screen for the shell's state: the dashboard once authenticated,
      otherwise the page the authentication view names. */
  function ScreenOf(isAuthenticated: bool, authView: AuthView, resetToken: string): (s: Screen)
    ensures s == Dashboard <==> isAuthenticated
    ensures !isAuthenticated && authView == ResetPasswordView ==> s == ResetPasswordScreen(resetToken)
    ensures !isAuthenticated && authView == LoginView ==> s == LoginScreen
  {
    if isAuthenticated then Dashboard
    else if authView == ForgotPasswordView then ForgotPasswordScreen
    else if authView == ResetPasswordView then ResetPasswordScreen(resetToken)
    else LoginScreen
  }

  /** The shell's state, with local storage as a map. */
  class Shell {
    var activeSection: string
    var isAuthenticated: bool
    var userRole: Role
    var authView: AuthView
    var resetToken: string
    var storage: map<string, string>

    /** The initial state over what local storage holds. */
    constructor(storage: map<string, string>)
      ensures activeSection == HomeSection && !isAuthenticated && userRole == SuperAdminRole
      ensures authView == LoginView && resetToken == "" && this.storage == storage
    {
      activeSection := HomeSection;
      isAuthenticated := false;
      userRole := SuperAdminRole;
      authView := LoginView;
      resetToken := "";
      this.storage := storage;
    }

    function CurrentScreen(): Screen
      reads this
    {
      ScreenOf(isAuthenticated, authView, resetToken)
    }

    /** The mount effect. A reset link's `token` query parameter opens the
        reset page and skips the stored session; otherwise a stored token
        and user restore the session, and a user that does not parse clears
        both keys. A user that parses to `null` is authenticated before
        `user.userType` throws, so the shell ends authenticated with its
        previous role while both keys are removed. `parse` stands for
        `JSON.parse`. */
    method RestoreSession(urlToken: Option<string>, parse: string -> Parsed)
      modifies this`resetToken, this`authView, this`isAuthenticated, this`userRole, this`storage
      ensures Present(urlToken) ==>
        && resetToken == urlToken.value && authView == ResetPasswordView
        && isAuthenticated == old(isAuthenticated) && userRole == old(userRole) && storage == old(storage)
      ensures !Present(urlToken) ==> resetToken == old(resetToken) && authView == old(authView)
      ensures !Present(urlToken) && !HasStoredSession(old(storage)) ==>
        isAuthenticated == old(isAuthenticated) && userRole == old(userRole) && storage == old(storage)
      ensures !Present(urlToken) && HasStoredSession(old(storage)) ==>
        match parse(old(storage)[UserKey])
        case ParsedUser(u) =>
          isAuthenticated && userRole == DeriveRole(u) && storage == old(storage)
        case ParsedNull =>
          isAuthenticated && userRole == old(userRole) && storage == old(storage) - {TokenKey, UserKey}
        case ParseError =>
          && isAuthenticated == old(isAuthenticated) && userRole == old(userRole)
          && storage == old(storage) - {TokenKey, UserKey}
      ensures !old(isAuthenticated) && Present(urlToken) ==> CurrentScreen() == ResetPasswordScreen(urlToken.value)
    {
      if Present(urlToken) {
        resetToken := urlToken.value;
        authView := ResetPasswordView;
        return;
      }
      var authToken := GetItem(storage, TokenKey);
      var userStr := GetItem(storage, UserKey);
      if Present(authToken) && Present(userStr) {
        match parse(userStr.value)
        case ParsedUser(user) =>
          isAuthenticated := true;
          userRole := DeriveRole(user);
        case ParsedNull =>
          isAuthenticated := true;
          storage := storage - {TokenKey};
          storage := storage - {UserKey};
        case ParseError =>
          storage := storage - {TokenKey};
          storage := storage - {UserKey};
      }
    }

    /** `renderActiveSection`: the guard also moves the active section back
        to the applications. */
    method RenderActiveSection() returns (view: Section)
      modifies this`activeSection
      ensures view == SectionShown(old(activeSection), userRole)
      ensures activeSection == if Redirects(old(activeSection), userRole) then HomeSection else old(activeSection)
    {
      if Redirects(activeSection, userRole) {
        activeSection := HomeSection;
        return ApplicationsSection;
      }
      var known := KnownSection(activeSection);
      view := if known.Some? then known.value else ApplicationsSection;
    }

    /** A sidebar click: `setActiveSection(item.id)`. */
    method SelectMenuItem(item: Sidebar.MenuItem)
      modifies this`activeSection
      ensures activeSection == item.id
    {
      activeSection := item.id;
    }

    /** `handleLogin(role = 'super_admin')`; `None` is a call without a
        role. */
    method HandleLogin(role: Option<Role>)
      modifies this`isAuthenticated, this`userRole
      ensures isAuthenticated
      ensures userRole == if role.Some? then role.value else SuperAdminRole
    {
      isAuthenticated := true;
      userRole := if role.Some? then role.value else SuperAdminRole;
    }

    /** `handleLogout` */
    method HandleLogout()
      modifies this`isAuthenticated, this`activeSection, this`storage
      ensures !isAuthenticated && activeSection == HomeSection
      ensures storage == old(storage) - {TokenKey, UserKey}
      ensures !HasStoredSession(storage)
    {
      isAuthenticated := false;
      activeSection := HomeSection;
      storage := storage - {TokenKey};
      storage := storage - {UserKey};
    }

    /** The login page's "forgot password" link. */
    method ShowForgotPassword()
      modifies this`authView
      ensures authView == ForgotPasswordView
    {
      authView := ForgotPasswordView;
    }

    /** The forgot-password page's "back to login" link. */
    method BackToLogin()
      modifies this`authView
      ensures authView == LoginView
    {
      authView := LoginView;
    }

    /** The reset page's `onResetSuccess`. */
    method ResetFinished()
      modifies this`authView, this`resetToken
      ensures authView == LoginView && resetToken == ""
    {
      authView := LoginView;
      resetToken := "";
    }
  }
}
