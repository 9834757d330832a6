/** The roles the dashboard distinguishes (src/types/adminUser.ts and the
    `userRole` prop the components share). */
module AdminTypes {
  datatype Role = SuperAdminRole | AdminRole | ModeratorRole

  /** The string the front end and the `role`/`userType` columns use. */
  function RoleName(r: Role): string {
    match r
    case SuperAdminRole => "super_admin"
    case AdminRole => "admin"
    case ModeratorRole => "moderator"
  }
}
