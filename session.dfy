/**
 * What the screens read from the session store (`userToken`, `userRole`, `username`, `userId`)
 * and the role names they compare against. A missing key reads as None.
 */
module Session {
  import opened Wrappers

  const SuperAdmin := "super_admin"
  const AdminInventori := "admin_inventori"
  const AdminResep := "admin_resep"
  const AdminUser := "admin_user"
  const RegularUser := "user"

  /** The outcome of a screen's access check: carry on, or "Akses Ditolak" and go back. */
  datatype Access = Granted | Denied

  /** A stored string that JavaScript treats as present: not null and not empty. */
  predicate Present(item: Option<string>) {
    item.Some? && item.value != ""
  }

  /** `if (!role || !allowed.includes(role)) deny` */
  function Gate(role: Option<string>, allowed: seq<string>): Access {
    if !Present(role) || role.value !in allowed then Denied else Granted
  }

  /** The check the user list and the login logs share: only super administrators and user administrators get in. */
  function UserAdminAccess(role: Option<string>): (r: Access)
    ensures r == Granted <==> role == Some(SuperAdmin) || role == Some(AdminUser)
  {
    Gate(role, [SuperAdmin, AdminUser])
  }

  /** The missing-token guard: no token means back to the sign-in screen and no request. */
  datatype Start = Proceed | ToLogin

  function TokenGuard(token: Option<string>): (r: Start)
    ensures r == Proceed <==> Present(token)
  {
    if Present(token) then Proceed else ToLogin
  }
}
