/** The access check every administrator view goes through (admin_required). */
module Decorators {
  import opened Wrappers

  /** What the check needs to know about the requesting user: whether they are
      logged in, whether they are staff, and the must_change_password flag of
      their administrator profile when they have one. */
  datatype User = User(authenticated: bool, staff: bool, mustChangePassword: Option<bool>)

  /** Where the request goes. */
  datatype Access = ToLogin | ToHome | ToChangePassword | RunView

  /** The path of the password change page, which stays reachable. */
  const ChangePasswordPath: string := "/change-password/"

  /** The checks in order: logged in, then staff, then the password flag. */
  function AdminRequired(user: User, path: string): Access
  {
    if !user.authenticated then ToLogin
    else if !user.staff then ToHome
    else if user.mustChangePassword == Some(true) && path != ChangePasswordPath then ToChangePassword
    else RunView
  }

  /** The decision table, one line per outcome, each an if-and-only-if. */
  lemma AdminRequiredTable(user: User, path: string)
    ensures AdminRequired(user, path) == ToLogin <==> !user.authenticated
    ensures AdminRequired(user, path) == ToHome <==> user.authenticated && !user.staff
    ensures AdminRequired(user, path) == ToChangePassword <==>
      user.authenticated && user.staff && user.mustChangePassword == Some(true) && path != ChangePasswordPath
    ensures AdminRequired(user, path) == RunView <==>
      user.authenticated && user.staff && (user.mustChangePassword != Some(true) || path == ChangePasswordPath)
  {
  }

  /** An anonymous visitor goes to the login page whatever else is said about them. */
  lemma AnonymousAlwaysToLogin(staff: bool, flag: Option<bool>, path: string)
    ensures AdminRequired(User(false, staff, flag), path) == ToLogin
  {
  }

  /** The password change page never redirects a staff member to itself. */
  lemma ChangePasswordPageReachable(user: User)
    requires user.authenticated && user.staff
    ensures AdminRequired(user, ChangePasswordPath) == RunView
  {
  }
}
