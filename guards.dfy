/** The two route guards: each either renders its children or redirects to
    the dashboard. */
module Guards {
  import opened Base
  import opened Domain

  datatype RouteOutcome = Children | Redirect(to: string)

  /** `AdminRoute`: an authenticated admin or super-admin sees the page. */
  function AdminRoute(isAuthenticated: bool, userType: Option<Role>): (r: RouteOutcome)
    ensures r.Redirect? ==> r.to == "/dashboard"
    ensures !isAuthenticated ==> r.Redirect?
    ensures userType.None? || userType == Some(Coach) ==> r.Redirect?
    ensures r.Children? <==> isAuthenticated && (userType == Some(Admin) || userType == Some(SuperAdmin))
  {
    var allowed := [Some(Admin), Some(SuperAdmin)];
    if !isAuthenticated || userType !in allowed then Redirect("/dashboard") else Children
  }

  /** `SuperAdminRoute`: only an authenticated super-admin sees the page. */
  function SuperAdminRoute(isAuthenticated: bool, userType: Option<Role>): (r: RouteOutcome)
    ensures r.Redirect? ==> r.to == "/dashboard"
    ensures r.Children? <==> isAuthenticated && userType == Some(SuperAdmin)
  {
    if !isAuthenticated || userType != Some(SuperAdmin) then Redirect("/dashboard") else Children
  }

  /** Whoever passes the super-admin guard passes the admin guard; an
      authenticated admin is the one user who passes only the latter. */
  lemma SuperAdminImpliesAdmin(isAuthenticated: bool, userType: Option<Role>)
    ensures SuperAdminRoute(isAuthenticated, userType).Children? ==> AdminRoute(isAuthenticated, userType).Children?
    ensures AdminRoute(isAuthenticated, userType).Children? && SuperAdminRoute(isAuthenticated, userType).Redirect?
            <==> isAuthenticated && userType == Some(Admin)
  {
  }
}
