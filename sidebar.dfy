// The sidebar's navigation links and which of them a signed-in user sees.

module Sidebar {
  import opened Base
  import opened Domain

  /** A navigation entry; `roles == None` means the link is not restricted. */
  datatype NavLink = NavLink(href: string, caption: string, roles: Option<seq<Role>>)

  const DashboardLink := NavLink("/dashboard", "Dashboard", None)
  const AttendanceLink := NavLink("/attendance", "Asistencia", None)
  const CategoriesLink := NavLink("/categories", "Categorías", None)
  const TeamsLink := NavLink("/teams", "Equipos", None)
  const RegisterLink := NavLink("/register", "Registrar Jugador", None)
  const SettingsLink := NavLink("/superadmin", "Configuración", Some([SuperAdmin]))

  /** The links of the application, in display order. */
  const NavLinks: seq<NavLink> :=
    [DashboardLink, AttendanceLink, CategoriesLink, TeamsLink, RegisterLink, SettingsLink]

  /** A coach is shown what an administrator is shown. */
  function EffectiveRole(userType: Option<Role>): (r: Option<Role>)
    ensures r.None? <==> userType.None?
    ensures r != Some(Coach)
    ensures userType.Some? && userType.value != Coach ==> r == userType
  {
    if userType == Some(Coach) then Some(Admin) else userType
  }

  /** The test the sidebar applies to each link. */
  predicate Visible(link: NavLink, userType: Option<Role>, teamCreationEnabled: bool)
  {
    if link.href == "/teams" && !teamCreationEnabled then false
    else if link.roles.None? then true
    else
      var role := EffectiveRole(userType);
      role.Some? && role.value in link.roles.value
  }

  function VisibleLinks(links: seq<NavLink>, userType: Option<Role>, teamCreationEnabled: bool): (r: seq<NavLink>)
    ensures forall i :: 0 <= i < |r| ==> r[i] in links && Visible(r[i], userType, teamCreationEnabled)
    ensures forall i :: 0 <= i < |links| && Visible(links[i], userType, teamCreationEnabled) ==> links[i] in r
  {
    Filter(links, (l: NavLink) => Visible(l, userType, teamCreationEnabled))
  }

  /** The links the sidebar renders. */
  function VisibleNavLinks(userType: Option<Role>, teamCreationEnabled: bool): seq<NavLink>
  {
    VisibleLinks(NavLinks, userType, teamCreationEnabled)
  }

  /** The sidebar keeps the order of the link table and invents no link. */
  lemma VisibleIsSubsequence(links: seq<NavLink>, userType: Option<Role>, teamCreationEnabled: bool)
    ensures IsSubsequence(VisibleLinks(links, userType, teamCreationEnabled), links)
  {
    FilterIsSubsequence(links, (l: NavLink) => Visible(l, userType, teamCreationEnabled));
  }

  /** With team creation switched off no user sees a link to '/teams'. */
  lemma TeamsHiddenWhenDisabled(links: seq<NavLink>, userType: Option<Role>)
    ensures forall l :: l in VisibleLinks(links, userType, false) ==> l.href != "/teams"
  {
  }

  /** An unrestricted link other than '/teams' is shown to everyone, signed
      out included. */
  lemma UnrestrictedVisible(links: seq<NavLink>, l: NavLink, userType: Option<Role>, teamCreationEnabled: bool)
    requires l in links && l.roles.None?
    requires l.href != "/teams" || teamCreationEnabled
    ensures l in VisibleLinks(links, userType, teamCreationEnabled)
  {
  }

  /** A restricted link is shown exactly when the user's effective role is
      listed; without a user type no restricted link is shown. */
  lemma RestrictedVisibleIff(links: seq<NavLink>, l: NavLink, userType: Option<Role>, teamCreationEnabled: bool)
    requires l in links && l.roles.Some? && l.href != "/teams"
    ensures (l in VisibleLinks(links, userType, teamCreationEnabled))
              <==> EffectiveRole(userType).Some? && EffectiveRole(userType).value in l.roles.value
    ensures userType.None? ==> l !in VisibleLinks(links, userType, teamCreationEnabled)
  {
  }

  /** A coach sees exactly the links an administrator sees. */
  lemma {:induction false} CoachSeesAdminLinks(links: seq<NavLink>, teamCreationEnabled: bool)
    ensures VisibleLinks(links, Some(Coach), teamCreationEnabled) == VisibleLinks(links, Some(Admin), teamCreationEnabled)
    decreases |links|
  {
    if links != [] {
      CoachSeesAdminLinks(links[1..], teamCreationEnabled);
    }
  }

  /** Only a super-administrator reaches the club settings from the sidebar. */
  lemma SettingsOnlyForSuperAdmin(userType: Option<Role>, teamCreationEnabled: bool)
    ensures SettingsLink in VisibleNavLinks(userType, teamCreationEnabled) <==> userType == Some(SuperAdmin)
  {
    RestrictedVisibleIff(NavLinks, SettingsLink, userType, teamCreationEnabled);
  }

  /** The '/teams' entry of the table is shown exactly while team creation
      is enabled, whoever is signed in. */
  lemma TeamsLinkIffEnabled(userType: Option<Role>, teamCreationEnabled: bool)
    ensures TeamsLink in VisibleNavLinks(userType, teamCreationEnabled) <==> teamCreationEnabled
  {
    if teamCreationEnabled {
      UnrestrictedVisible(NavLinks, TeamsLink, userType, teamCreationEnabled);
    } else {
      TeamsHiddenWhenDisabled(NavLinks, userType);
    }
  }
}
