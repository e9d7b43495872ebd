// The page title the layout shows above every signed-in page.

module Layout {
  import opened Base
  import opened Domain

  const PlayerPrefix := "/player/"
  const PlayerTitlePrefix := "Perfil de: "
  const UnknownPlayerTitle := "Perfil de Jugador"

  /** The first player whose id is the route's `:id` parameter; an absent
      parameter matches no player. */
  function FindPlayer(players: seq<Player>, routeId: Option<Id>): (r: Option<Player>)
    ensures r.Some? ==> r.value in players && routeId == Some(r.value.id)
    ensures r.None? ==> forall p :: p in players ==> routeId != Some(p.id)
  {
    if players == [] then None
    else if routeId == Some(players[0].id) then Some(players[0])
    else FindPlayer(players[1..], routeId)
  }

  /** The title of a page that is not a player profile, or `None` when the
      path is none of the fixed pages. */
  function FixedTitle(pathname: string): Option<string>
  {
    if pathname == "/dashboard" then Some("Dashboard")
    else if pathname == "/attendance" then Some("Control de Asistencia")
    else if pathname == "/categories" then Some("Gestión de Categorías")
    else if pathname == "/teams" then Some("Gestión de Equipos")
    else if pathname == "/register" then Some("Registrar Nuevo Jugador")
    else if pathname == "/superadmin" then Some("Configuración del Club")
    else None
  }

  function GetTitle(pathname: string, routeId: Option<Id>, players: seq<Player>, clubName: string): string
  {
    if StartsWith(pathname, PlayerPrefix) then
      var player := FindPlayer(players, routeId);
      if player.Some? then PlayerTitlePrefix + player.value.name else UnknownPlayerTitle
    else if FixedTitle(pathname).Some? then FixedTitle(pathname).value
    else clubName
  }

  /** On a profile page the title names the player the route points at, and
      falls back to a generic title when no such player is loaded. */
  lemma ProfileTitle(pathname: string, routeId: Option<Id>, players: seq<Player>, clubName: string)
    requires StartsWith(pathname, PlayerPrefix)
    ensures (exists p :: p in players && routeId == Some(p.id) && GetTitle(pathname, routeId, players, clubName) == PlayerTitlePrefix + p.name)
            || ((forall p :: p in players ==> routeId != Some(p.id)) && GetTitle(pathname, routeId, players, clubName) == UnknownPlayerTitle)
  {
    var player := FindPlayer(players, routeId);
    if player.Some? {
      assert player.value in players;
    }
  }

  lemma NotUnderPlayer(pathname: string)
    requires |pathname| >= 2 && pathname[1] != 'p'
    ensures !StartsWith(pathname, PlayerPrefix)
  {
    if |PlayerPrefix| <= |pathname| {
      assert pathname[..|PlayerPrefix|][1] != PlayerPrefix[1];
    }
  }

  /** No fixed page lies under '/player/', so the profile test never hides a
      fixed title and the club name is never shown on a profile page. */
  lemma FixedPagesAreNotProfiles(pathname: string)
    requires FixedTitle(pathname).Some?
    ensures !StartsWith(pathname, PlayerPrefix)
  {
    NotUnderPlayer(pathname);
  }

  /** The six fixed pages get their fixed titles whatever the players and
      the club are called. */
  lemma FixedPageTitles(routeId: Option<Id>, players: seq<Player>, clubName: string)
    ensures GetTitle("/dashboard", routeId, players, clubName) == "Dashboard"
    ensures GetTitle("/attendance", routeId, players, clubName) == "Control de Asistencia"
    ensures GetTitle("/categories", routeId, players, clubName) == "Gestión de Categorías"
    ensures GetTitle("/teams", routeId, players, clubName) == "Gestión de Equipos"
    ensures GetTitle("/register", routeId, players, clubName) == "Registrar Nuevo Jugador"
    ensures GetTitle("/superadmin", routeId, players, clubName) == "Configuración del Club"
  {
    NotUnderPlayer("/dashboard");
    NotUnderPlayer("/attendance");
    NotUnderPlayer("/categories");
    NotUnderPlayer("/teams");
    NotUnderPlayer("/register");
    NotUnderPlayer("/superadmin");
  }

  /** Any other page, such as the coaches page, is titled with the club name. */
  lemma CoachesPageShowsClubName(routeId: Option<Id>, players: seq<Player>, clubName: string)
    ensures GetTitle("/coaches", routeId, players, clubName) == clubName
  {
    NotUnderPlayer("/coaches");
  }

  /** A path that merely starts like a fixed page is not that page. */
  lemma PrefixOfFixedPageIsNotFixed(routeId: Option<Id>, players: seq<Player>, clubName: string)
    ensures GetTitle("/teams/1", routeId, players, clubName) == clubName
    ensures GetTitle("/player", routeId, players, clubName) == clubName
  {
    NotUnderPlayer("/teams/1");
  }
}
