/** The teams page: the level options each category allows, the candidate
    lists of the creation form (by attendance) and of the edit dialog (by
    score), the roster-size validation, the two forms' state, and the
    grouping of existing teams into level sections. */
module Teams {
  import opened Base
  import opened Text
  import opened Sorting
  import opened Domain
  import opened StatsHistory

  // ---------------------------------------------------------------- levels

  /** `subCategoryOptions`: the levels a team of each category may have. */
  function SubCategoryOptions(m: MainCategory): (r: seq<SubCategory>)
    ensures |r| >= 1 && NoDuplicates(r)
    ensures Avanzado in r <==> m != Femenino
    ensures Basico in r <==> m == Mixto
    ensures Intermedio in r
  {
    match m
    case Femenino => [Intermedio]
    case Mixto => [Avanzado, Intermedio, Basico]
    case Masculino => [Avanzado, Intermedio]
  }

  /** The effect that keeps the level among the category's options. */
  function SyncSubCategory(m: MainCategory, s: SubCategory): (r: SubCategory)
    ensures r in SubCategoryOptions(m)
    ensures s in SubCategoryOptions(m) ==> r == s
    ensures s !in SubCategoryOptions(m) ==> r == SubCategoryOptions(m)[0]
  {
    var options := SubCategoryOptions(m);
    if s in options then s else options[0]
  }

  /** Running the effect again changes nothing. */
  lemma SyncIdempotent(m: MainCategory, s: SubCategory)
    ensures SyncSubCategory(m, SyncSubCategory(m, s)) == SyncSubCategory(m, s)
  {
  }

  /** Switching the default Masculino/Avanzado form to Femenino forces Intermedio;
      Avanzado survives a switch to Mixto. */
  lemma SyncExamples()
    ensures SyncSubCategory(Femenino, Avanzado) == Intermedio
    ensures SyncSubCategory(Mixto, Avanzado) == Avanzado
    ensures SyncSubCategory(Masculino, Basico) == Avanzado
  {
  }

  // ------------------------------------------------------------ attendance

  /** Number of `Presente` records of player `id`. */
  function PresentCount(attendances: seq<Attendance>, id: Id): (n: nat)
    ensures n <= |attendances|
  {
    if attendances == [] then 0
    else
      var last := attendances[|attendances| - 1];
      PresentCount(attendances[..|attendances| - 1], id)
        + (if last.status == Presente && last.playerId == id then 1 else 0)
  }

  /** The count over one more record. */
  lemma PresentCountStep(attendances: seq<Attendance>, i: nat, id: Id)
    requires i < |attendances|
    ensures PresentCount(attendances[..i + 1], id)
            == PresentCount(attendances[..i], id)
               + (if attendances[i].status == Presente && attendances[i].playerId == id then 1 else 0)
  {
    assert attendances[..i + 1][..i] == attendances[..i];
  }

  /** The `attendanceCounts` reduce: a dictionary holding, for every player with
      at least one `Presente` record, the number of such records. */
  method TallyPresent(attendances: seq<Attendance>) returns (counts: map<Id, nat>)
    ensures forall id :: id in counts <==> PresentCount(attendances, id) > 0
    ensures forall id :: id in counts ==> counts[id] == PresentCount(attendances, id)
  {
    counts := map[];
    var i := 0;
    while i < |attendances|
      invariant 0 <= i <= |attendances|
      invariant forall id :: id in counts <==> PresentCount(attendances[..i], id) > 0
      invariant forall id :: id in counts ==> counts[id] == PresentCount(attendances[..i], id)
    {
      var a := attendances[i];
      if a.status == Presente {
        var previous := if a.playerId in counts then counts[a.playerId] else 0;
        counts := counts[a.playerId := previous + 1];
      }
      forall id | true ensures PresentCount(attendances[..i + 1], id)
                               == PresentCount(attendances[..i], id) + (if a.status == Presente && a.playerId == id then 1 else 0)
      {
        PresentCountStep(attendances, i, id);
      }
      i := i + 1;
    }
    assert attendances[..i] == attendances;
  }

  // ------------------------------------------------------------- creation

  /** Some team of category `m` lists player `id`. */
  predicate OnTeamInCategory(teams: seq<Team>, m: MainCategory, id: Id)
  {
    exists i :: 0 <= i < |teams| && teams[i].mainCategory == m && id in teams[i].playerIds
  }

  /** A player may join a new team of category `m` when it plays that category
      and no team of that category lists it yet. */
  predicate CreateEligible(teams: seq<Team>, m: MainCategory, p: Player)
  {
    m in p.mainCategories && !OnTeamInCategory(teams, m, p.id)
  }

  function ByAttendance(players: seq<Player>, attendances: seq<Attendance>): (r: seq<Keyed<Player>>)
    ensures |r| == |players|
    ensures forall i :: 0 <= i < |r| ==> r[i] == Keyed(players[i], PresentCount(attendances, players[i].id))
  {
    if players == [] then []
    else [Keyed(players[0], PresentCount(attendances, players[0].id))] + ByAttendance(players[1..], attendances)
  }

  /** The creation form's `availablePlayers`, most present first. */
  function CreateCandidates(players: seq<Player>, teams: seq<Team>, attendances: seq<Attendance>, m: MainCategory)
    : seq<Keyed<Player>>
  {
    SortDesc(ByAttendance(CreateEligibleOf(players, teams, m), attendances))
  }

  /** `attendanceCounts[id] || 0`: a player missing from the tally counts 0. */
  function CountOf(counts: map<Id, nat>, id: Id): nat
  {
    if id in counts then counts[id] else 0
  }

  /** The creation form's `availablePlayers` memo: the eligible players keyed by
      the tally of `TallyPresent`, most present first. The list is the one
      `CreateCandidates` specifies. */
  method CreateCandidateList(players: seq<Player>, teams: seq<Team>, attendances: seq<Attendance>, m: MainCategory)
    returns (r: seq<Keyed<Player>>)
    ensures r == CreateCandidates(players, teams, attendances, m)
  {
    var counts := TallyPresent(attendances);
    var eligible := CreateEligibleOf(players, teams, m);
    var keyed := seq(|eligible|, i requires 0 <= i < |eligible| => Keyed(eligible[i], CountOf(counts, eligible[i].id) as int));
    TallyKeysAgree(counts, eligible, attendances, keyed);
    r := SortDesc(keyed);
  }

  /** Keying by a tally that agrees with `PresentCount` is `ByAttendance`. */
  lemma TallyKeysAgree(counts: map<Id, nat>, eligible: seq<Player>, attendances: seq<Attendance>,
                       keyed: seq<Keyed<Player>>)
    requires forall id :: id in counts <==> PresentCount(attendances, id) > 0
    requires forall id :: id in counts ==> counts[id] == PresentCount(attendances, id)
    requires |keyed| == |eligible|
    requires forall i :: 0 <= i < |eligible| ==> keyed[i] == Keyed(eligible[i], CountOf(counts, eligible[i].id) as int)
    ensures keyed == ByAttendance(eligible, attendances)
  {
    var expected := ByAttendance(eligible, attendances);
    forall i | 0 <= i < |eligible| ensures keyed[i] == expected[i] {
      var id := eligible[i].id;
      assert CountOf(counts, id) == PresentCount(attendances, id);
    }
  }

  function CreateEligibleOf(players: seq<Player>, teams: seq<Team>, m: MainCategory): (r: seq<Player>)
    ensures forall i :: 0 <= i < |r| ==> r[i] in players && CreateEligible(teams, m, r[i])
    ensures forall j :: 0 <= j < |players| && CreateEligible(teams, m, players[j]) ==> players[j] in r
  {
    Filter(players, p => CreateEligible(teams, m, p))
  }

  /** The candidates come most present first. */
  lemma CreateCandidatesSorted(players: seq<Player>, teams: seq<Team>, attendances: seq<Attendance>, m: MainCategory)
    ensures SortedDesc(CreateCandidates(players, teams, attendances, m))
  {
    SortDescSorted(ByAttendance(CreateEligibleOf(players, teams, m), attendances));
  }

  /** Every candidate is an eligible player keyed by its number of presences. */
  lemma CreateCandidatesSound(players: seq<Player>, teams: seq<Team>, attendances: seq<Attendance>, m: MainCategory)
    ensures var r := CreateCandidates(players, teams, attendances, m);
            forall i :: 0 <= i < |r| ==>
              r[i].item in players && CreateEligible(teams, m, r[i].item)
              && r[i].key == PresentCount(attendances, r[i].item.id)
  {
    var eligible := CreateEligibleOf(players, teams, m);
    var keyed := ByAttendance(eligible, attendances);
    SortDescMembers(keyed);
    var r := SortDesc(keyed);
    forall i | 0 <= i < |r|
      ensures r[i].item in players && CreateEligible(teams, m, r[i].item)
              && r[i].key == PresentCount(attendances, r[i].item.id)
    {
      var k :| 0 <= k < |keyed| && keyed[k] == r[i];
      assert r[i].item == eligible[k];
    }
  }

  /** Every eligible player is a candidate. */
  lemma CreateCandidatesComplete(players: seq<Player>, teams: seq<Team>, attendances: seq<Attendance>, m: MainCategory)
    ensures forall j :: 0 <= j < |players| && CreateEligible(teams, m, players[j]) ==>
              Keyed(players[j], PresentCount(attendances, players[j].id)) in CreateCandidates(players, teams, attendances, m)
  {
    var eligible := CreateEligibleOf(players, teams, m);
    var keyed := ByAttendance(eligible, attendances);
    SortDescMembers(keyed);
    forall j | 0 <= j < |players| && CreateEligible(teams, m, players[j])
      ensures Keyed(players[j], PresentCount(attendances, players[j].id)) in keyed
    {
      var k :| 0 <= k < |eligible| && eligible[k] == players[j];
      assert keyed[k] == Keyed(players[j], PresentCount(attendances, players[j].id));
    }
  }

  /** Players with equally many presences keep the order of the players list. */
  lemma CreateCandidatesStable(players: seq<Player>, teams: seq<Team>, attendances: seq<Attendance>,
                               m: MainCategory, count: int)
    ensures WithKey(CreateCandidates(players, teams, attendances, m), count)
            == WithKey(ByAttendance(CreateEligibleOf(players, teams, m), attendances), count)
  {
    SortDescStable(ByAttendance(CreateEligibleOf(players, teams, m), attendances), count);
  }

  /** A player already on a team of the category is never offered again. */
  lemma RosteredNotOffered(players: seq<Player>, teams: seq<Team>, attendances: seq<Attendance>,
                           m: MainCategory, t: nat, i: nat)
    requires t < |teams| && teams[t].mainCategory == m
    requires i < |CreateCandidates(players, teams, attendances, m)|
    ensures CreateCandidates(players, teams, attendances, m)[i].item.id !in teams[t].playerIds
  {
    CreateCandidatesSound(players, teams, attendances, m);
  }

  /** Teams of another category never affect who may join a team of category `m`:
      one player can be on a Masculino team and a Mixto team at once. */
  lemma CategoriesIndependent(teams: seq<Team>, other: Team, m: MainCategory, p: Player)
    requires other.mainCategory != m
    ensures CreateEligible(teams + [other], m, p) == CreateEligible(teams, m, p)
  {
    if OnTeamInCategory(teams + [other], m, p.id) {
      var i :| 0 <= i < |teams| + 1 && (teams + [other])[i].mainCategory == m && p.id in (teams + [other])[i].playerIds;
      assert i < |teams| && teams[i] == (teams + [other])[i];
    }
    if OnTeamInCategory(teams, m, p.id) {
      var i :| 0 <= i < |teams| && teams[i].mainCategory == m && p.id in teams[i].playerIds;
      assert (teams + [other])[i] == teams[i];
    }
  }

  // ------------------------------------------------------------ validation

  const TeamNameRequired := "El nombre del equipo es obligatorio."
  const CreateSizeMessage := "Un equipo debe tener entre 6 y 14 jugadores."
  const EditSizeMessage := "El equipo debe tener entre 6 y 14 jugadores."

  predicate RosterSizeOk(ids: seq<Id>)
  {
    6 <= |ids| <= 14
  }

  /** The creation form's checks, in order: a name that is not blank, then
      a roster of 6 to 14 players. */
  function CreateError(teamName: string, selected: seq<Id>): (r: Option<string>)
    ensures r.None? <==> !IsBlank(teamName) && RosterSizeOk(selected)
    ensures IsBlank(teamName) ==> r == Some(TeamNameRequired)
    ensures !IsBlank(teamName) && !RosterSizeOk(selected) ==> r == Some(CreateSizeMessage)
  {
    if IsBlank(teamName) then Some(TeamNameRequired)
    else if |selected| < 6 || |selected| > 14 then Some(CreateSizeMessage)
    else None
  }

  /** The edit dialog checks only the roster size. */
  function EditError(selected: seq<Id>): (r: Option<string>)
    ensures r.None? <==> RosterSizeOk(selected)
    ensures r.Some? ==> r.value == EditSizeMessage
  {
    if |selected| < 6 || |selected| > 14 then Some(EditSizeMessage) else None
  }

  /** Rosters of 6 and 14 pass; 5 and 15 do not. */
  lemma RosterBounds(ids: seq<Id>)
    ensures |ids| == 5 || |ids| == 15 ==> EditError(ids).Some? && CreateError("Equipo", ids) == Some(CreateSizeMessage)
    ensures |ids| == 6 || |ids| == 14 ==> EditError(ids).None? && CreateError("Equipo", ids).None?
  {
    assert !IsWhitespace("Equipo"[0]);
  }

  /** The request the creation form sends: the name as typed and an empty
      tournament turned into an absent one. */
  function CreatePayload(teamName: string, m: MainCategory, s: SubCategory, selected: seq<Id>, tournament: string)
    : (r: TeamDraft)
    ensures r.tournament.None? <==> tournament == ""
    ensures r.tournament.Some? ==> r.tournament.value == tournament
    ensures r.name == teamName && r.mainCategory == m && r.subCategory == s && r.playerIds == selected
  {
    TeamDraft(teamName, m, s, selected, if tournament == "" then None else Some(tournament))
  }

  /** The team the edit dialog hands to `updateTeam`: the old team with the new
      tournament position (possibly empty) and the new roster. */
  function EditedTeam(team: Team, position: string, selected: seq<Id>): (r: Team)
    ensures r.tournamentPosition == Some(position) && r.playerIds == selected
    ensures r.id == team.id && r.name == team.name && r.mainCategory == team.mainCategory
            && r.subCategory == team.subCategory && r.tournament == team.tournament && r.coachId == team.coachId
  {
    team.(tournamentPosition := Some(position), playerIds := selected)
  }

  // --------------------------------------------------------------- editing

  /** Some team other than `team`, of the same category, lists player `id`. */
  predicate OnAnotherTeam(teams: seq<Team>, team: Team, id: Id)
  {
    exists i :: 0 <= i < |teams| && teams[i].id != team.id
                && teams[i].mainCategory == team.mainCategory && id in teams[i].playerIds
  }

  predicate EditEligible(teams: seq<Team>, team: Team, p: Player)
  {
    team.mainCategory in p.mainCategories && !OnAnotherTeam(teams, team, p.id)
  }

  /** The edit dialog's `availablePlayers`, highest total score first. */
  function EditCandidates(players: seq<Player>, teams: seq<Team>, team: Team): seq<Keyed<Player>>
  {
    SortDesc(ByScore(EditEligibleOf(players, teams, team)))
  }

  function EditEligibleOf(players: seq<Player>, teams: seq<Team>, team: Team): (r: seq<Player>)
    ensures forall i :: 0 <= i < |r| ==> r[i] in players && EditEligible(teams, team, r[i])
    ensures forall j :: 0 <= j < |players| && EditEligible(teams, team, players[j]) ==> players[j] in r
  {
    Filter(players, p => EditEligible(teams, team, p))
  }

  /** The candidates come highest score first. */
  lemma EditCandidatesSorted(players: seq<Player>, teams: seq<Team>, team: Team)
    ensures SortedDesc(EditCandidates(players, teams, team))
  {
    SortDescSorted(ByScore(EditEligibleOf(players, teams, team)));
  }

  /** Players with equal total scores keep the order of the players list. */
  lemma EditCandidatesStable(players: seq<Player>, teams: seq<Team>, team: Team, score: int)
    ensures WithKey(EditCandidates(players, teams, team), score)
            == WithKey(ByScore(EditEligibleOf(players, teams, team)), score)
  {
    SortDescStable(ByScore(EditEligibleOf(players, teams, team)), score);
  }

  /** Every candidate is an eligible player keyed by its total score. */
  lemma EditCandidatesSound(players: seq<Player>, teams: seq<Team>, team: Team)
    ensures var r := EditCandidates(players, teams, team);
            forall i :: 0 <= i < |r| ==>
              r[i].item in players && EditEligible(teams, team, r[i].item) && r[i].key == Score(r[i].item)
  {
    var eligible := EditEligibleOf(players, teams, team);
    var r := SortDesc(ByScore(eligible));
    assert forall i :: 0 <= i < |r| ==> r[i].item in eligible && r[i].key == Score(r[i].item) by {
      RankedByScore(eligible);
    }
    forall i | 0 <= i < |r|
      ensures r[i].item in players && EditEligible(teams, team, r[i].item) && r[i].key == Score(r[i].item)
    {
      EditEligibleMember(players, teams, team, r[i].item);
    }
  }

  lemma EditEligibleMember(players: seq<Player>, teams: seq<Team>, team: Team, p: Player)
    requires p in EditEligibleOf(players, teams, team)
    ensures p in players && EditEligible(teams, team, p)
  {
    var eligible := EditEligibleOf(players, teams, team);
    var k :| 0 <= k < |eligible| && eligible[k] == p;
  }

  /** Every eligible player is a candidate. */
  lemma EditCandidatesComplete(players: seq<Player>, teams: seq<Team>, team: Team)
    ensures forall j :: 0 <= j < |players| && EditEligible(teams, team, players[j]) ==>
              Keyed(players[j], Score(players[j])) in EditCandidates(players, teams, team)
  {
    var eligible := EditEligibleOf(players, teams, team);
    var keyed := ByScore(eligible);
    SortDescMembers(keyed);
    forall j | 0 <= j < |players| && EditEligible(teams, team, players[j])
      ensures Keyed(players[j], Score(players[j])) in keyed
    {
      var k :| 0 <= k < |eligible| && eligible[k] == players[j];
      assert keyed[k] == Keyed(players[j], Score(players[j]));
    }
  }

  /** The team being edited does not hide its own members: a member who plays
      the category and is on no other team of it stays offered. */
  lemma OwnMembersOffered(players: seq<Player>, teams: seq<Team>, team: Team, j: nat)
    requires j < |players| && players[j].id in team.playerIds && team in teams
    requires team.mainCategory in players[j].mainCategories
    requires forall i :: (0 <= i < |teams| && teams[i].mainCategory == team.mainCategory
                          && players[j].id in teams[i].playerIds) ==> teams[i].id == team.id
    ensures exists i :: 0 <= i < |EditCandidates(players, teams, team)|
                        && EditCandidates(players, teams, team)[i].item == players[j]
  {
    EditCandidatesComplete(players, teams, team);
    var r := EditCandidates(players, teams, team);
    var i :| 0 <= i < |r| && r[i] == Keyed(players[j], Score(players[j]));
  }

  // ----------------------------------------------------------------- forms

  /** State of the team-creation form. */
  class CreateTeamForm {
    var teamName: string
    var tournament: string
    var mainCategory: MainCategory
    var subCategory: SubCategory
    var selectedPlayerIds: seq<Id>
    var error: string

    /** The level is one of the category's options and no player is selected twice. */
    predicate Valid()
      reads this
    {
      subCategory in SubCategoryOptions(mainCategory) && NoDuplicates(selectedPlayerIds)
    }

    constructor()
      ensures Valid()
      ensures teamName == "" && tournament == "" && error == ""
      ensures mainCategory == Masculino && subCategory == Avanzado && selectedPlayerIds == []
    {
      teamName := "";
      tournament := "";
      mainCategory := Masculino;
      subCategory := Avanzado;
      selectedPlayerIds := [];
      error := "";
    }

    /** Choosing a category clears the selection; the effect then adjusts the level. */
    method ChooseMainCategory(m: MainCategory)
      requires Valid()
      modifies this
      ensures Valid()
      ensures mainCategory == m && subCategory == SyncSubCategory(m, old(subCategory))
      ensures selectedPlayerIds == []
      ensures teamName == old(teamName) && tournament == old(tournament) && error == old(error)
    {
      mainCategory := m;
      selectedPlayerIds := [];
      subCategory := SyncSubCategory(m, subCategory);
    }

    method ChooseSubCategory(s: SubCategory)
      requires Valid()
      modifies this
      ensures Valid()
      ensures subCategory == SyncSubCategory(mainCategory, s)
      ensures mainCategory == old(mainCategory) && selectedPlayerIds == old(selectedPlayerIds)
      ensures teamName == old(teamName) && tournament == old(tournament) && error == old(error)
    {
      subCategory := SyncSubCategory(mainCategory, s);
    }

    /** `handlePlayerToggle`. */
    method TogglePlayer(id: Id)
      requires Valid()
      modifies this
      ensures Valid()
      ensures selectedPlayerIds == Toggle(old(selectedPlayerIds), id)
      ensures mainCategory == old(mainCategory) && subCategory == old(subCategory)
      ensures teamName == old(teamName) && tournament == old(tournament) && error == old(error)
    {
      ToggleKeepsNoDuplicates(selectedPlayerIds, id);
      selectedPlayerIds := Toggle(selectedPlayerIds, id);
    }

    /** `handleSubmit`: on a failed check only the error changes and nothing is
        sent; otherwise the request is returned and, when `created` reports that
        the server accepted it, name, tournament and selection are cleared. */
    method Submit(created: bool) returns (request: Option<TeamDraft>)
      requires Valid()
      modifies this
      ensures Valid()
      ensures var failure := CreateError(old(teamName), old(selectedPlayerIds));
              && (failure.Some? ==> request.None? && error == failure.value
                                    && teamName == old(teamName) && tournament == old(tournament)
                                    && selectedPlayerIds == old(selectedPlayerIds))
              && (failure.None? ==> request == Some(CreatePayload(old(teamName), old(mainCategory), old(subCategory),
                                                                  old(selectedPlayerIds), old(tournament)))
                                    && error == "")
              && (failure.None? && created ==> teamName == "" && tournament == "" && selectedPlayerIds == [])
              && (failure.None? && !created ==> teamName == old(teamName) && tournament == old(tournament)
                                                && selectedPlayerIds == old(selectedPlayerIds))
      ensures mainCategory == old(mainCategory) && subCategory == old(subCategory)
    {
      var failure := CreateError(teamName, selectedPlayerIds);
      if failure.Some? {
        error := failure.value;
        request := None;
        return;
      }
      error := "";
      request := Some(CreatePayload(teamName, mainCategory, subCategory, selectedPlayerIds, tournament));
      if created {
        teamName := "";
        tournament := "";
        selectedPlayerIds := [];
      }
    }
  }

  /** State of the edit dialog opened on one team. */
  class EditTeamModal {
    const team: Team
    var position: string
    var selectedPlayerIds: seq<Id>
    var error: string

    /** No player is selected twice. */
    predicate Valid()
      reads this
    {
      NoDuplicates(selectedPlayerIds)
    }

    /** The dialog starts from the team's position (empty when absent) and
        roster; a roster without repeats, as the server keeps it, starts valid. */
    constructor(team: Team)
      ensures this.team == team && selectedPlayerIds == team.playerIds && error == ""
      ensures NoDuplicates(team.playerIds) ==> Valid()
      ensures position == match team.tournamentPosition case Some(p) => p case None => ""
    {
      this.team := team;
      position := match team.tournamentPosition case Some(p) => p case None => "";
      selectedPlayerIds := team.playerIds;
      error := "";
    }

    /** `handlePlayerToggle`. */
    method TogglePlayer(id: Id)
      modifies this
      ensures selectedPlayerIds == Toggle(old(selectedPlayerIds), id)
      ensures old(Valid()) ==> Valid()
      ensures position == old(position) && error == old(error)
    {
      if Valid() {
        ToggleKeepsNoDuplicates(selectedPlayerIds, id);
      }
      selectedPlayerIds := Toggle(selectedPlayerIds, id);
    }

    /** `handleSave`: refuses a roster outside 6..14, otherwise hands over the
        team with only the position and the roster replaced. */
    method Save() returns (saved: Option<Team>)
      modifies this
      ensures EditError(old(selectedPlayerIds)).Some? ==> saved.None? && error == EditSizeMessage
      ensures EditError(old(selectedPlayerIds)).None? ==>
                saved == Some(EditedTeam(team, old(position), old(selectedPlayerIds))) && error == ""
      ensures position == old(position) && selectedPlayerIds == old(selectedPlayerIds)
    {
      var failure := EditError(selectedPlayerIds);
      if failure.Some? {
        error := failure.value;
        saved := None;
      } else {
        error := "";
        saved := Some(EditedTeam(team, position, selectedPlayerIds));
      }
    }
  }

  // -------------------------------------------------------------- sections

  /** The order in which level sections are shown. */
  const SectionOrder: seq<SubCategory> := [Avanzado, Intermedio, Basico]

  /** The teams of one level, in list order. */
  function TeamsOfLevel(teams: seq<Team>, s: SubCategory): seq<Team>
  {
    Filter(teams, (t: Team) => t.subCategory == s)
  }

  predicate HasLevel(teams: seq<Team>, s: SubCategory)
  {
    exists i :: 0 <= i < |teams| && teams[i].subCategory == s
  }

  /** `sortedSubCategories`: the levels that have teams, most advanced first. */
  function Sections(teams: seq<Team>): (r: seq<SubCategory>)
    ensures forall s :: s in r <==> HasLevel(teams, s)
    ensures NoDuplicates(r)
    ensures forall i, j :: 0 <= i < j < |r| ==> SectionRank(r[i]) < SectionRank(r[j])
  {
    var present := (s: SubCategory) => HasLevel(teams, s);
    OrderFiltered(present);
    Filter(SectionOrder, present)
  }

  /** Filtering the level order by any test keeps exactly the levels that
      pass it, once each, most advanced first. */
  lemma OrderFiltered(p: SubCategory -> bool)
    ensures forall s :: s in Filter(SectionOrder, p) <==> p(s)
    ensures NoDuplicates(Filter(SectionOrder, p))
    ensures forall i, j :: 0 <= i < j < |Filter(SectionOrder, p)| ==>
              SectionRank(Filter(SectionOrder, p)[i]) < SectionRank(Filter(SectionOrder, p)[j])
  {
    var r := Filter(SectionOrder, p);
    forall s | p(s)
      ensures s in r
    {
      assert SectionOrder[SectionRank(s)] == s;
    }
    FilterNoDuplicates(SectionOrder, p);
    FilterIsSubsequence(SectionOrder, p);
    SubsequenceOfOrderIsRanked(r, SectionOrder);
  }

  function SectionRank(s: SubCategory): nat
  {
    match s
    case Avanzado => 0
    case Intermedio => 1
    case Basico => 2
  }

  lemma {:induction false} SubsequenceOfOrderIsRanked(r: seq<SubCategory>, order: seq<SubCategory>)
    requires IsSubsequence(r, order)
    requires forall i, j :: 0 <= i < j < |order| ==> SectionRank(order[i]) < SectionRank(order[j])
    ensures forall i, j :: 0 <= i < j < |r| ==> SectionRank(r[i]) < SectionRank(r[j])
    decreases |order|
  {
    if r != [] && order != [] {
      if r[0] == order[0] {
        SubsequenceOfOrderIsRanked(r[1..], order[1..]);
        SubsequenceElements(r[1..], order[1..]);
        forall j | 0 < j < |r| ensures SectionRank(r[0]) < SectionRank(r[j]) {
          assert r[j] == r[1..][j - 1];
          var k :| 0 <= k < |order[1..]| && order[1..][k] == r[j];
          assert order[k + 1] == r[j];
        }
      } else {
        SubsequenceOfOrderIsRanked(r, order[1..]);
      }
    }
  }

  lemma {:induction false} SubsequenceElements<T>(a: seq<T>, b: seq<T>)
    requires IsSubsequence(a, b)
    ensures forall i :: 0 <= i < |a| ==> a[i] in b
    decreases |b|
  {
    if a != [] && b != [] {
      if a[0] == b[0] {
        SubsequenceElements(a[1..], b[1..]);
        forall i | 0 < i < |a| ensures a[i] in b {
          assert a[i] == a[1..][i - 1];
        }
      } else {
        SubsequenceElements(a, b[1..]);
      }
    }
  }

  /** Every team is shown exactly once: the three level sections together hold
      as many teams as the list. */
  lemma {:induction false} SectionsPartitionTeams(teams: seq<Team>)
    ensures |TeamsOfLevel(teams, Avanzado)| + |TeamsOfLevel(teams, Intermedio)| + |TeamsOfLevel(teams, Basico)|
            == |teams|
    decreases |teams|
  {
    if teams != [] {
      SectionsPartitionTeams(teams[1..]);
    }
  }
}
