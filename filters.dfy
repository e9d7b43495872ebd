/** The category and level filters with their 'All' wildcard, shared by the
    attendance page, the athletes table and the categories page; the
    attendance status of a player for today; the table's age cell. */
module Filters {
  import opened Base
  import opened Calendar
  import opened Text
  import opened Domain
  import opened PlayerProfile

  /** A filter's select value: 'All' or one enum value. */
  datatype Choice<T> = All | Only(value: T)

  predicate MainMatches(p: Player, main: Choice<MainCategory>)
  {
    main.All? || main.value in p.mainCategories
  }

  predicate LevelMatches(p: Player, level: Choice<SubCategory>)
  {
    level.All? || p.subCategory == level.value
  }

  /** `filteredPlayers`: the players passing both filters, in list order. */
  function FilteredPlayers(players: seq<Player>, main: Choice<MainCategory>, level: Choice<SubCategory>): (r: seq<Player>)
    ensures forall i :: 0 <= i < |r| ==> r[i] in players && MainMatches(r[i], main) && LevelMatches(r[i], level)
    ensures forall j :: 0 <= j < |players| && MainMatches(players[j], main) && LevelMatches(players[j], level)
                        ==> players[j] in r
  {
    Filter(players, (p: Player) => MainMatches(p, main) && LevelMatches(p, level))
  }

  /** The filtered list keeps the players' order. */
  lemma FilteredIsSubsequence(players: seq<Player>, main: Choice<MainCategory>, level: Choice<SubCategory>)
    ensures IsSubsequence(FilteredPlayers(players, main, level), players)
  {
    FilterIsSubsequence(players, (p: Player) => MainMatches(p, main) && LevelMatches(p, level));
  }

  /** Both filters on 'All' show every player, in the original order. */
  lemma AllShowsEveryone(players: seq<Player>)
    ensures FilteredPlayers(players, All, All) == players
  {
    FilterAll(players, (p: Player) => MainMatches(p, All) && LevelMatches(p, All));
  }

  /** The categories page opens on Femenino, Avanzado. */
  const InitialMainFilter: Choice<MainCategory> := Only(Femenino)
  const InitialLevelFilter: Choice<SubCategory> := Only(Avanzado)

  /** The categories page's heading count: the number of players shown, at
      most the number of players. */
  function DisplayedCount(players: seq<Player>, main: Choice<MainCategory>, level: Choice<SubCategory>): (n: nat)
    ensures n == |FilteredPlayers(players, main, level)| && n <= |players|
  {
    |FilteredPlayers(players, main, level)|
  }

  /** On opening, the categories page lists exactly the players in Femenino
      at level Avanzado. */
  lemma InitialCategoriesView(players: seq<Player>, p: Player)
    requires p in players
    ensures p in FilteredPlayers(players, InitialMainFilter, InitialLevelFilter)
            <==> Femenino in p.mainCategories && p.subCategory == Avanzado
  {
  }

  // -------------------------------------------------- attendance status

  /** `getAttendanceStatus`: a recorded status, or 'Pending'. */
  datatype Status = Pending | Recorded(status: AttendanceStatus)

  /** The index of the first record of `playerId` dated `today`, as `find` scans. */
  function FindRecord(attendances: seq<Attendance>, playerId: Id, today: Date): (r: Option<nat>)
    ensures r.None? <==> forall i :: 0 <= i < |attendances| ==>
                           !(attendances[i].playerId == playerId && attendances[i].date == today)
    ensures r.Some? ==> r.value < |attendances|
                        && attendances[r.value].playerId == playerId && attendances[r.value].date == today
                        && forall i :: 0 <= i < r.value ==>
                             !(attendances[i].playerId == playerId && attendances[i].date == today)
  {
    if attendances == [] then None
    else if attendances[0].playerId == playerId && attendances[0].date == today then Some(0)
    else
      match FindRecord(attendances[1..], playerId, today)
      case None => None
      case Some(k) => Some(k + 1)
  }

  function AttendanceStatusOf(attendances: seq<Attendance>, playerId: Id, today: Date): (s: Status)
    ensures s.Pending? <==> FindRecord(attendances, playerId, today).None?
    ensures s.Recorded? ==> s.status == attendances[FindRecord(attendances, playerId, today).value].status
  {
    match FindRecord(attendances, playerId, today)
    case None => Pending
    case Some(i) => Recorded(attendances[i].status)
  }

  /** The Presente/Ausente buttons are offered only while the status is pending. */
  predicate ShowsButtons(s: Status)
  {
    s.Pending?
  }

  /** A player with a record for today, even an absence, is no longer pending
      and gets no buttons; the status shown is that of the first such record. */
  lemma RecordedNotPending(attendances: seq<Attendance>, k: nat, today: Date)
    requires k < |attendances| && attendances[k].date == today
    ensures var s := AttendanceStatusOf(attendances, attendances[k].playerId, today);
            s.Recorded? && !ShowsButtons(s)
    ensures attendances[k].status == Ausente
            && (forall i :: 0 <= i < k ==> !(attendances[i].playerId == attendances[k].playerId && attendances[i].date == today))
            ==> AttendanceStatusOf(attendances, attendances[k].playerId, today) == Recorded(Ausente)
  {
    var id := attendances[k].playerId;
    var f := FindRecord(attendances, id, today);
    if forall i :: 0 <= i < k ==> !(attendances[i].playerId == id && attendances[i].date == today) {
      assert f.value == k;
    }
  }

  /** After the client-side upsert of today's record, the player shows that status. */
  lemma StatusAfterRecording(attendances: seq<Attendance>, a: Attendance, today: Date)
    requires a.date == today
    requires forall i :: 0 <= i < |attendances| ==>
               !(attendances[i].playerId == a.playerId && attendances[i].date == today)
    ensures AttendanceStatusOf(attendances + [a], a.playerId, today) == Recorded(a.status)
  {
    var s := attendances + [a];
    assert s[|attendances|] == a;
    assert forall i :: 0 <= i < |attendances| ==> s[i] == attendances[i];
  }

  // -------------------------------------------------------- age cell

  /** `String(n)` for any integer. */
  function IntToString(n: int): (r: string)
    ensures r != []
    ensures n >= 0 ==> AllDigits(r) && ParseDec(r) == n
    ensures n < 0 ==> r[0] == '-' && AllDigits(r[1..]) && ParseDec(r[1..]) == -n
  {
    ParseDecOfDec(if n >= 0 then n else -n);
    if n >= 0 then Dec(n) else "-" + Dec(-n)
  }

  /** The athletes table's age column: 'N/A' without a birth date, otherwise
      the completed years. */
  function AgeCell(birthDate: Option<Date>, today: Date): (r: string)
    ensures birthDate.None? ==> r == "N/A"
    ensures birthDate.Some? ==> r == IntToString(Age(birthDate.value, today))
  {
    match CalculateAge(birthDate, today)
    case None => "N/A"
    case Some(age) => IntToString(age)
  }

  /** 'N/A' shows exactly when the birth date is empty. */
  lemma AgeCellNA(birthDate: Option<Date>, today: Date)
    ensures AgeCell(birthDate, today) == "N/A" <==> birthDate.None?
  {
    if birthDate.Some? {
      var r := AgeCell(birthDate, today);
      assert r[0] != 'N';
    }
  }
}
