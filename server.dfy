/** The Express backend: the tables translating the client's display names to
    the database's enum keys, the shaping of stored rows for the client, the
    fixed login table, and the handlers that write to the database, with the
    database modelled as an in-memory store. */
module Server {
  import opened Base
  import opened Text
  import opened Calendar
  import opened Sorting
  import opened Domain
  import opened StatsHistory

  // ------------------------------------------------------------ enum tables

  const SubCategoryToPrisma: map<string, string> :=
    map["Básico" := "Basico", "Intermedio" := "Intermedio", "Avanzado" := "Avanzado"]
  const SubCategoryFromPrisma: map<string, string> :=
    map["Basico" := "Básico", "Intermedio" := "Intermedio", "Avanzado" := "Avanzado"]
  const PositionToPrisma: map<string, string> :=
    map["Colocador" := "Setter", "Líbero" := "Libero", "Central" := "MiddleBlocker",
        "Punta Receptor" := "OutsideHitter", "Opuesto" := "OppositeHitter"]
  const PositionFromPrisma: map<string, string> :=
    map["Setter" := "Colocador", "Libero" := "Líbero", "MiddleBlocker" := "Central",
        "OutsideHitter" := "Punta Receptor", "OppositeHitter" := "Opuesto"]

  /** Each table undoes the other, in both directions. */
  predicate Inverse(to: map<string, string>, from: map<string, string>)
  {
    (forall k :: k in to ==> to[k] in from && from[to[k]] == k)
    && (forall k :: k in from ==> from[k] in to && to[from[k]] == k)
  }

  lemma SubCategoryTablesInverse()
    ensures Inverse(SubCategoryToPrisma, SubCategoryFromPrisma)
    ensures SubCategoryToPrisma.Keys == {"Básico", "Intermedio", "Avanzado"}
  {
    assert "Básico" != "Intermedio" && "Basico" != "Intermedio" && "Básico" != "Avanzado" && "Basico" != "Avanzado";
  }

  lemma PositionTablesInverse()
    ensures Inverse(PositionToPrisma, PositionFromPrisma)
    ensures |PositionToPrisma.Keys| == 5
  {
    PositionToThenFrom();
    PositionFromThenTo();
  }

  /** The display names are five different strings. */
  lemma PositionNamesDistinct()
    ensures |PositionToPrisma.Keys| == 5
    ensures "Colocador" != "Líbero" && "Colocador" != "Central" && "Colocador" != "Punta Receptor" && "Colocador" != "Opuesto"
    ensures "Líbero" != "Central" && "Líbero" != "Punta Receptor" && "Líbero" != "Opuesto"
    ensures "Central" != "Punta Receptor" && "Central" != "Opuesto" && "Punta Receptor" != "Opuesto"
  {
    assert "Colocador"[0] == 'C' && "Líbero"[0] == 'L' && "Punta Receptor"[0] == 'P' && "Opuesto"[0] == 'O';
    assert "Central"[1] == 'e' && "Colocador"[1] == 'o';
  }

  /** The database keys are five different strings. */
  lemma PositionKeysDistinct()
    ensures |PositionFromPrisma.Keys| == 5
    ensures "Setter" != "Libero" && "Setter" != "MiddleBlocker" && "Setter" != "OutsideHitter" && "Setter" != "OppositeHitter"
    ensures "Libero" != "MiddleBlocker" && "Libero" != "OutsideHitter" && "Libero" != "OppositeHitter"
    ensures "MiddleBlocker" != "OutsideHitter" && "MiddleBlocker" != "OppositeHitter" && "OutsideHitter" != "OppositeHitter"
  {
    assert "Setter"[0] == 'S' && "Libero"[0] == 'L' && "MiddleBlocker"[0] == 'M' && "OutsideHitter"[0] == 'O';
    assert "OutsideHitter"[1] == 'u' && "OppositeHitter"[1] == 'p';
  }

  lemma PositionToThenFrom()
    ensures forall k :: k in PositionToPrisma ==> PositionToPrisma[k] in PositionFromPrisma && PositionFromPrisma[PositionToPrisma[k]] == k
  {
    PositionNamesDistinct();
    PositionKeysDistinct();
  }

  lemma PositionFromThenTo()
    ensures forall k :: k in PositionFromPrisma ==> PositionFromPrisma[k] in PositionToPrisma && PositionToPrisma[PositionFromPrisma[k]] == k
    ensures |PositionToPrisma.Keys| == 5
  {
    PositionNamesDistinct();
    PositionKeysDistinct();
  }

  /** Every name the client uses is in the tables. */
  lemma ClientNamesAccepted(l: SubCategory, p: Position)
    ensures SubCategoryName(l) in SubCategoryToPrisma
    ensures PositionName(p) in PositionToPrisma
  {
  }

  /** `table[v] || v`: a mapped value is replaced, any other passes through. */
  function Translate(table: map<string, string>, v: string): (r: string)
    ensures v !in table ==> r == v
    ensures v in table ==> r in table.Values
  {
    if v in table then table[v] else v
  }

  // ----------------------------------------------------------------- rows

  /** The client-editable fields of a player, as sent in a request body and as
      stored (with level and position in the respective vocabulary). */
  datatype PlayerData = PlayerData(
    name: string,
    document: string,
    address: string,
    phone: string,
    birthDate: Option<Date>,  // an empty date field is `None`, which no row can store
    avatarUrl: string,
    mainCategories: seq<MainCategory>,
    subCategory: string,
    position: string,
    lastPaymentDate: Option<Moment>)

  /** A stored player row with its stats records. */
  datatype PlayerRow = PlayerRow(id: Id, joinDate: Moment, data: PlayerData, statsHistory: seq<StatsRecord>)

  /** A stats record in a creation request (it has no id yet). */
  datatype NewStats = NewStats(date: Moment, stats: PlayerStats)

  /** A stored team row; `members` is the set of connected players. */
  datatype TeamRow = TeamRow(
    id: Id,
    name: string,
    mainCategory: MainCategory,
    subCategory: string,
    members: seq<Id>,
    tournament: Option<string>,
    tournamentPosition: Option<string>)

  /** A team request body; an absent optional field is `None`. */
  datatype TeamBody = TeamBody(
    name: Option<string>,
    mainCategory: MainCategory,
    subCategory: string,
    playerIds: seq<Id>,
    tournament: Option<string>,
    tournamentPosition: Option<string>)

  /** The compound key `playerId_date`. */
  datatype AttendanceKey = AttendanceKey(playerId: Id, date: Date)

  /** The single settings row (id 1), with the colours flattened. */
  datatype SettingsRow = SettingsRow(
    name: string,
    logoUrl: string,
    primaryColor: string,
    secondaryColor: string,
    tertiaryColor: string,
    backgroundColor: string,
    surfaceColor: string,
    textPrimaryColor: string,
    textSecondaryColor: string,
    teamCreationEnabled: bool,
    monthlyPaymentEnabled: bool)

  /** A handler's answer: a success status with a body, a 400 with a message,
      or an error passed to `next` (a failed database call). */
  datatype Reply<T> = Success(status: nat, body: T) | BadRequest(message: string) | ServerError

  const InvalidPlayerEnums := "Invalid subCategory or position value provided."
  const InvalidTeamLevel := "Invalid subCategory value provided."

  /** The player fields with level and position turned into storage keys;
      `None` when either is unknown (the handlers then answer 400). */
  function ToStorage(d: PlayerData): (r: Option<PlayerData>)
    ensures r.None? <==> d.subCategory !in SubCategoryToPrisma || d.position !in PositionToPrisma
  {
    if d.subCategory in SubCategoryToPrisma && d.position in PositionToPrisma then
      Some(d.(subCategory := SubCategoryToPrisma[d.subCategory], position := PositionToPrisma[d.position]))
    else None
  }

  /** The player fields with level and position turned back into display names. */
  function FromStorage(d: PlayerData): PlayerData
  {
    d.(subCategory := Translate(SubCategoryFromPrisma, d.subCategory),
       position := Translate(PositionFromPrisma, d.position))
  }

  /** What the client writes is what it reads back. */
  lemma StorageRoundTrip(d: PlayerData)
    requires ToStorage(d).Some?
    ensures FromStorage(ToStorage(d).value) == d
  {
    SubCategoryTablesInverse();
    PositionTablesInverse();
  }

  /** The history as the server returns it: newest record first. */
  function NewestFirst(h: seq<StatsRecord>): (r: seq<StatsRecord>)
    ensures |r| == |h|
  {
    Items(SortDesc(ByDate(h)))
  }

  /** The returned history holds the same records, newest first, and its head
      is the record that the client takes as the latest. */
  lemma NewestFirstSpec(h: seq<StatsRecord>)
    ensures var r := NewestFirst(h);
            && (forall i, j :: 0 <= i < j < |r| ==> Rank(r[i].date) >= Rank(r[j].date))
            && (forall i :: 0 <= i < |r| ==> r[i] in h)
            && (forall j :: 0 <= j < |h| ==> h[j] in r)
            && (h != [] ==> r[0] == h[LatestIndex(h)])
  {
    NewestFirstMembers(h);
    NewestFirstOrder(h);
    if h != [] {
      SortHeadIsFirstMax(ByDate(h));
    }
  }

  lemma NewestFirstMembers(h: seq<StatsRecord>)
    ensures forall i :: 0 <= i < |h| ==> NewestFirst(h)[i] in h
    ensures forall j :: 0 <= j < |h| ==> h[j] in NewestFirst(h)
  {
    assert Items(ByDate(h)) == h;
    SortDescItems(ByDate(h));
  }

  lemma NewestFirstOrder(h: seq<StatsRecord>)
    ensures forall i, j :: 0 <= i < j < |h| ==> Rank(NewestFirst(h)[i].date) >= Rank(NewestFirst(h)[j].date)
  {
    var keyed := ByDate(h);
    var sorted := SortDesc(keyed);
    SortDescMembers(keyed);
    forall i | 0 <= i < |h| ensures sorted[i].key == Rank(sorted[i].item.date) {
      var k :| 0 <= k < |keyed| && keyed[k] == sorted[i];
    }
    SortDescSorted(keyed);
  }

  /** `mapPlayerForFrontend`: level and position get their display names and
      the history comes newest first. */
  function PlayerForFrontend(row: PlayerRow): (r: PlayerRow)
    ensures r.id == row.id && r.joinDate == row.joinDate
    ensures r.data == FromStorage(row.data)
    ensures r.statsHistory == NewestFirst(row.statsHistory)
  {
    PlayerRow(row.id, row.joinDate, FromStorage(row.data), NewestFirst(row.statsHistory))
  }

  /** The team row as the client receives it. */
  datatype TeamView = TeamView(
    id: Id,
    name: string,
    mainCategory: MainCategory,
    subCategory: string,
    playerIds: seq<Id>,
    tournament: Option<string>,
    tournamentPosition: Option<string>)

  /** `mapTeamForFrontend`: the member ids become `playerIds` and the level its
      display name. */
  function TeamForFrontend(row: TeamRow): (r: TeamView)
    ensures r.playerIds == row.members && r.id == row.id && r.name == row.name
    ensures r.subCategory == Translate(SubCategoryFromPrisma, row.subCategory)
  {
    TeamView(row.id, row.name, row.mainCategory, Translate(SubCategoryFromPrisma, row.subCategory),
             row.members, row.tournament, row.tournamentPosition)
  }

  // ----------------------------------------------------------------- login

  /** The fixed credential table of `POST /api/auth/login`; `None` is the 401. */
  function Login(user: string, pass: string): (r: Option<Role>)
    ensures r == Some(Admin) <==> user == "admin" && pass == "password"
    ensures r == Some(SuperAdmin) <==> user == "superadmin" && pass == "superpassword"
    ensures r != Some(Coach)
  {
    if user == "admin" && pass == "password" then Some(Admin)
    else if user == "superadmin" && pass == "superpassword" then Some(SuperAdmin)
    else None
  }

  // -------------------------------------------------------------- settings

  /** The PUT handler's flattening of the colours. */
  function Flatten(s: ClubSettings): SettingsRow
  {
    SettingsRow(s.name, s.logoUrl, s.colors.primary, s.colors.secondary, s.colors.tertiary,
                s.colors.background, s.colors.surface, s.colors.textPrimary, s.colors.textSecondary,
                s.teamCreationEnabled, s.monthlyPaymentEnabled)
  }

  /** The GET handler's nesting of the colours. */
  function Nest(r: SettingsRow): ClubSettings
  {
    ClubSettings(r.name, r.logoUrl,
                 Colors(r.primaryColor, r.secondaryColor, r.tertiaryColor, r.backgroundColor,
                        r.surfaceColor, r.textPrimaryColor, r.textSecondaryColor),
                 r.teamCreationEnabled, r.monthlyPaymentEnabled)
  }

  lemma NestFlatten(s: ClubSettings, r: SettingsRow)
    ensures Nest(Flatten(s)) == s
    ensures Flatten(Nest(r)) == r
  {
  }

  /** The row created when none exists. */
  const DefaultSettingsRow: SettingsRow := SettingsRow(
    "Voley Club", "/logo-default.svg",
    "#DC2626", "#F9FAFB", "#FBBF24", "#000000", "#1F2937", "#F9FAFB", "#9CA3AF",
    true, true)

  /** The server's defaults are the client's defaults. */
  lemma DefaultsAgree()
    ensures Nest(DefaultSettingsRow) == ClientDefaultSettings
  {
  }

  // ----------------------------------------------------------------- store

  /** `id` is a decimal numeral below `n`, i.e. one of the first `n` issued ids. */
  predicate Issued(id: Id, n: nat)
  {
    AllDigits(id) && Dec(ParseDec(id)) == id && ParseDec(id) < n
  }

  /** The next id is not among the issued ones. */
  lemma FreshId(id: Id, n: nat)
    requires Issued(id, n)
    ensures id != Dec(n)
  {
    ParseDecOfDec(n);
  }

  /** Stats records of a creation request, numbered from `first`. */
  function NumberStats(entries: seq<NewStats>, first: nat): (r: seq<StatsRecord>)
    ensures |r| == |entries|
    ensures forall i :: 0 <= i < |r| ==> r[i] == StatsRecord(Dec(first + i), entries[i].date, entries[i].stats)
  {
    if entries == [] then []
    else [StatsRecord(Dec(first), entries[0].date, entries[0].stats)] + NumberStats(entries[1..], first + 1)
  }

  /** The records of `h` whose id is `recordId` get `stats`; nothing else changes. */
  function SetStatsById(h: seq<StatsRecord>, recordId: Id, stats: PlayerStats): (r: seq<StatsRecord>)
    ensures |r| == |h|
    ensures forall i :: 0 <= i < |h| ==> r[i].id == h[i].id && r[i].date == h[i].date
    ensures forall i :: 0 <= i < |h| && h[i].id != recordId ==> r[i] == h[i]
    ensures forall i :: 0 <= i < |h| && h[i].id == recordId ==> r[i].stats == stats
  {
    seq(|h|, i requires 0 <= i < |h| => if h[i].id == recordId then h[i].(stats := stats) else h[i])
  }

  predicate HasRecord(h: seq<StatsRecord>, recordId: Id)
  {
    exists i :: 0 <= i < |h| && h[i].id == recordId
  }

  /** Another player than `except` already has this document. */
  predicate DocumentTaken(players: map<Id, PlayerRow>, document: string, except: Id)
  {
    exists id :: id in players && id != except && players[id].data.document == document
  }

  /** Every id in the list names a stored player. */
  predicate AllKnown(players: map<Id, PlayerRow>, ids: seq<Id>)
  {
    forall i :: 0 <= i < |ids| ==> ids[i] in players
  }

  /** The history after `PUT /api/players/:id`: only the record named by the
      request's first (newest) entry, when that entry has an id, gets new stats. */
  function UpdatedHistory(stored: seq<StatsRecord>, sent: seq<StatsRecord>): seq<StatsRecord>
  {
    if |sent| > 0 && sent[0].id != "" then SetStatsById(stored, sent[0].id, sent[0].stats) else stored
  }

  /** The nested stats update fails when the named record is not this player's. */
  predicate StatsTargetMissing(stored: seq<StatsRecord>, sent: seq<StatsRecord>)
  {
    |sent| > 0 && sent[0].id != "" && !HasRecord(stored, sent[0].id)
  }

  /** Player rows are filed under their own issued ids and documents are unique. */
  ghost predicate PlayersValid(players: map<Id, PlayerRow>, nextId: nat)
  {
    (forall id :: id in players ==> players[id].id == id && Issued(id, nextId))
    && (forall a, b :: a in players && b in players && a != b ==> players[a].data.document != players[b].data.document)
  }

  /** Team rows are filed under their own issued ids; memberships are sets of
      stored players. */
  ghost predicate TeamsValid(teams: map<Id, TeamRow>, players: map<Id, PlayerRow>, nextId: nat)
  {
    forall id :: id in teams ==>
      teams[id].id == id && Issued(id, nextId) && NoDuplicates(teams[id].members) && AllKnown(players, teams[id].members)
  }

  ghost predicate AttendanceValid(attendance: map<AttendanceKey, AttendanceStatus>, players: map<Id, PlayerRow>)
  {
    forall k :: k in attendance ==> k.playerId in players
  }

  /** Storing a row under a fresh id, or replacing a row without taking another
      player's document, keeps the player rows valid. */
  lemma StorePlayerKeepsValid(players: map<Id, PlayerRow>, nextId: nat, newNext: nat, row: PlayerRow)
    requires PlayersValid(players, nextId) && nextId <= newNext
    requires Issued(row.id, newNext)
    requires !DocumentTaken(players, row.data.document, row.id)
    ensures PlayersValid(players[row.id := row], newNext)
  {
  }

  /** Adding or replacing a player row keeps teams and attendance valid. */
  lemma MorePlayersKeepRelations(teams: map<Id, TeamRow>, attendance: map<AttendanceKey, AttendanceStatus>,
                                 players: map<Id, PlayerRow>, nextId: nat, newNext: nat, row: PlayerRow)
    requires TeamsValid(teams, players, nextId) && AttendanceValid(attendance, players) && nextId <= newNext
    ensures TeamsValid(teams, players[row.id := row], newNext) && AttendanceValid(attendance, players[row.id := row])
  {
    forall id | id in teams ensures AllKnown(players[row.id := row], teams[id].members) {
      assert AllKnown(players, teams[id].members);
    }
  }

  /** A new player row under the next id, with a document no stored player
      has, keeps the whole store valid. */
  lemma NewPlayerKeepsValid(players: map<Id, PlayerRow>, teams: map<Id, TeamRow>,
                            attendance: map<AttendanceKey, AttendanceStatus>,
                            nextId: nat, newNext: nat, row: PlayerRow)
    requires PlayersValid(players, nextId) && TeamsValid(teams, players, nextId) && AttendanceValid(attendance, players)
    requires row.id == Dec(nextId) && nextId < newNext
    requires !DocumentTaken(players, row.data.document, "")
    ensures row.id !in players
    ensures PlayersValid(players[row.id := row], newNext)
    ensures TeamsValid(teams, players[row.id := row], newNext) && AttendanceValid(attendance, players[row.id := row])
  {
    if row.id in players {
      FreshId(row.id, nextId);
    }
    IssuedNext(nextId, newNext);
    StorePlayerKeepsValid(players, nextId, newNext, row);
    MorePlayersKeepRelations(teams, attendance, players, nextId, newNext, row);
  }

  lemma IssuedNext(n: nat, m: nat)
    requires n < m
    ensures Issued(Dec(n), m)
  {
    ParseDecOfDec(n);
  }

  /** A team row filed under an issued id, listing each stored player at most
      once, keeps the store valid. */
  lemma StoreTeamKeepsValid(players: map<Id, PlayerRow>, teams: map<Id, TeamRow>,
                            nextId: nat, newNext: nat, row: TeamRow, ids: seq<Id>)
    requires PlayersValid(players, nextId) && TeamsValid(teams, players, nextId) && nextId <= newNext
    requires Issued(row.id, newNext) && row.members == Dedup(ids) && AllKnown(players, ids)
    ensures PlayersValid(players, newNext) && TeamsValid(teams[row.id := row], players, newNext)
  {
    DedupKnown(players, ids);
    forall id | id in players ensures Issued(id, newNext) {
      assert Issued(id, nextId);
    }
    var teams' := teams[row.id := row];
    forall id | id in teams'
      ensures teams'[id].id == id && Issued(id, newNext) && NoDuplicates(teams'[id].members) && AllKnown(players, teams'[id].members)
    {
      if id != row.id {
        assert teams'[id] == teams[id] && Issued(id, nextId);
      }
    }
  }

  lemma DedupKnown(players: map<Id, PlayerRow>, ids: seq<Id>)
    requires AllKnown(players, ids)
    ensures AllKnown(players, Dedup(ids))
  {
    var r := Dedup(ids);
    forall i | 0 <= i < |r| ensures r[i] in players {
      var k :| 0 <= k < |ids| && ids[k] == r[i];
    }
  }

  /** The database, as the handlers see it. */
  class ClubStore {
    var players: map<Id, PlayerRow>
    var teams: map<Id, TeamRow>
    var attendance: map<AttendanceKey, AttendanceStatus>
    var settings: Option<SettingsRow>
    var nextId: nat

    /** Rows are filed under their own issued ids, relations point at stored
        players, memberships are sets and documents are unique. */
    ghost predicate Valid()
      reads this
    {
      PlayersValid(players, nextId) && TeamsValid(teams, players, nextId) && AttendanceValid(attendance, players)
    }

    constructor()
      ensures Valid()
      ensures players == map[] && teams == map[] && attendance == map[] && settings == None && nextId == 0
    {
      players := map[];
      teams := map[];
      attendance := map[];
      settings := None;
      nextId := 0;
    }

    /** `POST /api/players`. */
    method CreatePlayer(data: PlayerData, stats: seq<NewStats>, now: Moment) returns (reply: Reply<PlayerRow>)
      requires Valid()
      modifies this
      ensures Valid()
      ensures teams == old(teams) && attendance == old(attendance) && settings == old(settings)
      ensures ToStorage(data).None? ==>
                reply == BadRequest(InvalidPlayerEnums) && players == old(players) && nextId == old(nextId)
      ensures ToStorage(data).Some? && (data.birthDate.None? || DocumentTaken(old(players), data.document, "")) ==>
                reply == ServerError && players == old(players) && nextId == old(nextId)
      ensures ToStorage(data).Some? && data.birthDate.Some? && !DocumentTaken(old(players), data.document, "") ==>
                var row := PlayerRow(Dec(old(nextId)), now, ToStorage(data).value, NumberStats(stats, old(nextId) + 1));
                && Dec(old(nextId)) !in old(players)
                && players == old(players)[row.id := row]
                && nextId == old(nextId) + 1 + |stats|
                && reply == Success(201, PlayerForFrontend(row))
    {
      var stored := ToStorage(data);
      if stored.None? {
        return BadRequest(InvalidPlayerEnums);
      }
      if data.birthDate.None? {
        return ServerError;
      }
      if DocumentTaken(players, data.document, "") {
        return ServerError;
      }
      var row := PlayerRow(Dec(nextId), now, stored.value, NumberStats(stats, nextId + 1));
      var newNext := nextId + 1 + |stats|;
      NewPlayerKeepsValid(players, teams, attendance, nextId, newNext, row);
      players, nextId := players[row.id := row], newNext;
      reply := Success(201, PlayerForFrontend(row));
    }

    /** `PUT /api/players/:id`: id and join date stay; the client fields are
        written (an absent payment date clears it); only the newest stats
        record named in the body is edited. */
    method UpdatePlayer(id: Id, data: PlayerData, sentHistory: seq<StatsRecord>) returns (reply: Reply<PlayerRow>)
      requires Valid()
      modifies this
      ensures Valid()
      ensures teams == old(teams) && attendance == old(attendance) && settings == old(settings) && nextId == old(nextId)
      ensures ToStorage(data).None? ==> reply == BadRequest(InvalidPlayerEnums) && players == old(players)
      ensures ToStorage(data).Some?
              && (data.birthDate.None? || id !in old(players) || DocumentTaken(old(players), data.document, id)
                  || StatsTargetMissing(old(players)[id].statsHistory, sentHistory)) ==>
                reply == ServerError && players == old(players)
      ensures ToStorage(data).Some? && data.birthDate.Some? && id in old(players)
              && !DocumentTaken(old(players), data.document, id)
              && !StatsTargetMissing(old(players)[id].statsHistory, sentHistory) ==>
                var row := PlayerRow(id, old(players)[id].joinDate, ToStorage(data).value,
                                     UpdatedHistory(old(players)[id].statsHistory, sentHistory));
                players == old(players)[id := row] && reply == Success(200, PlayerForFrontend(row))
    {
      var stored := ToStorage(data);
      if stored.None? {
        return BadRequest(InvalidPlayerEnums);
      }
      if data.birthDate.None? || id !in players || DocumentTaken(players, data.document, id)
         || StatsTargetMissing(players[id].statsHistory, sentHistory) {
        return ServerError;
      }
      var before := players[id];
      var row := PlayerRow(id, before.joinDate, stored.value, UpdatedHistory(before.statsHistory, sentHistory));
      StorePlayerKeepsValid(players, nextId, nextId, row);
      MorePlayersKeepRelations(teams, attendance, players, nextId, nextId, row);
      players := players[id := row];
      reply := Success(200, PlayerForFrontend(row));
    }

    /** `POST /api/players/:id/payment`: only the payment date changes. */
    method RecordPayment(id: Id, now: Moment) returns (reply: Reply<PlayerRow>)
      requires Valid()
      modifies this
      ensures Valid()
      ensures teams == old(teams) && attendance == old(attendance) && settings == old(settings) && nextId == old(nextId)
      ensures id !in old(players) ==> reply == ServerError && players == old(players)
      ensures id in old(players) ==>
                var row := old(players)[id].(data := old(players)[id].data.(lastPaymentDate := Some(now)));
                players == old(players)[id := row] && reply == Success(200, PlayerForFrontend(row))
    {
      if id !in players {
        return ServerError;
      }
      var row := players[id].(data := players[id].data.(lastPaymentDate := Some(now)));
      StorePlayerKeepsValid(players, nextId, nextId, row);
      MorePlayersKeepRelations(teams, attendance, players, nextId, nextId, row);
      players := players[id := row];
      reply := Success(200, PlayerForFrontend(row));
    }

    /** `POST /api/teams`: the level must be known; every listed player must
        exist for the connect to succeed, and the name is a required column. */
    method CreateTeam(body: TeamBody) returns (reply: Reply<TeamView>)
      requires Valid()
      modifies this
      ensures Valid()
      ensures players == old(players) && attendance == old(attendance) && settings == old(settings)
      ensures body.subCategory !in SubCategoryToPrisma ==>
                reply == BadRequest(InvalidTeamLevel) && teams == old(teams) && nextId == old(nextId)
      ensures body.subCategory in SubCategoryToPrisma && (body.name.None? || !AllKnown(old(players), body.playerIds)) ==>
                reply == ServerError && teams == old(teams) && nextId == old(nextId)
      ensures body.subCategory in SubCategoryToPrisma && body.name.Some? && AllKnown(old(players), body.playerIds) ==>
                var row := TeamRow(Dec(old(nextId)), body.name.value, body.mainCategory, SubCategoryToPrisma[body.subCategory],
                                   Dedup(body.playerIds), body.tournament, body.tournamentPosition);
                && Dec(old(nextId)) !in old(teams)
                && teams == old(teams)[row.id := row] && nextId == old(nextId) + 1
                && reply == Success(201, TeamForFrontend(row))
    {
      if body.subCategory !in SubCategoryToPrisma {
        return BadRequest(InvalidTeamLevel);
      }
      if body.name.None? {
        return ServerError;
      }
      if !AllKnown(players, body.playerIds) {
        return ServerError;
      }
      var id := Dec(nextId);
      if id in teams {
        FreshId(id, nextId);
      }
      var row := TeamRow(id, body.name.value, body.mainCategory, SubCategoryToPrisma[body.subCategory],
                         Dedup(body.playerIds), body.tournament, body.tournamentPosition);
      IssuedNext(nextId, nextId + 1);
      StoreTeamKeepsValid(players, teams, nextId, nextId + 1, row, body.playerIds);
      teams, nextId := teams[id := row], nextId + 1;
      reply := Success(201, TeamForFrontend(row));
    }

    /** `PUT /api/teams/:id`: the name and the tournament fields are written
        only when present, the member set is replaced; the categories in the body
        are ignored. */
    method UpdateTeam(id: Id, body: TeamBody) returns (reply: Reply<TeamView>)
      requires Valid()
      modifies this
      ensures Valid()
      ensures players == old(players) && attendance == old(attendance) && settings == old(settings) && nextId == old(nextId)
      ensures (id !in old(teams) || !AllKnown(old(players), body.playerIds)) ==>
                reply == ServerError && teams == old(teams)
      ensures id in old(teams) && AllKnown(old(players), body.playerIds) ==>
                var before := old(teams)[id];
                var row := TeamRow(id, if body.name.Some? then body.name.value else before.name, before.mainCategory, before.subCategory, Dedup(body.playerIds),
                                   if body.tournament.Some? then body.tournament else before.tournament,
                                   if body.tournamentPosition.Some? then body.tournamentPosition else before.tournamentPosition);
                teams == old(teams)[id := row] && reply == Success(200, TeamForFrontend(row))
    {
      if id !in teams || !AllKnown(players, body.playerIds) {
        return ServerError;
      }
      var before := teams[id];
      var row := TeamRow(id, if body.name.Some? then body.name.value else before.name, before.mainCategory, before.subCategory, Dedup(body.playerIds),
                         if body.tournament.Some? then body.tournament else before.tournament,
                         if body.tournamentPosition.Some? then body.tournamentPosition else before.tournamentPosition);
      StoreTeamKeepsValid(players, teams, nextId, nextId, row, body.playerIds);
      teams := teams[id := row];
      reply := Success(200, TeamForFrontend(row));
    }

    /** `POST /api/attendances`: keyed on the player and the day of `now`;
        an existing record gets the new status, otherwise one is created. */
    method UpsertAttendance(playerId: Id, status: AttendanceStatus, now: Moment) returns (reply: Reply<Attendance>)
      requires Valid()
      modifies this
      ensures Valid()
      ensures players == old(players) && teams == old(teams) && settings == old(settings) && nextId == old(nextId)
      ensures playerId !in old(players) ==> reply == ServerError && attendance == old(attendance)
      ensures playerId in old(players) ==>
                attendance == old(attendance)[AttendanceKey(playerId, now.date) := status]
                && reply == Success(201, Attendance(playerId, now.date, status))
    {
      if playerId !in players {
        return ServerError;
      }
      attendance := attendance[AttendanceKey(playerId, now.date) := status];
      reply := Success(201, Attendance(playerId, now.date, status));
    }

    /** `GET /api/club-settings`: creates the defaults when the row is absent,
        otherwise returns the stored row unchanged. */
    method GetSettings() returns (reply: ClubSettings)
      requires Valid()
      modifies this
      ensures Valid()
      ensures players == old(players) && teams == old(teams) && attendance == old(attendance) && nextId == old(nextId)
      ensures old(settings).Some? ==> settings == old(settings) && reply == Nest(old(settings).value)
      ensures old(settings).None? ==> settings == Some(DefaultSettingsRow) && reply == ClientDefaultSettings
    {
      if settings.None? {
        settings := Some(DefaultSettingsRow);
      }
      reply := Nest(settings.value);
    }

    /** `PUT /api/club-settings`: updates the existing row (the update fails when
        there is none) and echoes the body. */
    method PutSettings(body: ClubSettings) returns (reply: Reply<ClubSettings>)
      requires Valid()
      modifies this
      ensures Valid()
      ensures players == old(players) && teams == old(teams) && attendance == old(attendance) && nextId == old(nextId)
      ensures old(settings).None? ==> reply == ServerError && settings == old(settings)
      ensures old(settings).Some? ==> settings == Some(Flatten(body)) && reply == Success(200, body)
    {
      if settings.None? {
        return ServerError;
      }
      settings := Some(Flatten(body));
      reply := Success(200, body);
    }
  }

  /** Two recordings on the same day leave one record, holding the later status. */
  lemma SameDayUpsertsOverwrite(att: map<AttendanceKey, AttendanceStatus>, key: AttendanceKey,
                                first: AttendanceStatus, second: AttendanceStatus)
    ensures att[key := first][key := second] == att[key := second]
    ensures |(att[key := first][key := second]).Keys| == |att[key := second].Keys|
  {
  }

  /** Saving settings and reading them back gives what was saved. */
  method PutThenGet(store: ClubStore, body: ClubSettings) returns (read: ClubSettings)
    requires store.Valid() && store.settings.Some?
    modifies store
    ensures read == body
  {
    var _ := store.PutSettings(body);
    read := store.GetSettings();
    NestFlatten(body, Flatten(body));
  }
}
