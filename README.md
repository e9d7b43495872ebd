# Volleyball club manager — a verified model of its business rules

The volleyball club manager is a small CRUD application. A React client keeps
lists of players, teams and attendance records, and an Express server stores
them with Prisma. The business rules are scattered across components, one data
context and the server handlers. This project restates them in Dafny and
proves what they promise:

- the monthly-fee debt calculation and the overdue list;
- which players a team may take and how large a roster must be;
- the server's translation tables, the fixed login table, the handlers that
  write players, teams, attendance and club settings, and the invariants of
  the store they write to;
- the client's list cache;
- rankings and aggregates: the latest stats of a player, the top five
  athletes, tournament groups, the twelve monthly join buckets, today's
  attendance rate, ages;
- list filters, attendance status, sidebar links, route guards and page
  titles;
- the player and coach registration checks, the club-colour parser and the
  rule that only parsed colours are applied;
- sign-in and sign-out.

"Today" and "now" are parameters, dates are `(year, month, day)` triples,
and a time of day is a millisecond count within the day. The database is an
in-memory store: a class holding one map per table. Every answer from the
server that the client waits for is a parameter too; `None` stands for a
request that failed.

Modules follow the source files: `OverduePayments`, `Teams`, `Server`,
`DataContext`, `PlayerProfile`, `StatsHistory` (the `getLatestStats` helper
that four client files repeat), `TopAthletes`, `NewAthletes`,
`Tournaments`, `DashboardSummary`, `Filters` (the Attendance, Categories and
all-athletes pages), `RegisterPlayer`, `Coaches`, `Theme` (App.tsx),
`Sidebar`, `Layout`, `Auth` and `Guards`. Shared building blocks are in
`Base` (filter, toggle, dedup), `Text` (trim, decimal numerals, hex
digits), `Calendar`, `Sorting` (the stable descending sort every ranking
uses) and `Domain` (the client's types).

## Model

| member | source | states |
|---|---|---|
| OverduePayments.FirstOfNextMonth | components/dashboard/OverduePayments.tsx:28-30 | the first unpaid month is the calendar month right after the given date, on day 1 at midnight, and December rolls over to January of the next year |
| OverduePayments.OverdueMonths | components/dashboard/OverduePayments.tsx:9-39 | the debt is 0 when the join date is after today, when the player joined in today's month, when the last payment is in today's month, or when the first unpaid month is after today's month; otherwise it is the number of calendar months from the first unpaid one through today's, both included |
| OverduePayments.NeverPaidExample | components/dashboard/OverduePayments.tsx:28-38 | a player who joined on 2024-01-15 and never paid owes 3 months on 2024-04-01 |
| OverduePayments.PaidLastMonthExample | components/dashboard/OverduePayments.tsx:28-38 | a player who last paid on 2024-03-10 owes 1 month on 2024-04-20 |
| OverduePayments.WithDebts | components/dashboard/OverduePayments.tsx:55-58 | each player is paired with its own debt, in list order |
| OverduePayments.OverdueListSpec | components/dashboard/OverduePayments.tsx:52-62 | the overdue list is ordered by non-increasing debt, holds only players of the list with their positive debt, holds every player with a positive debt, and is exactly as long as the number of players who owe |
| OverduePayments.OverdueListSound | components/dashboard/OverduePayments.tsx:55-60 | every entry is a listed player carrying its own debt, which is positive |
| OverduePayments.OverdueListComplete | components/dashboard/OverduePayments.tsx:55-60 | every player with a positive debt is on the list with that debt |
| OverduePayments.OverdueListStable | components/dashboard/OverduePayments.tsx:60 | players with the same debt keep the order of the players list |
| OverduePayments.ExpelRequest | components/dashboard/OverduePayments.tsx:64-66 | a deletion is requested, for that player's id, exactly when the user confirmed |
| OverduePayments.ExpelOnlyFromThreeMonths | components/dashboard/OverduePayments.tsx:107 | an entry whose player owes less than three months is not offered the expel action |
| Teams.SubCategoryOptions | components/pages/Teams.tsx:12-16 | Intermedio is allowed for every category, Avanzado for every category but Femenino, and Básico only for Mixto; the options are distinct and never empty |
| Teams.SyncSubCategory | components/pages/Teams.tsx:37-43 | the level after the effect is allowed for the category; an allowed level is kept, and a disallowed one becomes the category's first option |
| Teams.SyncIdempotent | components/pages/Teams.tsx:37-43 | running the effect a second time changes nothing |
| Teams.SyncExamples | components/pages/Teams.tsx:37-43 | Avanzado becomes Intermedio under Femenino and survives under Mixto; Básico becomes Avanzado under Masculino |
| Teams.TallyPresent | components/pages/Teams.tsx:47-52 | the tally holds exactly the players with at least one `Presente` record, each with its number of such records; `Ausente` records count nothing |
| Teams.CreateCandidateList | components/pages/Teams.tsx:44-72 | the list built from this tally, with a missing player counting 0, is exactly `CreateCandidates`, so it is sorted, sound, complete and stable as the lemmas below state |
| Teams.CreateEligibleOf | components/pages/Teams.tsx:54-61 | exactly the players who play the chosen category and are on no team of that category are kept, each of them a listed player |
| Teams.CreateCandidatesSorted | components/pages/Teams.tsx:67-71 | creation candidates come in order of non-increasing `Presente` count |
| Teams.CreateCandidatesSound | components/pages/Teams.tsx:54-71 | every creation candidate is an eligible listed player, keyed by its `Presente` count |
| Teams.CreateCandidatesComplete | components/pages/Teams.tsx:54-71 | every eligible player is a creation candidate |
| Teams.CreateCandidatesStable | components/pages/Teams.tsx:67-71 | candidates with equal counts keep the order of the players list |
| Teams.EditCandidatesStable | components/pages/Teams.tsx:194-195 | edit candidates with equal total scores keep the order of the players list |
| Teams.RosteredNotOffered | components/pages/Teams.tsx:56-60 | a player listed on any team of the chosen category is never a creation candidate |
| Teams.CategoriesIndependent | components/pages/Teams.tsx:56-57 | adding a team of another category does not change who may join a team of this one |
| Teams.CreateError | components/pages/Teams.tsx:80-89 | the creation form is accepted exactly when the trimmed name is not empty and 6 to 14 players are selected; a blank name is reported first, then the roster size |
| Teams.EditError | components/pages/Teams.tsx:207-211 | the edit dialog is accepted exactly when 6 to 14 players are selected, and otherwise reports the size message |
| Teams.RosterBounds | components/pages/Teams.tsx:86-89 | rosters of 5 and 15 are refused by both forms, and rosters of 6 and 14 are accepted by both |
| Teams.CreatePayload | components/pages/Teams.tsx:93-99 | the request carries the name as typed, the chosen categories and the selection; an empty tournament is sent as absent and any other tournament as given |
| Teams.EditedTeam | components/pages/Teams.tsx:213 | the saved team differs from the edited one only in its tournament position and its roster |
| Teams.EditEligibleOf | components/pages/Teams.tsx:182-194 | exactly the players who play the team's category and are on no other team of that category (another id) are kept |
| Teams.EditCandidatesSorted | components/pages/Teams.tsx:195-196 | edit candidates come in order of non-increasing total score |
| Teams.EditCandidatesSound | components/pages/Teams.tsx:181-196 | every edit candidate is an eligible listed player, keyed by its total score |
| Teams.EditCandidatesComplete | components/pages/Teams.tsx:181-196 | every eligible player is an edit candidate |
| Teams.OwnMembersOffered | components/pages/Teams.tsx:188-193 | a member of the edited team who plays its category and is on no other team of it stays a candidate |
| Teams.CreateTeamForm.constructor | components/pages/Teams.tsx:29-35 | the form starts with empty name, tournament and error, Masculino, Avanzado and no selection |
| Teams.CreateTeamForm.ChooseMainCategory | components/pages/Teams.tsx:129-131 | choosing a category clears the selection and brings the level into the category's options; the form stays valid and nothing else changes |
| Teams.CreateTeamForm.ChooseSubCategory | components/pages/Teams.tsx:135 | the chosen level is kept when the category allows it, otherwise the effect replaces it; nothing else changes |
| Teams.CreateTeamForm.TogglePlayer | components/pages/Teams.tsx:74-78 | the selection is toggled for that id and stays free of duplicates; nothing else changes |
| Teams.CreateTeamForm.Submit | components/pages/Teams.tsx:80-108 | a failed check sets the error and sends nothing; otherwise the error is cleared and the payload is sent, and name, tournament and selection are cleared only when the server accepted it |
| Teams.EditTeamModal.constructor | components/pages/Teams.tsx:167-169 | the dialog starts from the team's position, empty when absent, and its roster; a roster without repeats starts the dialog valid |
| Teams.EditTeamModal.TogglePlayer | components/pages/Teams.tsx:198-204 | the roster is toggled for that id and a roster free of duplicates stays so; the position is untouched |
| Teams.EditTeamModal.Save | components/pages/Teams.tsx:207-214 | a roster outside 6..14 sets the size message and saves nothing; otherwise the team with only its position and roster replaced is handed over |
| Teams.Sections | components/pages/Teams.tsx:301-304 | the sections shown are exactly the levels that have teams, each once, most advanced first |
| Teams.SectionsPartitionTeams | components/pages/Teams.tsx:289-296 | the three level groups together hold every team exactly once |
| Server.SubCategoryTablesInverse | backend/src/server.ts:21-30 | the two level tables undo each other in both directions and cover the three client names |
| Server.PositionTablesInverse | backend/src/server.ts:32-45 | the two position tables undo each other in both directions and cover five positions |
| Server.ClientNamesAccepted | backend/src/server.ts:21-38 | every level and position name the client uses is in the tables |
| Server.Translate | backend/src/server.ts:59-60 | a value missing from the table passes through unchanged, and a mapped value is replaced by one of the table's values |
| Server.ToStorage | backend/src/server.ts:126-131 | the player fields can be stored exactly when both the level and the position are known |
| Server.StorageRoundTrip | backend/src/server.ts:126-131 | storing a player's fields and reading them back gives the fields the client sent |
| Server.NewestFirstSpec | backend/src/server.ts:144 | the returned history holds the same records ordered newest first, and its head is the record the client takes as the latest |
| Server.PlayerForFrontend | backend/src/server.ts:50-62 | the client's player keeps id and join date, gets display names for level and position, and receives its history newest first |
| Server.TeamForFrontend | backend/src/server.ts:64-72 | the client's team lists the connected players as `playerIds` and the level under its display name |
| Server.Login | backend/src/server.ts:81-90 | admin/password signs in as administrator and superadmin/superpassword as super-administrator; every other pair fails, and no pair gives the coach role |
| Server.NestFlatten | backend/src/server.ts:407-419 | flattening the colours for storage and nesting them back are inverse in both directions |
| Server.DefaultsAgree | backend/src/server.ts:388-406 | the settings row created on first read is the client's default settings |
| Server.FreshId | backend/src/server.ts:133 | the next id differs from every id issued before |
| Server.NumberStats | backend/src/server.ts:140-142 | each stats entry of the request becomes one record with its own date and stats, under consecutive new ids |
| Server.SetStatsById | backend/src/server.ts:174-183 | only the record with the requested id gets the new stats; ids, dates and every other record are unchanged |
| Server.StorePlayerKeepsValid | backend/src/server.ts:133-145 | storing a player under an issued id without taking another player's document keeps ids and documents unique |
| Server.NewPlayerKeepsValid | backend/src/server.ts:133-145 | a new player under the next id with an unused document is filed under a fresh id and keeps the whole store valid |
| Server.StoreTeamKeepsValid | backend/src/server.ts:261-271 | a team row under an issued id whose members are stored players keeps the store valid |
| Server.ClubStore.CreatePlayer | backend/src/server.ts:122-150 | an unknown level or position answers 400 and writes nothing; an absent birth date (stored as Invalid Date) or a document already in use fails and writes nothing; otherwise the player is stored under a fresh id with its numbered stats and answered 201; teams, attendance and settings never change |
| Server.ClubStore.UpdatePlayer | backend/src/server.ts:152-195 | an unknown level or position answers 400; an absent birth date, a missing player, a taken document or a stats id that is not this player's fails; otherwise id and join date stay, the client fields are written and only the record named by the first entry of the history gets new stats |
| Server.ClubStore.RecordPayment | backend/src/server.ts:222-233 | only the player's last payment date changes, to now; a missing player fails |
| Server.ClubStore.CreateTeam | backend/src/server.ts:252-276 | an unknown level answers 400 and writes nothing; an absent name or an unknown player makes the create fail; otherwise the team is stored under a fresh id with its members, each once, and answered 201 |
| Server.ClubStore.UpdateTeam | backend/src/server.ts:278-300 | only the name and the tournament fields that are present, and the member set, change; the categories in the body are ignored; a missing team or unknown player fails |
| Server.ClubStore.UpsertAttendance | backend/src/server.ts:341-365 | the status is stored under the player and the day of `now`, overwriting an existing record or creating one; an unknown player fails |
| Server.ClubStore.GetSettings | backend/src/server.ts:386-424 | the defaults are created only when no row exists; a stored row is returned unchanged and nested |
| Server.ClubStore.PutSettings | backend/src/server.ts:426-448 | the row is replaced by the flattened body and the body is echoed; with no row to update the request fails |
| Server.SameDayUpsertsOverwrite | backend/src/server.ts:347-360 | two recordings for the same player and day leave one record holding the later status |
| Server.PutThenGet | backend/src/server.ts:407-444 | reading the settings back after saving them gives what was saved |
| DataContext.SlotIndex | context/DataContext.tsx:62 | the index is the first record of the same player and day, or -1 exactly when there is none |
| DataContext.UpsertSpec | context/DataContext.tsx:61-69 | after recording, the record is in the list; the length stays the same exactly when a slot matched and grows by one exactly when none did; records of other slots stay where they were |
| DataContext.UpsertKeepsUniqueSlots | context/DataContext.tsx:61-69 | recording keeps the rule that no two records share a player and a day |
| DataContext.UpsertTwice | context/DataContext.tsx:61-69 | recording the same player and day twice equals recording the later answer once |
| DataContext.Replace | context/DataContext.tsx:74-79 | the returned player or team replaces exactly the records with its id; length, order and the other records are unchanged |
| DataContext.ReplaceIdempotent | context/DataContext.tsx:74-79 | replacing twice with the same answer equals replacing once |
| DataContext.ReplaceFound | context/DataContext.tsx:74-79 | the answer sits exactly where the old record with its id was |
| DataContext.DataCache.constructor | context/DataContext.tsx:24-27 | the cache starts with empty lists and loading |
| DataContext.DataCache.FetchData | context/DataContext.tsx:29-45 | on success the three lists are replaced, on failure they are kept, and loading ends false either way |
| DataContext.DataCache.CreateTeam | context/DataContext.tsx:47-51 | the new team is appended last; nothing else changes |
| DataContext.DataCache.CreatePlayer | context/DataContext.tsx:53-57 | the new player is put first; nothing else changes |
| DataContext.DataCache.FindSlot | context/DataContext.tsx:62 | the loop finds the first record of the same player and day, or -1 |
| DataContext.DataCache.RecordAttendance | context/DataContext.tsx:59-70 | the matching slot is overwritten or the record appended, unique slots stay unique, and the other lists are untouched |
| DataContext.DataCache.ReplacePlayerRecord | context/DataContext.tsx:72-85 | the returned player replaces the records with its id; a failed request changes nothing |
| DataContext.DataCache.ReplaceTeamRecord | context/DataContext.tsx:77-80 | the returned team replaces the records with its id; a failed request changes nothing |
| DataContext.DataCache.DeletePlayer | context/DataContext.tsx:87-90 | after a successful delete, all three lists are fetched again and loading ends false; a failed delete changes nothing |
| PlayerProfile.Age | components/pages/PlayerProfile.tsx:23-28 | the age is the number of completed years: the birthday of that year is on or before today and the next one is after today |
| PlayerProfile.AgeUnique | components/pages/PlayerProfile.tsx:23-28 | only one number of years meets both birthday bounds, so the age is determined by them |
| PlayerProfile.CalculateAge | components/pages/PlayerProfile.tsx:19-29 | there is no age exactly when the birth date is empty, and otherwise it is the completed years |
| PlayerProfile.AgeExamples | components/pages/PlayerProfile.tsx:23-28 | someone born 2000-06-15 is 23 the day before their birthday in 2024 and 24 on it |
| PlayerProfile.PaidUpOwesNothing | components/pages/PlayerProfile.tsx:168-173 | a player the profile shows as paid up this month owes nothing on the overdue-payments card |
| PlayerProfile.OwingIsNotPaidUp | components/pages/PlayerProfile.tsx:168-173 | a player with a debt is never shown as paid up |
| PlayerProfile.HandleStatChange | components/pages/PlayerProfile.tsx:48-58 | the edit goes into the first record with the latest date and changes only the named stat; an empty history makes it fail and changes nothing |
| PlayerProfile.StatChangeEditsLatest | components/pages/PlayerProfile.tsx:48-58 | after the edit, the same record is still the latest, and the latest stats differ from before only in the named stat |
| PlayerProfile.WindowStart | components/pages/PlayerProfile.tsx:218-232 | the window starts 3 or 6 calendar months back, or a year back on the same day, with the time of day kept |
| PlayerProfile.OldestFirstSorted | components/pages/PlayerProfile.tsx:234 | the history copy is in ascending date order |
| PlayerProfile.OldestFirstMembers | components/pages/PlayerProfile.tsx:234 | the sorted copy holds exactly the records of the history |
| PlayerProfile.SkillSeriesSpec | components/pages/PlayerProfile.tsx:234-235 | the series is in date order and holds exactly the records dated at or after the window start |
| PlayerProfile.Peers | components/pages/PlayerProfile.tsx:247-248 | the peers are exactly the other listed players with the same position; the player is never its own peer |
| StatsHistory.LatestIndex | components/pages/PlayerProfile.tsx:50 | the index points at a record of maximal date, and no earlier record has that date |
| StatsHistory.LatestStats | components/pages/PlayerProfile.tsx:12-17 | an empty history gives all-zero stats; otherwise the result is the stats of the first record with the latest date |
| StatsHistory.LatestStatsOfUniqueMax | components/shared/PlayerCard.tsx:9-14 | when one record is strictly newer than all the others, its stats are the ones shown |
| StatsHistory.LatestStatsOrderIndependent | components/shared/PlayerCard.tsx:9-14 | when no two records share a date, reordering the history does not change the latest stats |
| StatsHistory.RankedByScore | components/dashboard/TopAthletesList.tsx:35-41 | every ranked entry is a listed player paired with its own total score |
| TopAthletes.TopAthletes | components/dashboard/TopAthletesList.tsx:25-43 | the list has five entries, or as many as there are players when fewer, and is empty without players |
| TopAthletes.TopAthletesSorted | components/dashboard/TopAthletesList.tsx:35-42 | the list is in descending score order, and each entry is a listed player with its own score |
| TopAthletes.OmittedScoreNoHigher | components/dashboard/TopAthletesList.tsx:41-42 | a player left off the list scores no more than anyone on it |
| TopAthletes.TopAthletesStable | components/dashboard/TopAthletesList.tsx:41-42 | among players with equal scores, the listed ones are the first of that score in input order |
| NewAthletes.KeyOf | components/dashboard/NewAthletesChart.tsx:25-26 | a join date's key is the key of its month in the month numbering used for the buckets |
| NewAthletes.ChartData | components/dashboard/NewAthletesChart.tsx:10-36 | there are twelve buckets, oldest first, ending at today's month, and each count is the number of players who joined in a month with that bucket's key |
| NewAthletes.BucketKeys | components/dashboard/NewAthletesChart.tsx:16-21 | there are twelve keys, and bucket b is the month 11 - b months before today's |
| NewAthletes.BucketKeysSpec | components/dashboard/NewAthletesChart.tsx:16-21 | the twelve keys are all different and the last one is today's month |
| NewAthletes.KeyOfIndexInjectiveWithinCentury | components/dashboard/NewAthletesChart.tsx:18 | two months less than 100 years apart never share a month-and-two-digit-year key |
| NewAthletes.WindowMembership | components/dashboard/NewAthletesChart.tsx:24-29 | a player who joined at most 99 years ago is counted exactly when the join month is one of the last twelve |
| NewAthletes.BucketsSum | components/dashboard/NewAthletesChart.tsx:24-29 | with distinct keys, the bucket counts add up to the number of players whose join key is one of them |
| NewAthletes.ChartSum | components/dashboard/NewAthletesChart.tsx:10-36 | the chart's bars add up to the number of players whose join key is one of the twelve bucket keys |
| NewAthletes.Capitalize | components/dashboard/NewAthletesChart.tsx:33 | the label keeps its length, its first character is upper-cased and the rest is unchanged |
| NewAthletes.CapitalizeIdempotent | components/dashboard/NewAthletesChart.tsx:33 | capitalizing a label twice gives the same as once |
| Tournaments.Tournaments | components/dashboard/TournamentOverview.tsx:19-25 | the named tournaments are non-empty, and every team with a tournament contributes its name |
| Tournaments.AddTeam | components/dashboard/TournamentOverview.tsx:20-26 | a team with a tournament is appended to that tournament's list, which is created empty under a new key on first sight; any other team leaves the grouping as it was |
| Tournaments.GroupByTournament | components/dashboard/TournamentOverview.tsx:16-30 | the keys are the distinct tournament names in first-occurrence order, and each key's list holds exactly that tournament's teams in input order |
| Tournaments.NoTournamentNoGroup | components/dashboard/TournamentOverview.tsx:20 | a team without a tournament, or with an empty one, is in no group |
| Tournaments.TeamInItsGroup | components/dashboard/TournamentOverview.tsx:20-24 | a team with a tournament is in its tournament's group, and that name is a key |
| Tournaments.GroupsPartition | components/dashboard/TournamentOverview.tsx:19-27 | with distinct non-empty names that cover every tournament, the group sizes add up to the number of teams with a tournament |
| Tournaments.OverviewPartition | components/dashboard/TournamentOverview.tsx:19-32 | the overview's groups split the teams with a tournament: each such team appears in exactly one group |
| Tournaments.ObjectKeysMembers | components/dashboard/TournamentOverview.tsx:32 | the names listed are exactly the keys of the grouping |
| Tournaments.ObjectKeysLayout | components/dashboard/TournamentOverview.tsx:32 | array-index-like names come first; the other names follow in the order they were added |
| Tournaments.IndexKeysStrictlyAscending | components/dashboard/TournamentOverview.tsx:32 | the index-like names are listed in strictly ascending numeric order |
| Tournaments.ObjectKeysInsertionOrder | components/dashboard/TournamentOverview.tsx:32 | when no name looks like an array index, the keys come in the order they were added |
| Tournaments.TournamentOfSomeTeam | components/dashboard/TournamentOverview.tsx:19-27 | every listed tournament is the tournament of some team |
| Tournaments.EmptyStateIffNoTournament | components/dashboard/TournamentOverview.tsx:38-48 | the empty-state card shows exactly when no team plays a tournament |
| DashboardSummary.RoundedPercent | components/dashboard/DashboardSummary.tsx:37 | the result is the nearest integer to 100 * present / players, halves rounded up, and at most 100 when at most everyone is present |
| DashboardSummary.AttendanceRate | components/dashboard/DashboardSummary.tsx:37 | the rate is 0 without players, and otherwise the rounded percentage |
| DashboardSummary.RateUnique | components/dashboard/DashboardSummary.tsx:37 | only one integer lies within half a point of the exact percentage, so the rate is determined |
| DashboardSummary.RateMonotone | components/dashboard/DashboardSummary.tsx:37 | more players present never lowers the rate |
| DashboardSummary.RateExamples | components/dashboard/DashboardSummary.tsx:37 | 1 of 3 gives 33, 2 of 3 gives 67, 1 of 200 gives 1 and 10 of 10 gives 100 |
| DashboardSummary.PresentCount | components/dashboard/DashboardSummary.tsx:33-35 | the present count never exceeds the number of records |
| DashboardSummary.SummaryData | components/dashboard/DashboardSummary.tsx:30-44 | while loading, every figure is the placeholder; otherwise the figures are the player count, the team count and the rate of today's present records |
| DashboardSummary.OtherRecordsDoNotCount | components/dashboard/DashboardSummary.tsx:34-35 | a record for another day, or one that is not 'Presente', leaves the count unchanged |
| DashboardSummary.PresentRecordCounts | components/dashboard/DashboardSummary.tsx:34-35 | a 'Presente' record dated today raises the count by one |
| Filters.FilteredPlayers | components/pages/Attendance.tsx:17-23 | the list holds exactly the players that pass both filters, where 'All' lets every player through |
| Filters.FilteredIsSubsequence | components/dashboard/AllAthletesTable.tsx:31-36 | the filtered players keep the order of the player list |
| Filters.AllShowsEveryone | components/pages/Attendance.tsx:12-23 | with both filters on 'All' (the starting state of the attendance page and the table), every player is shown in the original order |
| Filters.DisplayedCount | components/pages/Categories.tsx:59 | the heading's count is the number of players shown, which is at most the number of players |
| Filters.InitialCategoriesView | components/pages/Categories.tsx:9-16 | on opening, the categories page shows a player exactly when it is in Femenino at level Avanzado |
| Filters.FindRecord | components/pages/Attendance.tsx:26 | the search finds the first record of that player dated today, and finds nothing exactly when there is none |
| Filters.AttendanceStatusOf | components/pages/Attendance.tsx:25-28 | the status is 'Pending' exactly when no record exists for the player today; otherwise it is the first such record's status |
| Filters.RecordedNotPending | components/pages/Attendance.tsx:87-100 | a player with a record for today, an absence included, is not pending and gets no buttons, and the first such record decides the status shown |
| Filters.StatusAfterRecording | components/pages/Attendance.tsx:25-33 | once today's record is appended for a player who had none, that player shows the recorded status |
| Filters.AgeCell | components/dashboard/AllAthletesTable.tsx:8-18 | the cell shows 'N/A' without a birth date, and otherwise the completed years in decimal |
| Filters.AgeCellNA | components/dashboard/AllAthletesTable.tsx:8-9 | 'N/A' shows exactly when the birth date is empty |
| RegisterPlayer.ValidationError | components/pages/RegisterPlayer.tsx:63-70 | a blank personal field gives the personal-fields message; otherwise an empty category list gives the category message; otherwise there is no error |
| RegisterPlayer.InitialFormRejected | components/pages/RegisterPlayer.tsx:10-20 | the blank initial form is rejected for its personal fields |
| RegisterPlayer.StatInputNotClamped | components/pages/RegisterPlayer.tsx:56 | a typed whole number up to 2^53 becomes the stat exactly as typed; the handler does not clamp it to the input's 0-100 range |
| RegisterPlayer.NonNumericStatIsZero | components/pages/RegisterPlayer.tsx:56 | input that is not a number, the empty input included, gives 0 |
| RegisterPlayer.RegistrationForm.constructor | components/pages/RegisterPlayer.tsx:10-31 | the form opens blank with the default avatar, all stats at 5, not loading and with no error |
| RegisterPlayer.RegistrationForm.ToggleMainCategory | components/pages/RegisterPlayer.tsx:46-51 | the category is removed when selected and appended otherwise; the rest of the form is unchanged |
| RegisterPlayer.RegistrationForm.ChangeStat | components/pages/RegisterPlayer.tsx:54-57 | only the named stat changes, to the parsed input or 0 |
| RegisterPlayer.RegistrationForm.Submit | components/pages/RegisterPlayer.tsx:59-92 | a rejected form sends nothing and shows the message; otherwise the form goes out with one stats entry stamped now, then the page goes to the new profile or shows the failure message, and loading ends false |
| Coaches.CoachError | components/pages/coaches.tsx:47-50 | there is no error exactly when the first name, the last name and the document each trim to something non-empty; otherwise the fields-required message shows |
| Coaches.FailureText | components/pages/coaches.tsx:59 | the failure text is never empty, and is the thrown message whenever that message is non-empty |
| Coaches.SpacesRejected | components/pages/coaches.tsx:47 | a first name made only of spaces is rejected |
| Coaches.CoachRegistration.constructor | components/pages/coaches.tsx:9-22 | the form opens blank with the default avatar as its preview, not saving and with no error |
| Coaches.CoachRegistration.Submit | components/pages/coaches.tsx:43-64 | with a provider that supplies `createCoach`: an incomplete form sends nothing and shows the fields-required message; a complete one is sent, success resets the form and the preview, failure shows the error text, and saving ends false |
| Coaches.CreateCoachAlwaysFails | context/DataContext.tsx:6-19 | the data provider supplies neither `coaches` nor `createCoach`, which the coaches page reads (components/pages/coaches.tsx:17), so every call ends in the TypeError "createCoach is not a function", which is the text the page shows |
| Coaches.IntendedProviderCalls | components/pages/coaches.tsx:54 | with a provider that supplies `createCoach`, the outcome is that of the call itself |
| Coaches.CoachRegistration.SubmitAsWritten | components/pages/coaches.tsx:43-64 | against the provider as written, a complete form always ends in the TypeError's message, and the form and preview are never reset |
| Theme.HexToRgb | App.tsx:19-24 | a colour that parses always gives a non-empty channel string |
| Theme.HexToRgbOfToHex | App.tsx:19-24 | the `#rrggbb` notation of any colour, with or without the '#', becomes its three decimal channels separated by single spaces |
| Theme.FormatRgbReadsBack | App.tsx:22 | the channel string reads back: `parseInt` of it and of what follows each of its two spaces gives red, green and blue |
| Theme.AcceptedIff | App.tsx:20 | a colour is accepted exactly when it is six hexadecimal digits, with or without one leading '#' |
| Theme.ParseToHex | App.tsx:20-22 | reading back the `#rrggbb` notation of a colour, with or without the '#', gives that colour's three channels |
| Theme.ParseIgnoresCase | App.tsx:20 | upper-case and lower-case hexadecimal digits read the same |
| Theme.RejectedForms | App.tsx:20 | the three-digit shorthand, the eight-digit form with alpha, a doubled '#', a leading blank and a non-hex digit are all refused |
| Theme.DefaultPrimary | App.tsx:19-24 | the default primary colour `#DC2626` becomes "220 38 38" |
| Theme.FormatDefaultPrimary | App.tsx:22 | the channels 220, 38, 38 are written as "220 38 38" |
| Theme.ColorEntries | App.tsx:33-41 | seven custom properties are written, one per club colour |
| Theme.ColorEntriesDistinct | App.tsx:33-41 | the seven custom-property names are all different |
| Theme.Lookup | App.tsx:33-41 | a property has an entry exactly when some entry names it |
| Theme.AppliedSpec | App.tsx:43-47 | each listed property whose colour parses ends up holding that colour's channels, and every other property keeps its previous value |
| Theme.ApplyThemeColors | App.tsx:29-47 | the loop leaves the style as writing the seven entries in order while skipping unparsed colours |
| Theme.UnparsedColorKeepsPrevious | App.tsx:44-46 | a colour that does not parse leaves its property as it was: still set to the old value, or still unset |
| Sidebar.EffectiveRole | components/layout/Sidebar.tsx:37 | a coach is treated as an administrator, every other user type is kept, and a missing user type stays missing |
| Sidebar.VisibleLinks | components/layout/Sidebar.tsx:31-42 | the sidebar shows exactly the links of the table that pass its test |
| Sidebar.VisibleIsSubsequence | components/layout/Sidebar.tsx:32 | the visible links keep the table's order and add no link |
| Sidebar.TeamsHiddenWhenDisabled | components/layout/Sidebar.tsx:33-35 | with team creation switched off, no user sees a link to '/teams' |
| Sidebar.UnrestrictedVisible | components/layout/Sidebar.tsx:39 | a link without roles, other than '/teams', is shown to everyone, signed-out users included |
| Sidebar.RestrictedVisibleIff | components/layout/Sidebar.tsx:37-40 | a link with roles is shown exactly when the effective role is listed, and never without a user type |
| Sidebar.CoachSeesAdminLinks | components/layout/Sidebar.tsx:37 | a coach sees exactly the links an administrator sees |
| Sidebar.SettingsOnlyForSuperAdmin | constants.tsx:37-42 | the club-settings link is shown exactly to a super-administrator |
| Sidebar.TeamsLinkIffEnabled | components/layout/Sidebar.tsx:33-35 | the '/teams' link is shown exactly while team creation is enabled, whoever is signed in |
| Layout.FindPlayer | components/layout/Layout.tsx:44 | the player found is a loaded player whose id is the route's; none is found exactly when no loaded player has that id |
| Layout.ProfileTitle | components/layout/Layout.tsx:43-46 | on a profile page, the title names the player the route points at, or is the generic profile title when no such player is loaded |
| Layout.FixedPagesAreNotProfiles | components/layout/Layout.tsx:43-59 | no fixed page lies under '/player/', so the profile test never hides a fixed title |
| Layout.FixedPageTitles | components/layout/Layout.tsx:47-59 | the six fixed pages get their fixed titles, whatever the players and the club name |
| Layout.CoachesPageShowsClubName | components/layout/Layout.tsx:60-61 | the coaches page, which has no fixed title, shows the club name |
| Layout.PrefixOfFixedPageIsNotFixed | components/layout/Layout.tsx:43-61 | a path that only starts like a fixed page, or '/player' without the slash, shows the club name |
| Auth.LoginAnswer | services/api.ts:6-22 | the client gets a successful body exactly when the server accepts the credentials, carrying the server's role; otherwise the 401 error |
| Auth.AuthState.constructor | context/AuthContext.tsx:18-20 | the session starts signed out, with no user type and not loading |
| Auth.AuthState.Login | context/AuthContext.tsx:22-35 | a successful answer signs in with the server's role and yields true; an unsuccessful one yields false; an error is passed on; only success changes the session, and loading ends false |
| Auth.AuthState.Logout | context/AuthContext.tsx:37-40 | the user is signed out and the user type cleared, whatever the previous state |
| Auth.SignIn | context/AuthContext.tsx:22-35 | from the signed-out state, sign-in succeeds exactly for the server's credential pairs; both pairs open the admin pages and only the super-admin pair opens the settings page |
| Auth.LogoutTwice | context/AuthContext.tsx:37-40 | signing out twice leaves the same state as signing out once |
| Guards.AdminRoute | components/shared/adminRoute.tsx:10-18 | the page shows exactly for an authenticated admin or super-admin; every other case, a coach included, redirects to '/dashboard' |
| Guards.SuperAdminRoute | components/shared/SuperAdminRoute.tsx:9-17 | the page shows exactly for an authenticated super-admin; every other case redirects to '/dashboard' |
| Guards.SuperAdminImpliesAdmin | components/shared/SuperAdminRoute.tsx:12 | whoever passes the super-admin guard passes the admin guard, and an authenticated admin is the only user who passes just the admin guard |
| Base.Toggle | components/pages/RegisterPlayer.tsx:47-49 | the toggled value is selected afterwards exactly when it was not before; other values stay; a new value lengthens the list by one |
| Base.ToggleTwiceAbsent | components/pages/PlayerProfile.tsx:61-63 | ticking and then unticking a box gives back exactly the previous list |
| Base.ToggleTwiceSameMembers | components/pages/Teams.tsx:74-78 | toggling the same value twice restores the same set of selected values |
| Base.ToggleKeepsNoDuplicates | components/pages/Teams.tsx:74-78 | toggling never puts a value in the selection twice |
| Sorting.SortDesc | components/dashboard/TopAthletesList.tsx:41 | sorting yields a permutation of its input |
| Sorting.SortDescSorted | components/dashboard/TopAthletesList.tsx:41 | the result is in descending key order |
| Sorting.SortDescStable | components/dashboard/TopAthletesList.tsx:41 | the sort is stable, as `Array.prototype.sort` is: equal keys keep their input order |
| Sorting.SortHeadIsFirstMax | components/shared/PlayerCard.tsx:13 | the head of the sorted copy is the first element with the largest key |
| Calendar.NormaliseDay | components/pages/PlayerProfile.tsx:223-226 | a day that fits the month is kept; a day past the month's end runs on into the next month |
| Calendar.AddMonths | components/pages/PlayerProfile.tsx:223 | the date moves by whole calendar months and keeps its day when the day is at most 28, and the result is always a real date |
| Calendar.AddYears | components/pages/PlayerProfile.tsx:226 | every date but 29 February moves to the same day of the other year, and the result is always a real date |
| Text.BlankIffTrimEmpty | components/pages/coaches.tsx:47 | a field counts as blank exactly when trimming it leaves the empty string |
| Text.ParseIntOrZero | components/pages/RegisterPlayer.tsx:56 | input that is not a number gives 0, and a number is taken as parsed |

## Left out

- Network, database and timers: `services/api.ts` is reduced to the answer it hands back (a parameter, with `None` or `Err` for a failed call). Prisma and Express internals, CORS, body limits and `app.listen` are replaced by the in-memory `Server.ClubStore`. `context/ToastContext.tsx` and its `setTimeout`-driven notices are not modelled.
- Server read handlers: the GET routes for players, one player, a document lookup, a player's teams, teams, attendances and a player's attendances (backend/src/server.ts:94-121, 206-221, 237-251, 303-340, 367-385) only read the store and are not modelled. The player DELETE route and its cascade (backend/src/server.ts:197-205) are not modelled either; the client side of a delete is `DataContext.DataCache.DeletePlayer`.
- Generated ids: the database's generated ids are stood in for by a counter written in decimal, which is enough to prove that ids are fresh.
- Unique documents: a player's document is taken to be unique in the database schema, which is not part of this model. A clash on create or update is answered with a server error. A team's name is likewise taken to be a required column, as the `Team` type has it (types.ts:67), so a create without a name fails the same way.
- Coach sign-in: the login screen and the coaches page promise document-as-password sign-in for coaches, but the server's login table has no coach branch, so the model has none. `Coach` appears only as a user type that the sidebar and the guards must handle.
- Teams.Sections: the levels with teams are listed in display order and each level holds its teams, but sorting the teams inside a level by `localeCompare` on their names (components/pages/Teams.tsx:297) is not modelled, because locale collation has no exact definition here.
- Floating point: the one-decimal peer average (`toFixed(1)`, components/pages/PlayerProfile.tsx:250-261) is not modelled; `PlayerProfile.Peers` selects the peers only. The recharts series are not modelled.
- DashboardSummary.RoundedPercent: rounds the exact rational 100 · present / players. The source rounds a double, which can land just below a half (29 of 200 gives 14.499999999999998 and rounds to 14, where the model gives 15).
- Locale text: month labels and date labels (`toLocaleString`, `toLocaleDateString` in es-ES) are modelled by what they determine. `NewAthletes.MonthKey` is the month number and the year modulo 100; `Capitalize` upper-cases ASCII letters only.
- NewAthletes.WindowMembership: stated only for joins at most 99 years before today. Further back, a join month shares its two-digit-year key with a bucket and is counted in it. Join dates are stamped by the server at creation, so they cannot be that old.
- Time zones: "today" and "now" are explicit calendar parameters. The drift between `toISOString` (UTC) on the client and `setHours(0, 0, 0, 0)` (local time) on the server (components/pages/Attendance.tsx:15, backend/src/server.ts:344-345) is not modelled.
- PlayerProfile.Age: takes the birth date as a calendar date. `calculateAge` parses it with `new Date`, which reads a date-only string as midnight UTC, and then compares local year, month and day (components/pages/PlayerProfile.tsx:19-28, components/dashboard/AllAthletesTable.tsx:8-18). In a zone behind UTC the birth date reads as the day before, so the age goes up one day late. This shift is not modelled.
- Invalid input values: `new Date` of a malformed string (Invalid Date) is not modelled, because every date here is a valid calendar triple. A birth date is either absent (an empty field) or a valid date. The server turns an absent one into Invalid Date (backend/src/server.ts:136, 167), which the database refuses, so the model answers it with a server error.
- PlayerProfile.HandleStatChange: models the history as a value. The source copies the array but not its records, then writes the new stats into the shared record (components/pages/PlayerProfile.tsx:52-56). Because the form starts from the cached player (components/pages/PlayerProfile.tsx:31), the cached player's stats change too, even when the edit is cancelled. This sharing is not modelled.
- PlayerProfile.HandleStatChange: takes the already-parsed integer. The NaN that `parseInt` yields for non-numeric input in the profile form (components/pages/PlayerProfile.tsx:55) is not modelled. Stats are unbounded integers.
- Object keys: tournament names that collide with a property of `Object.prototype` (such as "constructor"), for which `acc[name]` is already set, are not modelled. The grouping is a map with no inherited keys.
- Server.Translate: the level and position tables are maps with no inherited keys. In the source, `subCategoryToPrisma["constructor"]` or `["__proto__"]` is a truthy inherited property, so the 400 check lets such a name through and the database write fails with a server error (backend/src/server.ts:126-131, 157-162, 256-259). The model answers 400 for these names in Server.ClubStore.CreatePlayer, Server.ClubStore.UpdatePlayer and Server.ClubStore.CreateTeam.
- Text.ParseIntOrZero: returns an unbounded integer. `parseInt` returns a double, which rounds whole numbers above 2^53 and gives `Infinity` for numerals of more than about 309 digits; `JSON.stringify` then sends `null`. RegisterPlayer.StatInputNotClamped is therefore stated only up to 2^53, and RegisterPlayer.RegistrationForm.ChangeStat and PlayerProfile.HandleStatChange keep the exact number.
- Browser form validation: the browser refuses to fire the submit event while a `required` field is empty or a number input is outside its `min`/`max` (components/pages/RegisterPlayer.tsx:114-130 and 172-184, components/pages/coaches.tsx:116-124, components/pages/Teams.tsx:126). The Submit methods start where `handleSubmit` starts, so for such a form they show the page's own message where the browser shows its own and calls nothing. A stat outside 0-100 is kept in the form but never sent.
- Server.NewestFirst: equal dates keep the stored order, because the sort is stable. The database's `orderBy: { date: 'desc' }` gives no order among equal dates. So the clause of Server.NewestFirstSpec that puts `h[LatestIndex(h)]` first holds in the source only when the newest date is unique; the order by date holds in every case.
- Coach list: `coaches` is `undefined` (see Findings), so `coaches.map` throws once loading ends (components/pages/coaches.tsx:83). The list is not modelled.
- File uploads: FileReader avatar uploads in the registration, coach and profile forms only copy a data URL into the form and are not modelled.
- Other pages and context: `components/pages/SuperAdmin.tsx`, `Login.tsx`, `Dashboard.tsx`, `index.tsx` and `components/ui/Card.tsx` hold layout and form state only. `context/ClubContext.tsx` is a fetch wrapper whose defaults are checked against the server's defaults by `Server.DefaultsAgree`.
- The document: `document.documentElement.style` is a map from custom-property names to values. The favicon update (App.tsx:49-53) and the `lucide.createIcons` effects are not modelled.
- Concurrency: simultaneous requests, and the order in which answers arrive, are not modelled. Each handler and each cache update runs to completion alone.

## Findings

| source | as written | input that shows it | evidently intended | confidence | as-written member | corrected member |
|---|---|---|---|---|---|---|
| components/pages/coaches.tsx:17 | the page takes `coaches` and `createCoach` from the data provider, which supplies neither (context/DataContext.tsx:6-19, 98); calling the `undefined` `createCoach` throws a TypeError, and the page shows its message | any complete coach form, such as first name "Ana", last name "Pérez", document "123" | the provider supplies the coach list and `createCoach`, so a complete form reaches the server and success resets the form | not executed | Coaches.CoachRegistration.SubmitAsWritten | Coaches.CoachRegistration.Submit |
