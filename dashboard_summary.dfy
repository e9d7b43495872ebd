/** The dashboard's three summary figures: players, teams and today's
    attendance rate. */
module DashboardSummary {
  import opened Base
  import opened Calendar
  import opened Domain

  /** `Math.round(100 * present / players)` on exact rationals: the nearest
      integer, halves rounded up. */
  function RoundedPercent(present: nat, players: nat): (r: nat)
    requires players > 0
    ensures 2 * r * players - players <= 200 * present < 2 * r * players + players
    ensures present <= players ==> r <= 100
  {
    (200 * present + players) / (2 * players)
  }

  /** The rate: 0 without players, otherwise the rounded percentage. */
  function AttendanceRate(present: nat, players: nat): (r: nat)
    ensures players == 0 ==> r == 0
    ensures players > 0 ==> 2 * r * players - players <= 200 * present < 2 * r * players + players
  {
    if players > 0 then RoundedPercent(present, players) else 0
  }

  /** Two integers whose rounding windows for the same value overlap are equal. */
  lemma WindowsDisjoint(a: int, r: int, q: int, n: nat)
    requires n > 0
    requires 2 * r * n - n <= a < 2 * r * n + n
    requires 2 * q * n - n <= a < 2 * q * n + n
    ensures r == q
  {
    assert 2 * (r - q) * n == 2 * r * n - 2 * q * n;
    BelowOne(r - q, n);
    BelowOne(q - r, n);
  }

  lemma BelowOne(k: int, n: nat)
    requires n > 0 && k * n < n
    ensures k < 1
  {
  }

  /** The rounding bounds single out one integer. */
  lemma RateUnique(present: nat, players: nat, r: int)
    requires players > 0
    requires 2 * r * players - players <= 200 * present < 2 * r * players + players
    ensures r == AttendanceRate(present, players)
  {
    WindowsDisjoint(200 * present, r, AttendanceRate(present, players), players);
  }

  /** More players present never lowers the rate. */
  lemma RateMonotone(p1: nat, p2: nat, players: nat)
    requires p1 <= p2
    ensures AttendanceRate(p1, players) <= AttendanceRate(p2, players)
  {
    if players > 0 {
      var r1, r2 := AttendanceRate(p1, players), AttendanceRate(p2, players);
      assert 2 * (r1 - r2) * players == 2 * r1 * players - 2 * r2 * players;
      BelowOne(r1 - r2, players);
    }
  }

  lemma RateExamples()
    ensures AttendanceRate(1, 3) == 33 && AttendanceRate(2, 3) == 67
    ensures AttendanceRate(1, 200) == 1 && AttendanceRate(10, 10) == 100
  {
  }

  /** A record counts as present: dated today and marked 'Presente'. */
  predicate PresentToday(a: Attendance, today: Date)
  {
    a.date == today && a.status == Presente
  }

  function PresentCount(attendances: seq<Attendance>, today: Date): (n: nat)
    ensures n <= |attendances|
  {
    CountWhere(attendances, (a: Attendance) => PresentToday(a, today))
  }

  /** While loading, every figure is the placeholder '...'. */
  datatype Summary = Loading | Figures(totalPlayers: nat, totalTeams: nat, attendanceRate: nat)

  /** `summaryData`. */
  function SummaryData(loading: bool, players: seq<Player>, teams: seq<Team>,
                       attendances: seq<Attendance>, today: Date): (r: Summary)
    ensures loading <==> r == Loading
    ensures !loading ==> r.totalPlayers == |players| && r.totalTeams == |teams|
    ensures !loading ==> r.attendanceRate == AttendanceRate(PresentCount(attendances, today), |players|)
  {
    if loading then Loading
    else Figures(|players|, |teams|, AttendanceRate(PresentCount(attendances, today), |players|))
  }

  /** Only today's 'Presente' records count: adding a record for another day,
      or an absence, leaves the rate unchanged. */
  lemma OtherRecordsDoNotCount(attendances: seq<Attendance>, a: Attendance, today: Date)
    requires !PresentToday(a, today)
    ensures PresentCount(attendances + [a], today) == PresentCount(attendances, today)
  {
    FilterAppend(attendances, [a], (x: Attendance) => PresentToday(x, today));
  }

  /** A present record of today raises the count by one. */
  lemma PresentRecordCounts(attendances: seq<Attendance>, a: Attendance, today: Date)
    requires PresentToday(a, today)
    ensures PresentCount(attendances + [a], today) == PresentCount(attendances, today) + 1
  {
    FilterAppend(attendances, [a], (x: Attendance) => PresentToday(x, today));
  }
}
