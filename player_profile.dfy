/** The player profile page: age, payment status, the in-place stat edit of
    the newest stats record, the skill-development series and the peer group. */
module PlayerProfile {
  import opened Base
  import opened Calendar
  import opened Sorting
  import opened Domain
  import opened StatsHistory
  import opened OverduePayments

  // ------------------------------------------------------------------ age

  /** The `birth` anniversary in year `birth.year + k`, as a (year, month, day)
      triple compared lexicographically. */
  function Anniversary(birth: Date, k: int): Date
  {
    Date(birth.year + k, birth.month, birth.day)
  }

  /** Completed years: the year difference, one less while this year's
      (month, day) has not reached the birth (month, day). */
  function Age(birth: Date, today: Date): (r: int)
    ensures DateAtOrBefore(Anniversary(birth, r), today)
    ensures DateBefore(today, Anniversary(birth, r + 1))
  {
    var age := today.year - birth.year;
    var m := today.month - birth.month;
    if m < 0 || (m == 0 && today.day < birth.day) then age - 1 else age
  }

  /** Exactly one number of years satisfies both anniversary bounds. */
  lemma AgeUnique(birth: Date, today: Date, k: int)
    requires DateAtOrBefore(Anniversary(birth, k), today)
    requires DateBefore(today, Anniversary(birth, k + 1))
    ensures k == Age(birth, today)
  {
  }

  /** `calculateAge`: no age for an empty birth date. */
  function CalculateAge(birthDate: Option<Date>, today: Date): (r: Option<int>)
    ensures r.None? <==> birthDate.None?
    ensures r.Some? ==> r.value == Age(birthDate.value, today)
  {
    match birthDate
    case None => None
    case Some(b) => Some(Age(b, today))
  }

  /** Someone born on 2000-06-15 is 23 on 2024-06-14 and 24 on 2024-06-15. */
  lemma AgeExamples()
    ensures Age(Date(2000, 6, 15), Date(2024, 6, 14)) == 23
    ensures Age(Date(2000, 6, 15), Date(2024, 6, 15)) == 24
  {
  }

  // -------------------------------------------------------------- payment

  /** `isPaidUpToDate`: a payment exists and falls in today's month. */
  predicate IsPaidUpToDate(lastPayment: Option<Moment>, today: Moment)
  {
    lastPayment.Some? && SameMonth(lastPayment.value.date, today.date)
  }

  /** A player shown as paid up owes nothing on the overdue card. */
  lemma PaidUpOwesNothing(p: Player, today: Moment)
    requires IsPaidUpToDate(p.lastPaymentDate, today)
    ensures Debt(p, today) == 0
  {
  }

  /** A player who owes something is not shown as paid up. */
  lemma OwingIsNotPaidUp(p: Player, today: Moment)
    requires Debt(p, today) > 0
    ensures !IsPaidUpToDate(p.lastPaymentDate, today)
  {
    if IsPaidUpToDate(p.lastPaymentDate, today) {
      PaidUpOwesNothing(p, today);
    }
  }

  // ---------------------------------------------------------- stat change

  /** An index that is a maximum of the dates and the first one is `LatestIndex`. */
  lemma LatestIndexUnique(h: seq<StatsRecord>, b: nat)
    requires b < |h|
    requires forall j :: 0 <= j < |h| ==> Rank(h[j].date) <= Rank(h[b].date)
    requires forall j :: 0 <= j < b ==> Rank(h[j].date) < Rank(h[b].date)
    ensures b == LatestIndex(h)
  {
  }

  /** The history after setting one stat of the record at `k`. */
  function WithRecordStat(h: seq<StatsRecord>, k: nat, which: Stat, value: int): (r: seq<StatsRecord>)
    requires k < |h|
    ensures |r| == |h|
  {
    h[k := h[k].(stats := WithStat(h[k].stats, which, value))]
  }

  /** `handleStatChange`: `indexOf(Math.max(...times))` finds the first record
      with the latest date, whose stats get the new value; an empty history
      fails (the index is -1 and the write throws) and changes nothing. */
  method HandleStatChange(history: array<StatsRecord>, which: Stat, value: int) returns (ok: bool)
    modifies history
    ensures ok <==> history.Length > 0
    ensures !ok ==> history[..] == old(history[..])
    ensures ok ==> history[..] == WithRecordStat(old(history[..]), LatestIndex(old(history[..])), which, value)
  {
    if history.Length == 0 {
      return false;
    }
    var best := 0;
    var i := 1;
    while i < history.Length
      invariant 1 <= i <= history.Length && 0 <= best < i
      invariant forall j :: 0 <= j < i ==> Rank(history[j].date) <= Rank(history[best].date)
      invariant forall j :: 0 <= j < best ==> Rank(history[j].date) < Rank(history[best].date)
    {
      if Rank(history[i].date) > Rank(history[best].date) {
        best := i;
      }
      i := i + 1;
    }
    LatestIndexUnique(history[..], best);
    var record := history[best];
    history[best] := record.(stats := WithStat(record.stats, which, value));
    ok := true;
  }

  /** The edit lands in the stats the profile shows as latest: the same record
      stays latest, only the named stat of it changes, every other record is
      untouched. */
  lemma StatChangeEditsLatest(h: seq<StatsRecord>, which: Stat, value: int)
    requires h != []
    ensures LatestIndex(WithRecordStat(h, LatestIndex(h), which, value)) == LatestIndex(h)
    ensures LatestStats(WithRecordStat(h, LatestIndex(h), which, value)) == WithStat(LatestStats(h), which, value)
  {
    var k := LatestIndex(h);
    var h2 := WithRecordStat(h, k, which, value);
    assert forall j :: 0 <= j < |h| ==> h2[j].date == h[j].date;
    LatestIndexUnique(h2, k);
  }

  // -------------------------------------------------------- skill series

  datatype DateRange = Quarterly | Semiannually | Yearly

  /** The first instant of the chart's window: `now` moved back 6 months,
      1 year, or (the default) 3 months, with JavaScript's day overflow. */
  function WindowStart(range: DateRange, now: Moment): (t: Moment)
    requires ValidDate(now.date)
    ensures t.ms == now.ms && ValidDate(t.date)
    ensures now.date.day <= 28 && range != Yearly ==>
              MonthIndex(t.date.year, t.date.month)
              == MonthIndex(now.date.year, now.date.month) - (if range == Semiannually then 6 else 3)
    ensures range == Yearly && !(now.date.month == 2 && now.date.day == 29) ==>
              t.date == Date(now.date.year - 1, now.date.month, now.date.day)
  {
    match range
    case Semiannually => Moment(AddMonths(now.date, -6), now.ms)
    case Yearly => Moment(AddYears(now.date, -1), now.ms)
    case Quarterly => Moment(AddMonths(now.date, -3), now.ms)
  }

  /** The history paired with the negated instant, so that the descending sort
      orders it oldest first. */
  function ByDateAscending(h: seq<StatsRecord>): (r: seq<Keyed<StatsRecord>>)
    ensures |r| == |h|
    ensures forall i :: 0 <= i < |h| ==> r[i] == Keyed(h[i], -Rank(h[i].date))
  {
    if h == [] then [] else [Keyed(h[0], -Rank(h[0].date))] + ByDateAscending(h[1..])
  }

  function OldestFirst(h: seq<StatsRecord>): (r: seq<StatsRecord>)
    ensures |r| == |h|
  {
    Items(SortDesc(ByDateAscending(h)))
  }

  /** `skillDevelopmentData` before the labels: the history oldest first,
      keeping the records dated on or after the window start. */
  function SkillSeries(h: seq<StatsRecord>, range: DateRange, now: Moment): seq<StatsRecord>
    requires ValidDate(now.date)
  {
    var start := WindowStart(range, now);
    Filter(OldestFirst(h), (r: StatsRecord) => Rank(r.date) >= Rank(start))
  }

  lemma OldestFirstSorted(h: seq<StatsRecord>)
    ensures var r := OldestFirst(h);
            forall i, j :: 0 <= i < j < |r| ==> Rank(r[i].date) <= Rank(r[j].date)
  {
    var keyed := ByDateAscending(h);
    var sorted := SortDesc(keyed);
    SortDescSorted(keyed);
    SortDescMembers(keyed);
    assert forall i :: 0 <= i < |sorted| ==> sorted[i].key == -Rank(sorted[i].item.date) by {
      forall i | 0 <= i < |sorted| ensures sorted[i].key == -Rank(sorted[i].item.date) {
        var k :| 0 <= k < |keyed| && keyed[k] == sorted[i];
      }
    }
  }

  lemma OldestFirstMembers(h: seq<StatsRecord>)
    ensures var r := OldestFirst(h);
            && (forall i :: 0 <= i < |r| ==> r[i] in h)
            && (forall j :: 0 <= j < |h| ==> h[j] in r)
  {
    var keyed := ByDateAscending(h);
    var sorted := SortDesc(keyed);
    var r := OldestFirst(h);
    SortDescMembers(keyed);
    forall i | 0 <= i < |r| ensures r[i] in h {
      var k :| 0 <= k < |keyed| && keyed[k] == sorted[i];
    }
    forall j | 0 <= j < |h| ensures h[j] in r {
      var i :| 0 <= i < |sorted| && sorted[i] == keyed[j];
      assert r[i] == h[j];
    }
  }

  /** The series is in date order, holds only records of the window, and holds
      every record of the window. */
  lemma SkillSeriesSpec(h: seq<StatsRecord>, range: DateRange, now: Moment)
    requires ValidDate(now.date)
    ensures var r := SkillSeries(h, range, now);
            var start := WindowStart(range, now);
            && (forall i, j :: 0 <= i < j < |r| ==> Rank(r[i].date) <= Rank(r[j].date))
            && (forall i :: 0 <= i < |r| ==> r[i] in h && Rank(r[i].date) >= Rank(start))
            && (forall j :: 0 <= j < |h| && Rank(h[j].date) >= Rank(start) ==> h[j] in r)
  {
    var start := WindowStart(range, now);
    var sorted := OldestFirst(h);
    OldestFirstSorted(h);
    OldestFirstMembers(h);
    var p := (x: StatsRecord) => Rank(x.date) >= Rank(start);
    FilterIsSubsequence(sorted, p);
    SubsequenceKeepsOrder(Filter(sorted, p), sorted);
  }

  /** A subsequence of a date-ordered sequence is date-ordered. */
  lemma {:induction false} SubsequenceKeepsOrder(a: seq<StatsRecord>, b: seq<StatsRecord>)
    requires IsSubsequence(a, b)
    requires forall i, j :: 0 <= i < j < |b| ==> Rank(b[i].date) <= Rank(b[j].date)
    ensures forall i, j :: 0 <= i < j < |a| ==> Rank(a[i].date) <= Rank(a[j].date)
    decreases |b|
  {
    if a != [] && b != [] {
      if a[0] == b[0] {
        SubsequenceKeepsOrder(a[1..], b[1..]);
        SubsequenceMembers(a[1..], b[1..]);
        forall j | 0 < j < |a| ensures Rank(a[0].date) <= Rank(a[j].date) {
          assert a[j] == a[1..][j - 1];
          var k :| 0 <= k < |b[1..]| && b[1..][k] == a[j];
          assert b[k + 1] == a[j];
        }
      } else {
        SubsequenceKeepsOrder(a, b[1..]);
      }
    }
  }

  lemma {:induction false} SubsequenceMembers<T>(a: seq<T>, b: seq<T>)
    requires IsSubsequence(a, b)
    ensures forall i :: 0 <= i < |a| ==> a[i] in b
    decreases |b|
  {
    if a != [] && b != [] {
      if a[0] == b[0] {
        SubsequenceMembers(a[1..], b[1..]);
        forall i | 0 < i < |a| ensures a[i] in b {
          assert a[i] == a[1..][i - 1];
        }
      } else {
        SubsequenceMembers(a, b[1..]);
      }
    }
  }

  // ---------------------------------------------------------------- peers

  /** The other players with the same position; the comparison chart is shown
      only when there is at least one. */
  function Peers(players: seq<Player>, player: Player): (r: seq<Player>)
    ensures forall i :: 0 <= i < |r| ==> r[i] in players && r[i].position == player.position && r[i].id != player.id
    ensures forall j :: 0 <= j < |players| && players[j].position == player.position && players[j].id != player.id
                        ==> players[j] in r
    ensures player !in r
  {
    Filter(players, (p: Player) => p.position == player.position && p.id != player.id)
  }
}
