/** The dashboard's overdue-payments card: how many monthly fees a player owes,
    the list of players who owe something (largest debt first) and the expel
    action offered from three months of debt on. */
module OverduePayments {
  import opened Base
  import opened Calendar
  import opened Sorting
  import opened Domain

  /** `new Date(d.getFullYear(), d.getMonth() + 1, 1)` at midnight. */
  function FirstOfNextMonth(d: Date): (t: Moment)
    ensures t.ms == 0 && t.date.day == 1 && 1 <= t.date.month <= 12
    ensures MonthIndex(t.date.year, t.date.month) == MonthIndex(d.year, d.month) + 1
  {
    var next := MonthOfIndex(MonthIndex(d.year, d.month) + 1);
    Moment(Date(next.0, next.1, 1), 0)
  }

  /** Index of the first month whose fee is due and unpaid: the month after the
      last payment, or after the join month when nothing was ever paid. */
  function FirstUnpaidIndex(joinDate: Moment, lastPayment: Option<Moment>): int
  {
    match lastPayment
    case Some(p) => MonthIndex(p.date.year, p.date.month) + 1
    case None => MonthIndex(joinDate.date.year, joinDate.date.month) + 1
  }

  /** The integers from `a` through `b`. */
  function Interval(a: int, b: int): (r: set<int>)
    ensures forall k :: k in r <==> a <= k <= b
    decreases b - a
  {
    if a > b then {} else {a} + Interval(a + 1, b)
  }

  /** The months, by index, from the first unpaid one through today's month. */
  function UnpaidMonths(joinDate: Moment, lastPayment: Option<Moment>, today: Moment): set<int>
  {
    Interval(FirstUnpaidIndex(joinDate, lastPayment), MonthIndex(today.date.year, today.date.month))
  }

  lemma {:induction false} IntervalSize(a: int, b: int)
    ensures |Interval(a, b)| == if a <= b then b - a + 1 else 0
    decreases b - a
  {
    if a <= b {
      IntervalSize(a + 1, b);
      assert a !in Interval(a + 1, b);
    }
  }

  /** `calculateOverdueMonths`: the early exits come first, then the inclusive
      count of calendar months from the first unpaid one through today's. */
  function OverdueMonths(joinDate: Moment, lastPayment: Option<Moment>, today: Moment): (r: nat)
    ensures MomentBefore(today, joinDate) ==> r == 0
    ensures SameMonth(joinDate.date, today.date) ==> r == 0
    ensures lastPayment.Some? && SameMonth(lastPayment.value.date, today.date) ==> r == 0
    ensures (1 <= today.date.month <= 12
             && FirstUnpaidIndex(joinDate, lastPayment) > MonthIndex(today.date.year, today.date.month)) ==> r == 0
    ensures ValidMoment(today)
            && !MomentBefore(today, joinDate)
            && !SameMonth(joinDate.date, today.date)
            && !(lastPayment.Some? && SameMonth(lastPayment.value.date, today.date))
            ==> r == |UnpaidMonths(joinDate, lastPayment, today)|
  {
    var result :=
      if MomentBefore(today, joinDate) then 0
      else if SameMonth(joinDate.date, today.date) then 0
      else if lastPayment.Some? && SameMonth(lastPayment.value.date, today.date) then 0
      else
        var first := match lastPayment
                     case Some(p) => FirstOfNextMonth(p.date)
                     case None => FirstOfNextMonth(joinDate.date);
        if MomentBefore(today, first) then 0
        else
          var months := (today.date.year - first.date.year) * 12 + (today.date.month - first.date.month) + 1;
          if months > 0 then months else 0;
    var f := FirstUnpaidIndex(joinDate, lastPayment);
    var t := MonthIndex(today.date.year, today.date.month);
    IntervalSize(f, t);
    if f > t && 1 <= today.date.month <= 12 then
      var first := match lastPayment
                   case Some(p) => FirstOfNextMonth(p.date)
                   case None => FirstOfNextMonth(joinDate.date);
      LaterMonthIsLater(today, first);
      result
    else
      result
  }

  /** An instant in an earlier calendar month comes before the first of a later one. */
  lemma LaterMonthIsLater(today: Moment, first: Moment)
    requires 1 <= first.date.month <= 12 && 1 <= today.date.month <= 12
    requires MonthIndex(first.date.year, first.date.month) > MonthIndex(today.date.year, today.date.month)
    ensures MomentBefore(today, first)
  {
  }

  /** A player's debt. */
  function Debt(p: Player, today: Moment): nat
  {
    OverdueMonths(p.joinDate, p.lastPaymentDate, today)
  }

  /** `players.map(player => ({ player, debtInMonths }))`. */
  function WithDebts(players: seq<Player>, today: Moment): (r: seq<Keyed<Player>>)
    ensures |r| == |players|
    ensures forall i :: 0 <= i < |r| ==> r[i] == Keyed(players[i], Debt(players[i], today))
  {
    if players == [] then [] else [Keyed(players[0], Debt(players[0], today))] + WithDebts(players[1..], today)
  }

  predicate Owes(e: Keyed<Player>)
  {
    e.key > 0
  }

  /** `overduePlayers`: map, keep positive debts, stable sort by decreasing debt. */
  function OverdueList(players: seq<Player>, today: Moment): seq<Keyed<Player>>
  {
    SortDesc(Filter(WithDebts(players, today), Owes))
  }

  /** The list holds exactly the players with a positive debt, each with its debt,
      largest debt first. */
  lemma OverdueListSpec(players: seq<Player>, today: Moment)
    ensures var r := OverdueList(players, today);
            && SortedDesc(r)
            && (forall i :: 0 <= i < |r| ==> r[i].item in players && r[i].key == Debt(r[i].item, today) > 0)
            && (forall j :: 0 <= j < |players| && Debt(players[j], today) > 0 ==>
                  Keyed(players[j], Debt(players[j], today)) in r)
            && |r| == CountWhere(WithDebts(players, today), Owes)
  {
    SortDescSorted(Filter(WithDebts(players, today), Owes));
    OverdueListSound(players, today);
    OverdueListComplete(players, today);
  }

  lemma OverdueListSound(players: seq<Player>, today: Moment)
    ensures forall i :: 0 <= i < |OverdueList(players, today)| ==>
              OverdueList(players, today)[i].item in players
              && OverdueList(players, today)[i].key == Debt(OverdueList(players, today)[i].item, today) > 0
  {
    var w := WithDebts(players, today);
    var kept := Filter(w, Owes);
    var r := SortDesc(kept);
    SortDescMembers(kept);
    forall i | 0 <= i < |r| ensures r[i].item in players && r[i].key == Debt(r[i].item, today) > 0 {
      var k :| 0 <= k < |kept| && kept[k] == r[i];
      var j :| 0 <= j < |w| && w[j] == r[i];
    }
  }

  lemma OverdueListComplete(players: seq<Player>, today: Moment)
    ensures forall j :: 0 <= j < |players| && Debt(players[j], today) > 0 ==>
              Keyed(players[j], Debt(players[j], today)) in OverdueList(players, today)
  {
    var w := WithDebts(players, today);
    var kept := Filter(w, Owes);
    SortDescMembers(kept);
    forall j | 0 <= j < |players| && Debt(players[j], today) > 0
      ensures Keyed(players[j], Debt(players[j], today)) in OverdueList(players, today)
    {
      assert w[j] in kept;
      var k :| 0 <= k < |kept| && kept[k] == w[j];
    }
  }

  /** Players with the same debt appear in the order of the players list. */
  lemma OverdueListStable(players: seq<Player>, today: Moment, debt: int)
    ensures WithKey(OverdueList(players, today), debt) == WithKey(Filter(WithDebts(players, today), Owes), debt)
  {
    SortDescStable(Filter(WithDebts(players, today), Owes), debt);
  }

  /** The expel button is shown from three months of debt on. */
  predicate ExpelOffered(debtInMonths: int)
  {
    debtInMonths >= 3
  }

  /** `handleExpel`: the id handed to `deletePlayer`, only once the user confirmed. */
  function ExpelRequest(p: Player, confirmed: bool): (r: Option<Id>)
    ensures r.Some? <==> confirmed
    ensures r.Some? ==> r.value == p.id
  {
    if confirmed then Some(p.id) else None
  }

  /** Everyone on the list owes at least a month; only debts of three months
      or more can lead to a deletion. */
  lemma ExpelOnlyFromThreeMonths(players: seq<Player>, today: Moment, i: nat)
    requires i < |OverdueList(players, today)|
    requires Debt(OverdueList(players, today)[i].item, today) < 3
    ensures !ExpelOffered(OverdueList(players, today)[i].key)
  {
    OverdueListSpec(players, today);
  }

  /** Joined 2024-01-15, never paid, evaluated 2024-04-01: February, March and April are due. */
  lemma NeverPaidExample(joinMs: int, todayMs: int)
    requires 0 <= todayMs < MsPerDay
    ensures OverdueMonths(Moment(Date(2024, 1, 15), joinMs), None, Moment(Date(2024, 4, 1), todayMs)) == 3
  {
  }

  /** Last paid 2024-03-10, evaluated 2024-04-20: only April is due. */
  lemma PaidLastMonthExample(joinMs: int, payMs: int, todayMs: int)
    requires 0 <= todayMs < MsPerDay
    ensures OverdueMonths(Moment(Date(2024, 1, 15), joinMs), Some(Moment(Date(2024, 3, 10), payMs)),
                          Moment(Date(2024, 4, 20), todayMs)) == 1
  {
  }
}
