/** `getLatestStats`, written out identically in four client files: copy the
    history, sort the copy by date, newest first, and take the head's stats;
    an empty history gives all-zero stats. */
module StatsHistory {
  import opened Calendar
  import opened Sorting
  import opened Domain

  /** The history paired with each record's instant (`new Date(r.date).getTime()`). */
  function ByDate(h: seq<StatsRecord>): (r: seq<Keyed<StatsRecord>>)
    ensures |r| == |h|
    ensures forall i :: 0 <= i < |h| ==> r[i] == Keyed(h[i], Rank(h[i].date))
  {
    if h == [] then [] else [Keyed(h[0], Rank(h[0].date))] + ByDate(h[1..])
  }

  /** Position of the first record with the latest date: the record the sort
      puts first and the one `handleStatChange` edits. */
  function LatestIndex(h: seq<StatsRecord>): (i: nat)
    requires |h| > 0
    ensures i < |h|
    ensures forall j :: 0 <= j < |h| ==> Rank(h[j].date) <= Rank(h[i].date)
    ensures forall j :: 0 <= j < i ==> Rank(h[j].date) < Rank(h[i].date)
  {
    FirstMaxIndex(ByDate(h))
  }

  /** Both ensures clauses pin the record down: the first one of maximal date. */
  function LatestStats(h: seq<StatsRecord>): (r: PlayerStats)
    ensures h == [] ==> r == ZeroStats
    ensures h != [] ==> r == h[LatestIndex(h)].stats
  {
    if h == [] then ZeroStats
    else
      SortHeadIsFirstMax(ByDate(h));
      SortDesc(ByDate(h))[0].item.stats
  }

  /** The stats of the record with the latest date, for an explicit index `k`
      of a record whose date is strictly later than every other record's. */
  lemma LatestStatsOfUniqueMax(h: seq<StatsRecord>, k: nat)
    requires k < |h|
    requires forall j :: 0 <= j < |h| && j != k ==> Rank(h[j].date) < Rank(h[k].date)
    ensures LatestStats(h) == h[k].stats
  {
  }

  /** When no two records share a date, the order of the history does not
      matter: any rearrangement yields the same latest stats. */
  lemma LatestStatsOrderIndependent(h1: seq<StatsRecord>, h2: seq<StatsRecord>)
    requires multiset(h1) == multiset(h2)
    requires forall i, j :: 0 <= i < j < |h1| ==> Rank(h1[i].date) != Rank(h1[j].date)
    ensures LatestStats(h1) == LatestStats(h2)
  {
    if h1 != [] {
      assert |h2| == |h1| by {
        assert |multiset(h1)| == |h1| && |multiset(h2)| == |h2|;
      }
      var a := LatestIndex(h1);
      var b := LatestIndex(h2);
      assert h1[a] in multiset(h2);
      var a2 :| 0 <= a2 < |h2| && h2[a2] == h1[a];
      assert h2[b] in multiset(h1);
      var b1 :| 0 <= b1 < |h1| && h1[b1] == h2[b];
      assert Rank(h1[a].date) == Rank(h2[b].date);
      assert b1 == a;
    }
  }

  /** A player's total score: the sum of the stats `getLatestStats` picks. */
  function Score(p: Player): int
  {
    TotalScore(LatestStats(p.statsHistory))
  }

  function ByScore(players: seq<Player>): (r: seq<Keyed<Player>>)
    ensures |r| == |players|
    ensures forall i :: 0 <= i < |r| ==> r[i] == Keyed(players[i], Score(players[i]))
  {
    if players == [] then [] else [Keyed(players[0], Score(players[0]))] + ByScore(players[1..])
  }

  /** Ranking players by score keeps each one with its own score. */
  lemma RankedByScore(players: seq<Player>)
    ensures forall i :: 0 <= i < |SortDesc(ByScore(players))| ==>
              SortDesc(ByScore(players))[i].item in players
              && SortDesc(ByScore(players))[i].key == Score(SortDesc(ByScore(players))[i].item)
  {
    var keyed := ByScore(players);
    SortDescMembers(keyed);
    var r := SortDesc(keyed);
    forall i | 0 <= i < |r| ensures r[i].item in players && r[i].key == Score(r[i].item) {
      var k :| 0 <= k < |keyed| && keyed[k] == r[i];
    }
  }
}
