/** The dashboard's five best athletes by total score of their latest stats. */
module TopAthletes {
  import opened Base
  import opened Sorting
  import opened Domain
  import opened StatsHistory

  const ListSize: nat := 5

  /** `topAthletes`: every player paired with its total score, sorted by that
      score, highest first (stable), cut to the first five. */
  function TopAthletes(players: seq<Player>): (r: seq<Keyed<Player>>)
    ensures |r| == if |players| < ListSize then |players| else ListSize
    ensures players == [] ==> r == []
  {
    Take(SortDesc(ByScore(players)), ListSize)
  }

  /** The list is ordered by score and each entry carries its player's score. */
  lemma TopAthletesSorted(players: seq<Player>)
    ensures var r := TopAthletes(players);
            && (forall i, j :: 0 <= i < j < |r| ==> r[i].key >= r[j].key)
            && (forall i :: 0 <= i < |r| ==> r[i].item in players && r[i].key == Score(r[i].item))
  {
    var keyed := ByScore(players);
    var sorted := SortDesc(keyed);
    SortDescSorted(keyed);
    SortDescMembers(keyed);
    var r := TopAthletes(players);
    forall i | 0 <= i < |r| ensures r[i].item in players && r[i].key == Score(r[i].item) {
      assert r[i] == sorted[i];
      var k :| 0 <= k < |keyed| && keyed[k] == sorted[i];
    }
  }

  /** A player left off the list scores no more than anyone on it. */
  lemma OmittedScoreNoHigher(players: seq<Player>, p: Player)
    requires p in players
    requires forall i :: 0 <= i < |TopAthletes(players)| ==> TopAthletes(players)[i].item != p
    ensures forall i :: 0 <= i < |TopAthletes(players)| ==> Score(p) <= TopAthletes(players)[i].key
  {
    var keyed := ByScore(players);
    var sorted := SortDesc(keyed);
    var r := TopAthletes(players);
    SortDescSorted(keyed);
    SortDescMembers(keyed);
    var j :| 0 <= j < |players| && players[j] == p;
    assert keyed[j] in sorted;
    assert keyed[j] !in r by {
      forall i | 0 <= i < |r| ensures r[i] != keyed[j] {
        assert r[i].item != p;
      }
    }
    SortedTakeDominates(sorted, |r|, keyed[j]);
  }

  /** Ties keep the input order: the listed players of any one score are the
      first players of that score, in the order they came. */
  lemma TopAthletesStable(players: seq<Player>, score: int)
    ensures var listed := WithKey(TopAthletes(players), score);
            var all := WithKey(ByScore(players), score);
            |listed| <= |all| && listed == all[..|listed|]
  {
    var sorted := SortDesc(ByScore(players));
    SortDescStable(ByScore(players), score);
    WithKeyTake(sorted, |TopAthletes(players)|, score);
  }
}
