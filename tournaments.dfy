/** The dashboard's tournament overview: the teams grouped by the tournament
    they play, listed in the key order of a JavaScript object. */
module Tournaments {
  import opened Base
  import opened Text
  import opened Sorting
  import opened Domain

  /** `if (team.tournament)`: a tournament that is present and non-empty. */
  predicate InSomeTournament(t: Team)
  {
    t.tournament.Some? && t.tournament.value != ""
  }

  /** The teams of tournament `name`, in input order. */
  function Group(teams: seq<Team>, name: string): seq<Team>
  {
    Filter(teams, (t: Team) => t.tournament == Some(name))
  }

  /** The tournament of every team that has one, in input order, repeats kept. */
  function Tournaments(teams: seq<Team>): (r: seq<string>)
    ensures forall i :: 0 <= i < |r| ==> r[i] != ""
    ensures forall t :: t in teams && InSomeTournament(t) ==> t.tournament.value in r
  {
    if teams == [] then []
    else
      var init := teams[..|teams| - 1];
      var t := teams[|teams| - 1];
      assert forall u :: u in teams ==> u in init || u == t;
      assert forall u :: u in init ==> u in teams;
      Tournaments(init) + (if InSomeTournament(t) then [t.tournament.value] else [])
  }

  lemma TournamentsSnoc(teams: seq<Team>, t: Team)
    ensures Tournaments(teams + [t]) == Tournaments(teams) + (if InSomeTournament(t) then [t.tournament.value] else [])
  {
    assert (teams + [t])[..|teams|] == teams;
  }

  lemma GroupSnoc(teams: seq<Team>, t: Team)
    ensures forall n :: Group(teams + [t], n) == Group(teams, n) + (if t.tournament == Some(n) then [t] else [])
  {
    forall n ensures Group(teams + [t], n) == Group(teams, n) + (if t.tournament == Some(n) then [t] else []) {
      FilterAppend(teams, [t], (u: Team) => u.tournament == Some(n));
    }
  }

  /** The state of the `reduce` after the teams of `prefix`. */
  ghost predicate Grouped(prefix: seq<Team>, groups: map<string, seq<Team>>, names: seq<string>)
  {
    && names == Dedup(Tournaments(prefix))
    && (forall n :: n in groups <==> n in names)
    && (forall n :: n in groups ==> n != "" && groups[n] == Group(prefix, n))
  }

  /** A team without a tournament leaves the grouping as it is. */
  lemma GroupedSkip(prefix: seq<Team>, t: Team, groups: map<string, seq<Team>>, names: seq<string>)
    requires Grouped(prefix, groups, names) && !InSomeTournament(t)
    ensures Grouped(prefix + [t], groups, names)
  {
    GroupSnoc(prefix, t);
    TournamentsSnoc(prefix, t);
    assert Tournaments(prefix + [t]) == Tournaments(prefix);
  }

  /** A tournament nobody has seen yet has no teams. */
  lemma GroupOfUnseen(prefix: seq<Team>, n: string)
    requires n != "" && n !in Tournaments(prefix)
    ensures Group(prefix, n) == []
  {
    if Group(prefix, n) != [] {
      var u := Group(prefix, n)[0];
    }
  }

  /** The push step's new state, `created` being the map once the list exists. */
  ghost predicate Pushed(t: Team, groups: map<string, seq<Team>>, names: seq<string>,
                         groups': map<string, seq<Team>>, names': seq<string>)
    requires InSomeTournament(t)
  {
    var n := t.tournament.value;
    var created := if n in groups then groups else groups[n := []];
    groups' == created[n := created[n] + [t]] && names' == if n in groups then names else names + [n]
  }

  lemma PushedKeys(prefix: seq<Team>, t: Team, groups: map<string, seq<Team>>, names: seq<string>,
                   groups': map<string, seq<Team>>, names': seq<string>)
    requires Grouped(prefix, groups, names) && InSomeTournament(t)
    requires Pushed(t, groups, names, groups', names')
    ensures names' == Dedup(Tournaments(prefix + [t]))
    ensures forall m :: m in groups' <==> m in names'
  {
    TournamentsSnoc(prefix, t);
    DedupSnoc(Tournaments(prefix), t.tournament.value);
  }

  lemma PushedGroups(prefix: seq<Team>, t: Team, groups: map<string, seq<Team>>, names: seq<string>,
                     groups': map<string, seq<Team>>, names': seq<string>)
    requires Grouped(prefix, groups, names) && InSomeTournament(t)
    requires Pushed(t, groups, names, groups', names')
    ensures forall m :: m in groups' ==> m != "" && groups'[m] == Group(prefix + [t], m)
  {
    var n := t.tournament.value;
    GroupSnoc(prefix, t);
    if n !in groups {
      assert n !in Tournaments(prefix);
      GroupOfUnseen(prefix, n);
    }
    assert groups'[n] == Group(prefix + [t], n);
  }

  /** A team with a tournament is pushed onto that tournament's list, created
      empty (and its name recorded) when the name is new. */
  lemma GroupedPush(prefix: seq<Team>, t: Team, groups: map<string, seq<Team>>, names: seq<string>,
                    groups': map<string, seq<Team>>, names': seq<string>)
    requires Grouped(prefix, groups, names) && InSomeTournament(t)
    requires Pushed(t, groups, names, groups', names')
    ensures Grouped(prefix + [t], groups', names')
  {
    PushedKeys(prefix, t, groups, names, groups', names');
    PushedGroups(prefix, t, groups, names, groups', names');
  }

  /** The `reduce` callback: a team with a tournament is pushed onto the list
      under that name, created on first sight; any other team is skipped. */
  method AddTeam(t: Team, groups: map<string, seq<Team>>, names: seq<string>)
    returns (groups': map<string, seq<Team>>, names': seq<string>)
    ensures InSomeTournament(t) ==> Pushed(t, groups, names, groups', names')
    ensures !InSomeTournament(t) ==> groups' == groups && names' == names
  {
    groups', names' := groups, names;
    if t.tournament.Some? && t.tournament.value != "" {
      var name := t.tournament.value;
      if name !in groups' {
        groups' := groups'[name := []];
        names' := names' + [name];
      }
      groups' := groups'[name := groups'[name] + [t]];
    }
  }

  /** `tournaments`: the `reduce` over the teams, from an empty object. `names`
      is the order in which the object acquires its keys. */
  method GroupByTournament(teams: seq<Team>) returns (groups: map<string, seq<Team>>, names: seq<string>)
    ensures names == Dedup(Tournaments(teams))
    ensures forall n :: n in groups <==> n in names
    ensures forall n :: n in groups ==> groups[n] == Group(teams, n)
  {
    groups := map[];
    names := [];
    var j := 0;
    while j < |teams|
      invariant 0 <= j <= |teams|
      invariant Grouped(teams[..j], groups, names)
    {
      var t := teams[j];
      assert teams[..j + 1] == teams[..j] + [t];
      ghost var groups0, names0 := groups, names;
      groups, names := AddTeam(t, groups, names);
      if InSomeTournament(t) {
        GroupedPush(teams[..j], t, groups0, names0, groups, names);
      } else {
        GroupedSkip(teams[..j], t, groups, names);
      }
      j := j + 1;
    }
    assert teams[..j] == teams;
  }

  /** Teams without a tournament, or with an empty one, are in no group. */
  lemma NoTournamentNoGroup(teams: seq<Team>, t: Team, n: string)
    requires !InSomeTournament(t)
    requires n in Dedup(Tournaments(teams))
    ensures t !in Group(teams, n)
  {
  }

  /** A team with a tournament is in the group of that tournament, whose name
      is among the keys. */
  lemma TeamInItsGroup(teams: seq<Team>, t: Team)
    requires t in teams && InSomeTournament(t)
    ensures t.tournament.value in Dedup(Tournaments(teams))
    ensures t in Group(teams, t.tournament.value)
  {
  }

  function SumGroups(names: seq<string>, teams: seq<Team>): nat
  {
    if names == [] then 0 else |Group(teams, names[0])| + SumGroups(names[1..], teams)
  }

  function NameMatches(names: seq<string>, t: Team): nat
  {
    if names == [] then 0 else (if t.tournament == Some(names[0]) then 1 else 0) + NameMatches(names[1..], t)
  }

  lemma {:induction false} NameMatchesDistinct(names: seq<string>, t: Team)
    requires NoDuplicates(names)
    ensures NameMatches(names, t) == if t.tournament.Some? && t.tournament.value in names then 1 else 0
    decreases |names|
  {
    if names != [] {
      assert NoDuplicates(names[1..]) by {
        forall a, b | 0 <= a < b < |names[1..]| ensures names[1..][a] != names[1..][b] {
          assert names[a + 1] != names[b + 1];
        }
      }
      NameMatchesDistinct(names[1..], t);
      if t.tournament == Some(names[0]) {
        assert names[0] !in names[1..];
      }
    }
  }

  lemma {:induction false} SumGroupsSnoc(names: seq<string>, teams: seq<Team>, t: Team)
    ensures SumGroups(names, teams + [t]) == SumGroups(names, teams) + NameMatches(names, t)
    decreases |names|
  {
    if names != [] {
      SumGroupsSnoc(names[1..], teams, t);
      FilterAppend(teams, [t], (u: Team) => u.tournament == Some(names[0]));
    }
  }

  /** Every team with a tournament lands in exactly one group: with distinct,
      non-empty names covering all tournaments, the group sizes add up to the
      number of such teams. */
  lemma {:induction false} GroupsPartition(names: seq<string>, teams: seq<Team>)
    requires NoDuplicates(names)
    requires forall i :: 0 <= i < |names| ==> names[i] != ""
    requires forall t :: t in teams && InSomeTournament(t) ==> t.tournament.value in names
    ensures SumGroups(names, teams) == CountWhere(teams, InSomeTournament)
    decreases |teams|
  {
    if teams == [] {
      SumGroupsEmpty(names);
    } else {
      var init := teams[..|teams| - 1];
      var t := teams[|teams| - 1];
      assert teams == init + [t];
      GroupsPartition(names, init);
      SumGroupsSnoc(names, init, t);
      NameMatchesDistinct(names, t);
      FilterAppend(init, [t], InSomeTournament);
    }
  }

  lemma {:induction false} SumGroupsEmpty(names: seq<string>)
    ensures SumGroups(names, []) == 0
    decreases |names|
  {
    if names != [] {
      SumGroupsEmpty(names[1..]);
    }
  }

  /** The grouping of the overview partitions its teams with a tournament. */
  lemma OverviewPartition(teams: seq<Team>)
    ensures SumGroups(Dedup(Tournaments(teams)), teams) == CountWhere(teams, InSomeTournament)
  {
    GroupsPartition(Dedup(Tournaments(teams)), teams);
  }

  // ---------------------------------------------------------- key order

  /** A key JavaScript treats as an array index: the canonical decimal form of
      a number below 2^32 - 1. */
  predicate IsIndexKey(s: string)
  {
    AllDigits(s) && Dec(ParseDec(s)) == s && ParseDec(s) < 0xFFFF_FFFF
  }

  /** The index keys paired with their negated values, so that the descending
      sort lists them in ascending numeric order. */
  function ByIndexAscending(s: seq<string>): (r: seq<Keyed<string>>)
    requires forall i :: 0 <= i < |s| ==> AllDigits(s[i])
    ensures |r| == |s|
    ensures forall i :: 0 <= i < |s| ==> r[i] == Keyed(s[i], -(ParseDec(s[i]) as int))
  {
    if s == [] then [] else [Keyed(s[0], -(ParseDec(s[0]) as int))] + ByIndexAscending(s[1..])
  }

  function IndexKeys(names: seq<string>): (r: seq<string>)
  {
    var idx := Filter(names, IsIndexKey);
    Items(SortDesc(ByIndexAscending(idx)))
  }

  /** `Object.keys` of the grouping: index keys first in ascending numeric
      order, then the other keys in the order they were added. */
  function ObjectKeys(names: seq<string>): seq<string>
  {
    IndexKeys(names) + Filter(names, (s: string) => !IsIndexKey(s))
  }

  lemma IndexKeysMembers(names: seq<string>)
    ensures var r := IndexKeys(names);
            && (forall i :: 0 <= i < |r| ==> r[i] in names && IsIndexKey(r[i]))
            && (forall j :: 0 <= j < |names| && IsIndexKey(names[j]) ==> names[j] in r)
  {
    var idx := Filter(names, IsIndexKey);
    var keyed := ByIndexAscending(idx);
    assert Items(keyed) == idx;
    SortDescItems(keyed);
  }

  /** Every pair carries its own name's negated value as key. */
  ghost predicate KeyedByValue(s: seq<Keyed<string>>)
  {
    forall i :: 0 <= i < |s| ==> AllDigits(s[i].item) && s[i].key == -(ParseDec(s[i].item) as int)
  }

  /** Pairs drawn from a keyed-by-value sequence are keyed by value. */
  lemma KeyedByValueMembers(s: seq<Keyed<string>>, from: seq<Keyed<string>>)
    requires KeyedByValue(from)
    requires forall i :: 0 <= i < |s| ==> s[i] in from
    ensures KeyedByValue(s)
  {
    forall i | 0 <= i < |s|
      ensures AllDigits(s[i].item) && s[i].key == -(ParseDec(s[i].item) as int)
    {
      var k :| 0 <= k < |from| && from[k] == s[i];
    }
  }

  /** The index pairs keep that property through the sort. */
  lemma SortedKeyedByValue(names: seq<string>)
    ensures KeyedByValue(SortDesc(ByIndexAscending(Filter(names, IsIndexKey))))
  {
    var keyed := ByIndexAscending(Filter(names, IsIndexKey));
    assert KeyedByValue(keyed);
    SortDescMembers(keyed);
    KeyedByValueMembers(SortDesc(keyed), keyed);
  }

  /** Sorted by negated value, the names come in ascending numeric order. */
  lemma ItemsAscending(s: seq<Keyed<string>>)
    requires KeyedByValue(s) && SortedDesc(s)
    ensures forall i :: 0 <= i < |s| ==> AllDigits(Items(s)[i])
    ensures forall i, j :: 0 <= i < j < |s| ==> ParseDec(Items(s)[i]) <= ParseDec(Items(s)[j])
  {
  }

  lemma IndexKeysAscending(names: seq<string>)
    ensures var r := IndexKeys(names);
            && (forall i :: 0 <= i < |r| ==> AllDigits(r[i]))
            && (forall i, j :: 0 <= i < j < |r| ==> ParseDec(r[i]) <= ParseDec(r[j]))
  {
    var keyed := ByIndexAscending(Filter(names, IsIndexKey));
    SortDescSorted(keyed);
    SortedKeyedByValue(names);
    ItemsAscending(SortDesc(keyed));
  }

  /** When the key is a function of the name, distinct pairs have distinct
      names. */
  lemma ItemsDistinct(s: seq<Keyed<string>>)
    requires KeyedByValue(s) && NoDuplicates(s)
    ensures NoDuplicates(Items(s))
  {
    forall i, j | 0 <= i < j < |s| ensures Items(s)[i] != Items(s)[j] {
      assert s[i] != s[j];
    }
  }

  /** Distinct names give distinct index keys. */
  lemma IndexKeysDistinct(names: seq<string>)
    requires NoDuplicates(names)
    ensures NoDuplicates(IndexKeys(names))
  {
    var idx := Filter(names, IsIndexKey);
    var keyed := ByIndexAscending(idx);
    var sorted := SortDesc(keyed);
    FilterNoDuplicates(names, IsIndexKey);
    assert NoDuplicates(keyed);
    PermutationKeepsNoDuplicates(keyed, sorted);
    SortedKeyedByValue(names);
    ItemsDistinct(sorted);
  }

  /** The listed names are exactly the keys. */
  lemma ObjectKeysMembers(names: seq<string>)
    ensures forall i :: 0 <= i < |ObjectKeys(names)| ==> ObjectKeys(names)[i] in names
    ensures forall j :: 0 <= j < |names| ==> names[j] in ObjectKeys(names)
  {
    IndexKeysMembers(names);
  }

  /** The index keys come first, the others after them in the order they
      were added. */
  lemma ObjectKeysLayout(names: seq<string>)
    ensures var r := ObjectKeys(names);
            var k := |IndexKeys(names)|;
            && (forall i :: 0 <= i < |r| ==> (IsIndexKey(r[i]) <==> i < k))
            && r[k..] == Filter(names, (s: string) => !IsIndexKey(s))
  {
    IndexKeysMembers(names);
  }

  /** With distinct names, the index keys are listed in strictly ascending
      numeric order. */
  lemma IndexKeysStrictlyAscending(names: seq<string>)
    requires NoDuplicates(names)
    ensures var r := IndexKeys(names);
            && (forall i :: 0 <= i < |r| ==> AllDigits(r[i]))
            && (forall i, j :: 0 <= i < j < |r| ==> ParseDec(r[i]) < ParseDec(r[j]))
  {
    var r := IndexKeys(names);
    IndexKeysMembers(names);
    IndexKeysAscending(names);
    IndexKeysDistinct(names);
    forall i, j | 0 <= i < j < |r| ensures ParseDec(r[i]) < ParseDec(r[j]) {
      IndexKeyValueInjective(r[i], r[j]);
    }
  }

  /** Distinct index keys stand for distinct numbers. */
  lemma IndexKeyValueInjective(a: string, b: string)
    requires IsIndexKey(a) && IsIndexKey(b) && a != b
    ensures ParseDec(a) != ParseDec(b)
  {
  }

  /** Every listed tournament is the tournament of some team. */
  lemma {:induction false} TournamentOfSomeTeam(teams: seq<Team>, n: string)
    requires n in Tournaments(teams)
    ensures exists t :: t in teams && t.tournament == Some(n)
    decreases |teams|
  {
    var init := teams[..|teams| - 1];
    var t := teams[|teams| - 1];
    if n in Tournaments(init) {
      TournamentOfSomeTeam(init, n);
      var u :| u in init && u.tournament == Some(n);
      assert u in teams;
    } else {
      assert t.tournament == Some(n);
    }
  }

  /** Without number-like tournament names the keys come in first-occurrence order. */
  lemma ObjectKeysInsertionOrder(names: seq<string>)
    requires forall i :: 0 <= i < |names| ==> !IsIndexKey(names[i])
    ensures ObjectKeys(names) == names
  {
    FilterAll(names, (s: string) => !IsIndexKey(s));
  }

  /** `tournamentNames` for a list of teams. */
  function TournamentNames(teams: seq<Team>): seq<string>
  {
    ObjectKeys(Dedup(Tournaments(teams)))
  }

  /** The empty-state card shows iff no team plays a tournament. */
  lemma EmptyStateIffNoTournament(teams: seq<Team>)
    ensures TournamentNames(teams) == [] <==> forall t :: t in teams ==> !InSomeTournament(t)
  {
    var names := Dedup(Tournaments(teams));
    ObjectKeysMembers(names);
    if TournamentNames(teams) != [] {
      var n := TournamentNames(teams)[0];
      assert n in names;
      TournamentOfSomeTeam(teams, n);
      var t :| t in teams && t.tournament == Some(n);
      assert InSomeTournament(t);
    } else {
      assert names == [];
    }
  }
}
