/** The client's cache of the three server lists and its loading flag. Every
    operation receives the server's answer as a parameter: `None` stands for a
    request that failed (the promise rejected), which leaves the lists as they
    were. */
module DataContext {
  import opened Base
  import opened Domain

  /** The names the data provider puts in its value, as `DataContextType`
      declares them. */
  const ProvidedNames: set<string> :=
    {"players", "teams", "attendances", "loading", "createTeam", "createPlayer", "recordAttendance",
     "updatePlayer", "updateTeam", "recordPlayerPayment", "deletePlayer", "refetchData"}

  /** Two records are for the same player and day. */
  predicate SameSlot(a: Attendance, b: Attendance)
  {
    a.playerId == b.playerId && a.date == b.date
  }

  /** No two records share a player and a day. */
  predicate UniqueSlots(s: seq<Attendance>)
  {
    forall i, j :: 0 <= i < j < |s| ==> !SameSlot(s[i], s[j])
  }

  /** `findIndex` on player and day: the first matching position, or -1. */
  function SlotIndex(s: seq<Attendance>, r: Attendance): (k: int)
    ensures -1 <= k < |s|
    ensures k == -1 <==> forall i :: 0 <= i < |s| ==> !SameSlot(s[i], r)
    ensures k >= 0 ==> SameSlot(s[k], r) && forall i :: 0 <= i < k ==> !SameSlot(s[i], r)
  {
    if s == [] then -1
    else if SameSlot(s[0], r) then 0
    else
      var k := SlotIndex(s[1..], r);
      if k == -1 then -1 else k + 1
  }

  /** The new attendance list: the matching slot is overwritten, otherwise the
      record is appended. */
  function Upsert(s: seq<Attendance>, r: Attendance): seq<Attendance>
  {
    var k := SlotIndex(s, r);
    if k > -1 then s[k := r] else s + [r]
  }

  /** The record is in the list afterwards; the length grows only when no slot
      matched; every other record stays where it was. */
  lemma UpsertSpec(s: seq<Attendance>, r: Attendance)
    ensures var t := Upsert(s, r);
            && r in t
            && (|t| == |s| <==> exists i :: 0 <= i < |s| && SameSlot(s[i], r))
            && (|t| == |s| + 1 <==> forall i :: 0 <= i < |s| ==> !SameSlot(s[i], r))
            && (forall i :: 0 <= i < |s| && !SameSlot(s[i], r) ==> t[i] == s[i])
  {
    var k := SlotIndex(s, r);
    if k > -1 {
      assert Upsert(s, r)[k] == r;
    } else {
      assert Upsert(s, r)[|s|] == r;
    }
  }

  /** Upserting keeps player-and-day slots unique. */
  lemma UpsertKeepsUniqueSlots(s: seq<Attendance>, r: Attendance)
    requires UniqueSlots(s)
    ensures UniqueSlots(Upsert(s, r))
  {
    var k := SlotIndex(s, r);
    var t := Upsert(s, r);
    if k > -1 {
      forall i, j | 0 <= i < j < |t| ensures !SameSlot(t[i], t[j]) {
        if i == k {
          assert !SameSlot(s[k], s[j]);
        } else if j == k {
          assert !SameSlot(s[i], s[k]);
        }
      }
    }
  }

  /** Recording the same slot twice is the same as recording the later one:
      one record, holding the later status. */
  lemma UpsertTwice(s: seq<Attendance>, r1: Attendance, r2: Attendance)
    requires SameSlot(r1, r2)
    ensures Upsert(Upsert(s, r1), r2) == Upsert(s, r2)
  {
    SlotIndexAgree(s, r1, r2);
    var k := SlotIndex(s, r1);
    var t := Upsert(s, r1);
    if k > -1 {
      assert t[k] == r1;
      assert forall i :: 0 <= i < k ==> t[i] == s[i];
      assert SlotIndex(t, r2) == k;
    } else {
      assert t[|s|] == r1;
      assert forall i :: 0 <= i < |s| ==> t[i] == s[i];
      assert SlotIndex(t, r2) == |s|;
      assert t[|s| := r2] == s + [r2];
    }
  }

  lemma {:induction false} SlotIndexAgree(s: seq<Attendance>, r1: Attendance, r2: Attendance)
    requires SameSlot(r1, r2)
    ensures SlotIndex(s, r1) == SlotIndex(s, r2)
    decreases |s|
  {
    if s != [] {
      SlotIndexAgree(s[1..], r1, r2);
    }
  }

  function PlayerId(p: Player): Id { p.id }

  function TeamId(t: Team): Id { t.id }

  /** `prev.map(x => x.id === updated.id ? updated : x)`, for players with
      `PlayerId` and for teams with `TeamId`. */
  function Replace<T(==)>(s: seq<T>, updated: T, id: T -> Id): (r: seq<T>)
    ensures |r| == |s|
    ensures forall i :: 0 <= i < |s| ==> r[i] == (if id(s[i]) == id(updated) then updated else s[i])
  {
    if s == [] then [] else [if id(s[0]) == id(updated) then updated else s[0]] + Replace(s[1..], updated, id)
  }

  /** Replacing twice with the same answer is the same as once. */
  lemma ReplaceIdempotent<T>(s: seq<T>, updated: T, id: T -> Id)
    ensures Replace(Replace(s, updated, id), updated, id) == Replace(s, updated, id)
  {
    var once := Replace(s, updated, id);
    var twice := Replace(once, updated, id);
    assert forall i :: 0 <= i < |s| ==> twice[i] == once[i];
  }

  /** A replaced list still holds the answer exactly where the old record
      with that id was. */
  lemma ReplaceFound<T>(s: seq<T>, updated: T, id: T -> Id, i: nat)
    requires i < |s| && id(s[i]) == id(updated)
    ensures Replace(s, updated, id)[i] == updated
    ensures updated in Replace(s, updated, id)
  {
  }

  /** The three lists the cache holds after a successful fetch. */
  datatype Snapshot = Snapshot(players: seq<Player>, teams: seq<Team>, attendances: seq<Attendance>)

  class DataCache {
    var players: seq<Player>
    var teams: seq<Team>
    var attendances: seq<Attendance>
    var loading: bool

    /** The provider starts empty and loading. */
    constructor()
      ensures players == [] && teams == [] && attendances == [] && loading
    {
      players := [];
      teams := [];
      attendances := [];
      loading := true;
    }

    /** `fetchData`: on success the lists are replaced, on failure they are
        kept; either way loading ends false. */
    method FetchData(answer: Option<Snapshot>)
      modifies this
      ensures !loading
      ensures answer.Some? ==> players == answer.value.players && teams == answer.value.teams
                               && attendances == answer.value.attendances
      ensures answer.None? ==> players == old(players) && teams == old(teams) && attendances == old(attendances)
    {
      loading := true;
      if answer.Some? {
        players := answer.value.players;
        teams := answer.value.teams;
        attendances := answer.value.attendances;
      }
      loading := false;
    }

    /** `createTeam`: the new team goes last. */
    method CreateTeam(answer: Option<Team>)
      modifies this
      ensures answer.Some? ==> teams == old(teams) + [answer.value]
      ensures answer.None? ==> teams == old(teams)
      ensures players == old(players) && attendances == old(attendances) && loading == old(loading)
    {
      if answer.Some? {
        teams := teams + [answer.value];
      }
    }

    /** `createPlayer`: the new player goes first. */
    method CreatePlayer(answer: Option<Player>)
      modifies this
      ensures answer.Some? ==> players == [answer.value] + old(players)
      ensures answer.None? ==> players == old(players)
      ensures teams == old(teams) && attendances == old(attendances) && loading == old(loading)
    {
      if answer.Some? {
        players := [answer.value] + players;
      }
    }

    /** The `findIndex` loop. */
    method FindSlot(r: Attendance) returns (k: int)
      ensures k == SlotIndex(attendances, r)
    {
      k := 0;
      while k < |attendances| && !SameSlot(attendances[k], r)
        invariant 0 <= k <= |attendances|
        invariant forall i :: 0 <= i < k ==> !SameSlot(attendances[i], r)
        invariant SlotIndex(attendances, r) == -1 || k <= SlotIndex(attendances, r)
      {
        k := k + 1;
      }
      if k == |attendances| {
        k := -1;
      }
    }

    /** `recordAttendance`: overwrites the matching slot of a copy, or appends. */
    method RecordAttendance(answer: Option<Attendance>)
      modifies this
      ensures answer.Some? ==> attendances == Upsert(old(attendances), answer.value)
      ensures answer.None? ==> attendances == old(attendances)
      ensures UniqueSlots(old(attendances)) ==> UniqueSlots(attendances)
      ensures players == old(players) && teams == old(teams) && loading == old(loading)
    {
      if answer.Some? {
        var r := answer.value;
        var k := FindSlot(r);
        if UniqueSlots(attendances) {
          UpsertKeepsUniqueSlots(attendances, r);
        }
        if k > -1 {
          attendances := attendances[k := r];
        } else {
          attendances := attendances + [r];
        }
      }
    }

    /** `updatePlayer` and `recordPlayerPayment`: the returned player replaces
        every record with its id. */
    method ReplacePlayerRecord(answer: Option<Player>)
      modifies this
      ensures answer.Some? ==> players == Replace(old(players), answer.value, PlayerId)
      ensures answer.None? ==> players == old(players)
      ensures teams == old(teams) && attendances == old(attendances) && loading == old(loading)
    {
      if answer.Some? {
        players := Replace(players, answer.value, PlayerId);
      }
    }

    /** `updateTeam`. */
    method ReplaceTeamRecord(answer: Option<Team>)
      modifies this
      ensures answer.Some? ==> teams == Replace(old(teams), answer.value, TeamId)
      ensures answer.None? ==> teams == old(teams)
      ensures players == old(players) && attendances == old(attendances) && loading == old(loading)
    {
      if answer.Some? {
        teams := Replace(teams, answer.value, TeamId);
      }
    }

    /** `deletePlayer`: when the delete succeeds all three lists are fetched
        again; when it fails nothing changes. */
    method DeletePlayer(deleted: bool, refetched: Option<Snapshot>)
      modifies this
      ensures deleted ==> !loading
      ensures deleted && refetched.Some? ==>
                players == refetched.value.players && teams == refetched.value.teams
                && attendances == refetched.value.attendances
      ensures !deleted || refetched.None? ==>
                players == old(players) && teams == old(teams) && attendances == old(attendances)
      ensures !deleted ==> loading == old(loading)
    {
      if deleted {
        FetchData(refetched);
      }
    }
  }
}
