/** The dashboard's "new athletes" chart: joins per month over the last twelve
    calendar months, counted by a month key that keeps two year digits. */
module NewAthletes {
  import opened Base
  import opened Calendar
  import opened Text
  import opened Domain

  /** The locale month key (`month: 'short', year: '2-digit'`) up to its
      spelling: the month number and the year modulo 100. */
  datatype MonthKey = MonthKey(month: int, yy: int)

  const Buckets: nat := 12

  function KeyOfIndex(i: int): MonthKey
  {
    var (y, m) := MonthOfIndex(i);
    MonthKey(m, y % 100)
  }

  /** The key of a calendar day. */
  function KeyOf(d: Date): (k: MonthKey)
    ensures 1 <= d.month <= 12 ==> k == KeyOfIndex(MonthIndex(d.year, d.month))
  {
    if 1 <= d.month <= 12 then
      MonthIndexInjective(d.year, d.month, MonthOfIndex(MonthIndex(d.year, d.month)).0,
                          MonthOfIndex(MonthIndex(d.year, d.month)).1);
      MonthKey(d.month, d.year % 100)
    else MonthKey(d.month, d.year % 100)
  }

  /** Bucket `b` (0 the oldest, 11 today's month) is the month `11 - b` months
      before today's: `new Date(year, month - i, 1)` with month rollover. */
  function BucketKey(today: Date, b: int): MonthKey
  {
    KeyOfIndex(MonthIndex(today.year, today.month) - (Buckets - 1 - b))
  }

  /** How many players joined in a month with key `k`; counted from the end so
      that the loop over the players extends it one player at a time. */
  function JoinCount(players: seq<Player>, k: MonthKey): (n: nat)
    ensures n <= |players|
  {
    if players == [] then 0
    else JoinCount(players[..|players| - 1], k)
         + (if KeyOf(players[|players| - 1].joinDate.date) == k then 1 else 0)
  }

  /** `chartData`: set up twelve zero buckets oldest first, then walk the
      players and bump the bucket whose key matches the join date, if any. */
  method ChartData(players: seq<Player>, today: Date) returns (keys: seq<MonthKey>, counts: seq<nat>)
    ensures |keys| == Buckets && |counts| == Buckets
    ensures forall b :: 0 <= b < Buckets ==> keys[b] == BucketKey(today, b)
    ensures forall b :: 0 <= b < Buckets ==> counts[b] == JoinCount(players, keys[b])
  {
    var monthly: map<MonthKey, nat> := map[];
    keys := [];
    var i := Buckets as int - 1;
    while i >= 0
      invariant -1 <= i < Buckets
      invariant |keys| == Buckets - 1 - i
      invariant forall b :: 0 <= b < |keys| ==> keys[b] == BucketKey(today, b)
      invariant forall k :: k in monthly <==> k in keys
      invariant forall k :: k in monthly ==> monthly[k] == 0
    {
      var key := KeyOfIndex(MonthIndex(today.year, today.month) - i);
      keys := keys + [key];
      monthly := monthly[key := 0];
      i := i - 1;
    }
    var j := 0;
    while j < |players|
      invariant 0 <= j <= |players|
      invariant forall k :: k in monthly <==> k in keys
      invariant forall k :: k in monthly ==> monthly[k] == JoinCount(players[..j], k)
    {
      assert players[..j + 1][..j] == players[..j];
      var key := KeyOf(players[j].joinDate.date);
      if key in monthly {
        monthly := monthly[key := monthly[key] + 1];
      }
      j := j + 1;
    }
    assert players[..j] == players;
    counts := seq(|keys|, b requires 0 <= b < |keys| => monthly[keys[b]]);
  }

  /** The twelve bucket keys, oldest first. */
  function BucketKeys(today: Date): (r: seq<MonthKey>)
    ensures |r| == Buckets
    ensures forall b :: 0 <= b < Buckets ==> r[b] == BucketKey(today, b)
  {
    seq(Buckets, b requires 0 <= b < Buckets => BucketKey(today, b))
  }

  /** Two indices up to eleven months apart have different month numbers. */
  lemma KeysOfNearIndicesDiffer(i: int, j: int)
    requires i < j <= i + 11
    ensures KeyOfIndex(i) != KeyOfIndex(j)
  {
    assert KeyOfIndex(i).month == i % 12 + 1 && KeyOfIndex(j).month == j % 12 + 1;
  }

  /** The twelve buckets are distinct and the newest is today's month. */
  lemma BucketKeysSpec(today: Date)
    requires 1 <= today.month <= 12
    ensures NoDuplicates(BucketKeys(today))
    ensures BucketKeys(today)[Buckets - 1] == KeyOf(today)
  {
    var r := BucketKeys(today);
    var t := MonthIndex(today.year, today.month);
    forall a, b | 0 <= a < b < |r| ensures r[a] != r[b] {
      assert r[a] == KeyOfIndex(t - 11 + a) && r[b] == KeyOfIndex(t - 11 + b);
      KeysOfNearIndicesDiffer(t - 11 + a, t - 11 + b);
    }
    assert r[Buckets - 1] == KeyOfIndex(t);
  }

  /** A non-zero remainder-100 shift of fewer than 100 changes the remainder. */
  lemma ShiftChangesCentury(q: int, k: int)
    requires 0 < k < 100
    ensures (q + k) % 100 != q % 100
  {
    var r := q % 100;
    assert q == 100 * (q / 100) + r;
    if r + k < 100 {
      assert q + k == 100 * (q / 100) + (r + k);
      assert (q + k) % 100 == r + k;
    } else {
      assert q + k == 100 * (q / 100 + 1) + (r + k - 100);
      assert (q + k) % 100 == r + k - 100;
    }
  }

  /** Two month indices less than 100 years apart share a key only when equal. */
  lemma KeyOfIndexInjectiveWithinCentury(i: int, j: int)
    requires j <= i < j + 1200
    requires KeyOfIndex(i) == KeyOfIndex(j)
    ensures i == j
  {
    var qi, qj := i / 12, j / 12;
    assert i == 12 * qi + i % 12 && j == 12 * qj + j % 12;
    assert i % 12 == j % 12;
    assert i - j == 12 * (qi - qj);
    if qi != qj {
      ShiftChangesCentury(qj, qi - qj);
    }
  }

  /** A player who joined at most 99 years before today's month, and not
      later, is counted iff the join falls in the twelve-month window. */
  lemma WindowMembership(today: Date, join: Date)
    requires 1 <= today.month <= 12 && 1 <= join.month <= 12
    requires MonthIndex(today.year, today.month) - 1188 <= MonthIndex(join.year, join.month)
                <= MonthIndex(today.year, today.month)
    ensures KeyOf(join) in BucketKeys(today)
            <==> MonthIndex(join.year, join.month) >= MonthIndex(today.year, today.month) - (Buckets - 1)
  {
    var t := MonthIndex(today.year, today.month);
    var jx := MonthIndex(join.year, join.month);
    var r := BucketKeys(today);
    if jx >= t - (Buckets - 1) {
      assert r[jx - t + Buckets - 1] == KeyOf(join);
    } else if KeyOf(join) in r {
      var b :| 0 <= b < |r| && r[b] == KeyOf(join);
      KeyOfIndexInjectiveWithinCentury(t - (Buckets - 1 - b), jx);
    }
  }

  function Sum(s: seq<nat>): nat
  {
    if s == [] then 0 else s[0] + Sum(s[1..])
  }

  /** The counts for a list of keys. */
  function CountsOf(keys: seq<MonthKey>, players: seq<Player>): (r: seq<nat>)
    ensures |r| == |keys| && forall b :: 0 <= b < |keys| ==> r[b] == JoinCount(players, keys[b])
  {
    seq(|keys|, b requires 0 <= b < |keys| => JoinCount(players, keys[b]))
  }

  function Matches(keys: seq<MonthKey>, k: MonthKey): nat
  {
    if keys == [] then 0 else (if keys[0] == k then 1 else 0) + Matches(keys[1..], k)
  }

  lemma {:induction false} MatchesDistinct(keys: seq<MonthKey>, k: MonthKey)
    requires NoDuplicates(keys)
    ensures Matches(keys, k) == if k in keys then 1 else 0
    decreases |keys|
  {
    if keys != [] {
      assert NoDuplicates(keys[1..]) by {
        forall a, b | 0 <= a < b < |keys[1..]| ensures keys[1..][a] != keys[1..][b] {
          assert keys[a + 1] != keys[b + 1];
        }
      }
      MatchesDistinct(keys[1..], k);
      if keys[0] == k {
        assert forall b :: 0 <= b < |keys[1..]| ==> keys[1..][b] == keys[b + 1];
      }
    }
  }

  /** Adding one player raises the bucket total by the number of buckets
      whose key is the player's. */
  lemma {:induction false} SumCountsSnoc(keys: seq<MonthKey>, players: seq<Player>, p: Player)
    ensures Sum(CountsOf(keys, players + [p])) == Sum(CountsOf(keys, players)) + Matches(keys, KeyOf(p.joinDate.date))
    decreases |keys|
  {
    assert (players + [p])[..|players|] == players;
    if keys != [] {
      SumCountsSnoc(keys[1..], players, p);
      assert CountsOf(keys, players + [p])[1..] == CountsOf(keys[1..], players + [p]);
      assert CountsOf(keys, players)[1..] == CountsOf(keys[1..], players);
    }
  }

  /** The players a key list counts. */
  function CountedPlayers(keys: seq<MonthKey>, players: seq<Player>): nat
  {
    if players == [] then 0
    else CountedPlayers(keys, players[..|players| - 1])
         + (if KeyOf(players[|players| - 1].joinDate.date) in keys then 1 else 0)
  }

  /** With distinct keys, each counted player adds exactly one to exactly one
      bucket: the buckets sum to the players whose join key is one of them. */
  lemma {:induction false} BucketsSum(keys: seq<MonthKey>, players: seq<Player>)
    requires NoDuplicates(keys)
    ensures Sum(CountsOf(keys, players)) == CountedPlayers(keys, players)
    decreases |players|
  {
    if players == [] {
      ZeroCounts(keys);
    } else {
      var init := players[..|players| - 1];
      var p := players[|players| - 1];
      assert players == init + [p];
      BucketsSum(keys, init);
      SumCountsSnoc(keys, init, p);
      MatchesDistinct(keys, KeyOf(p.joinDate.date));
    }
  }

  lemma {:induction false} ZeroCounts(keys: seq<MonthKey>)
    ensures Sum(CountsOf(keys, [])) == 0
    decreases |keys|
  {
    if keys != [] {
      ZeroCounts(keys[1..]);
      assert CountsOf(keys, [])[1..] == CountsOf(keys[1..], []);
    }
  }

  /** The chart's bars add up to the number of players it counts. */
  lemma ChartSum(players: seq<Player>, today: Date)
    requires 1 <= today.month <= 12
    ensures Sum(CountsOf(BucketKeys(today), players)) == CountedPlayers(BucketKeys(today), players)
  {
    BucketKeysSpec(today);
    BucketsSum(BucketKeys(today), players);
  }

  /** A bar's label: the key with its first character upper-cased. */
  function Capitalize(s: string): (r: string)
    ensures |r| == |s|
    ensures s != [] ==> r[0] == ToUpperChar(s[0]) && r[1..] == s[1..]
  {
    if s == [] then s else [ToUpperChar(s[0])] + s[1..]
  }

  /** Capitalizing a label a second time changes nothing. */
  lemma CapitalizeIdempotent(s: string)
    ensures Capitalize(Capitalize(s)) == Capitalize(s)
  {
  }
}
