/** The stable sort that the ECMAScript specification requires of
    `Array.prototype.sort`, applied with a comparator of the form
    `(a, b) => key(b) - key(a)`: elements are ordered by non-increasing key and
    elements with equal keys keep their input order. Every sort in the modelled
    code has this shape (an ascending sort is the same with negated keys). */
module Sorting {

  /** An element paired with the integer its comparator looks at. */
  datatype Keyed<T> = Keyed(item: T, key: int)

  ghost predicate SortedDesc<T>(s: seq<Keyed<T>>)
  {
    forall i, j :: 0 <= i < j < |s| ==> s[i].key >= s[j].key
  }

  /** The elements of `s` whose key is `k`, in order. */
  function WithKey<T>(s: seq<Keyed<T>>, k: int): seq<Keyed<T>>
  {
    if s == [] then []
    else if s[0].key == k then [s[0]] + WithKey(s[1..], k)
    else WithKey(s[1..], k)
  }

  function Items<T>(s: seq<Keyed<T>>): (r: seq<T>)
    ensures |r| == |s|
    ensures forall i :: 0 <= i < |s| ==> r[i] == s[i].item
  {
    if s == [] then [] else [s[0].item] + Items(s[1..])
  }

  /** Places `x` in front of the first element whose key does not exceed its own. */
  function Insert<T>(x: Keyed<T>, s: seq<Keyed<T>>): (r: seq<Keyed<T>>)
    ensures |r| == |s| + 1
    ensures multiset(r) == multiset(s) + multiset{x}
  {
    if s == [] then [x]
    else if s[0].key <= x.key then [x] + s
    else
      assert s == [s[0]] + s[1..];
      [s[0]] + Insert(x, s[1..])
  }

  function SortDesc<T>(s: seq<Keyed<T>>): (r: seq<Keyed<T>>)
    ensures |r| == |s|
    ensures multiset(r) == multiset(s)
  {
    if s == [] then []
    else
      assert s == [s[0]] + s[1..];
      Insert(s[0], SortDesc(s[1..]))
  }

  /** Sorting neither adds nor drops elements. */
  lemma SortDescMembers<T>(s: seq<Keyed<T>>)
    ensures forall i :: 0 <= i < |SortDesc(s)| ==> SortDesc(s)[i] in s
    ensures forall j :: 0 <= j < |s| ==> s[j] in SortDesc(s)
  {
    var r := SortDesc(s);
    forall i | 0 <= i < |r| ensures r[i] in s {
      assert r[i] in multiset(r);
    }
    forall j | 0 <= j < |s| ensures s[j] in r {
      assert s[j] in multiset(s);
    }
  }

  lemma {:induction false} InsertSorted<T>(x: Keyed<T>, s: seq<Keyed<T>>)
    requires SortedDesc(s)
    ensures SortedDesc(Insert(x, s))
    decreases |s|
  {
    if s != [] && s[0].key > x.key {
      InsertSorted(x, s[1..]);
      var r := Insert(x, s);
      var t := Insert(x, s[1..]);
      assert r == [s[0]] + t;
      forall j | 0 <= j < |t| ensures s[0].key >= t[j].key {
        assert t[j] in multiset(t);
        assert t[j] in multiset(s[1..]) + multiset{x};
        if t[j] in multiset(s[1..]) {
          var p :| 0 <= p < |s[1..]| && s[1..][p] == t[j];
          assert s[p + 1] == t[j];
        }
      }
    }
  }

  /** The result of the sort is ordered by non-increasing key. */
  lemma {:induction false} SortDescSorted<T>(s: seq<Keyed<T>>)
    ensures SortedDesc(SortDesc(s))
    decreases |s|
  {
    if s != [] {
      SortDescSorted(s[1..]);
      InsertSorted(s[0], SortDesc(s[1..]));
    }
  }

  /** The sort keeps the items: each sorted item is an input item and back. */
  lemma SortDescItems<T>(s: seq<Keyed<T>>)
    ensures forall i :: 0 <= i < |s| ==> Items(SortDesc(s))[i] in Items(s)
    ensures forall j :: 0 <= j < |s| ==> Items(s)[j] in Items(SortDesc(s))
  {
    var r := SortDesc(s);
    SortDescMembers(s);
    forall i | 0 <= i < |s| ensures Items(r)[i] in Items(s) {
      var k :| 0 <= k < |s| && s[k] == r[i];
      assert Items(s)[k] == Items(r)[i];
    }
    forall j | 0 <= j < |s| ensures Items(s)[j] in Items(r) {
      var k :| 0 <= k < |r| && r[k] == s[j];
      assert Items(r)[k] == Items(s)[j];
    }
  }

  lemma WithKeyCons<T>(h: Keyed<T>, t: seq<Keyed<T>>, k: int)
    ensures WithKey([h] + t, k) == (if h.key == k then [h] else []) + WithKey(t, k)
  {
    assert ([h] + t)[1..] == t;
  }

  lemma {:induction false} InsertWithKey<T>(x: Keyed<T>, s: seq<Keyed<T>>, k: int)
    ensures WithKey(Insert(x, s), k) == (if x.key == k then [x] else []) + WithKey(s, k)
    decreases |s|
  {
    if s == [] {
    } else if s[0].key <= x.key {
      WithKeyCons(x, s, k);
    } else {
      var rest := Insert(x, s[1..]);
      assert Insert(x, s) == [s[0]] + rest;
      InsertWithKey(x, s[1..], k);
      WithKeyCons(s[0], rest, k);
      assert s == [s[0]] + s[1..];
      WithKeyCons(s[0], s[1..], k);
    }
  }

  /** Stability: among the elements that share a key, the sort keeps the input order. */
  lemma {:induction false} SortDescStable<T>(s: seq<Keyed<T>>, k: int)
    ensures WithKey(SortDesc(s), k) == WithKey(s, k)
    decreases |s|
  {
    if s != [] {
      SortDescStable(s[1..], k);
      InsertWithKey(s[0], SortDesc(s[1..]), k);
    }
  }

  /** Index of the first element with the largest key. */
  function FirstMaxIndex<T>(s: seq<Keyed<T>>): (r: nat)
    requires |s| > 0
    ensures r < |s|
    ensures forall i :: 0 <= i < |s| ==> s[i].key <= s[r].key
    ensures forall i :: 0 <= i < r ==> s[i].key < s[r].key
  {
    if |s| == 1 then 0
    else
      var j := FirstMaxIndex(s[1..]);
      if s[0].key >= s[1..][j].key then 0 else j + 1
  }

  lemma {:induction false} WithKeyHead<T>(s: seq<Keyed<T>>, j: nat, k: int)
    requires j < |s| && s[j].key == k
    requires forall i :: 0 <= i < j ==> s[i].key != k
    ensures WithKey(s, k) != [] && WithKey(s, k)[0] == s[j]
    decreases j
  {
    if j > 0 {
      WithKeyHead(s[1..], j - 1, k);
    }
  }

  /** The head of the sorted sequence is the first element of maximal key. */
  lemma SortHeadIsFirstMax<T>(s: seq<Keyed<T>>)
    requires |s| > 0
    ensures SortDesc(s)[0] == s[FirstMaxIndex(s)]
  {
    var r := SortDesc(s);
    var m := FirstMaxIndex(s);
    var k := s[m].key;
    assert r[0].key <= k by {
      assert r[0] in multiset(s);
    }
    assert r[0].key >= k by {
      SortDescSorted(s);
      assert s[m] in multiset(r);
    }
    assert WithKey(r, k)[0] == r[0] by {
      WithKeyHead(r, 0, k);
    }
    assert WithKey(s, k)[0] == s[m] by {
      WithKeyHead(s, m, k);
    }
    SortDescStable(s, k);
  }

  /** No element left out of the first `n` positions outranks one kept. */
  lemma SortedPrefixDominates<T>(s: seq<Keyed<T>>, n: nat, i: nat, j: nat)
    requires SortedDesc(s)
    requires i < n && n <= j < |s|
    ensures s[j].key <= s[i].key
  {
  }

  lemma {:induction false} WithKeyAllSame<T>(s: seq<Keyed<T>>, k: int)
    requires forall i :: 0 <= i < |s| ==> s[i].key == k
    ensures WithKey(s, k) == s
    decreases |s|
  {
    if s != [] {
      WithKeyAllSame(s[1..], k);
    }
  }

  /** With all keys equal the sort returns its input unchanged. */
  lemma SortDescAllSame<T>(s: seq<Keyed<T>>, k: int)
    requires forall i :: 0 <= i < |s| ==> s[i].key == k
    ensures SortDesc(s) == s
  {
    var r := SortDesc(s);
    forall i | 0 <= i < |r| ensures r[i].key == k {
      assert r[i] in multiset(s);
    }
    WithKeyAllSame(s, k);
    WithKeyAllSame(r, k);
    SortDescStable(s, k);
  }

  /** Cutting a sequence short keeps, for every key, a prefix of the elements
      with that key. */
  lemma {:induction false} WithKeyTake<T>(s: seq<Keyed<T>>, n: nat, k: int)
    requires n <= |s|
    ensures |WithKey(s[..n], k)| <= |WithKey(s, k)|
    ensures WithKey(s[..n], k) == WithKey(s, k)[..|WithKey(s[..n], k)|]
    decreases n
  {
    if n > 0 {
      WithKeyTake(s[1..], n - 1, k);
      assert s[..n][1..] == s[1..][..n - 1];
    }
  }

  /** Whatever a descending sequence holds beyond its first `n` elements has a
      key no larger than any of those `n`. */
  lemma SortedTakeDominates<T>(s: seq<Keyed<T>>, n: nat, x: Keyed<T>)
    requires SortedDesc(s) && n <= |s|
    requires x in s && x !in s[..n]
    ensures forall i :: 0 <= i < n ==> x.key <= s[i].key
  {
    var m :| 0 <= m < |s| && s[m] == x;
  }
}
