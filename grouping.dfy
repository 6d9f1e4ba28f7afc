/** Group-by sums. The dataframe library's `groupby(key)[column].sum()` drops rows whose key is
    missing, returns one entry per distinct key and sorts the entries by key. A result is modelled
    as a list of (key, sum) pairs. */
module Grouping {

  import opened Wrappers
  import opened Ordering
  import Sequences

  type Groups<K> = seq<(K, int)>

  function Keys<K>(g: Groups<K>): set<K>
    decreases |g|
  {
    if g == [] then {} else {g[0].0} + Keys(g[1..])
  }

  /** The sum of the entries of `g` whose key is `k` (0 when there is none). */
  function Amount<K(==)>(g: Groups<K>, k: K): int
    decreases |g|
  {
    if g == [] then 0 else (if g[0].0 == k then g[0].1 else 0) + Amount(g[1..], k)
  }

  /** The sum of all entries of `g`. */
  function Total<K>(g: Groups<K>): int
    decreases |g|
  {
    if g == [] then 0 else g[0].1 + Total(g[1..])
  }

  /** The first entry of `g` with key `k`, as the library's label lookup finds it. */
  function Lookup<K(==)>(g: Groups<K>, k: K): Option<int>
    decreases |g|
  {
    if g == [] then None else if g[0].0 == k then Some(g[0].1) else Lookup(g[1..], k)
  }

  ghost predicate Ascending<K>(g: Groups<K>, less: (K, K) -> bool) {
    forall i, j :: 0 <= i < j < |g| ==> less(g[i].0, g[j].0)
  }

  /** The keys present among the rows of `s`. */
  function KeysOf<T, K>(s: seq<T>, key: T -> Option<K>): set<K>
    decreases |s|
  {
    if s == [] then {}
    else (if key(s[0]).Some? then {key(s[0]).value} else {}) + KeysOf(s[1..], key)
  }

  /** The sum of `val` over the rows of `s` whose key is `k`. */
  function KeySum<T, K(==)>(s: seq<T>, key: T -> Option<K>, val: T -> int, k: K): int
    decreases |s|
  {
    if s == [] then 0
    else (if key(s[0]) == Some(k) then val(s[0]) else 0) + KeySum(s[1..], key, val, k)
  }

  /** The sum of `val` over the rows of `s` whose key is present. */
  function KeyedTotal<T, K>(s: seq<T>, key: T -> Option<K>, val: T -> int): int
    decreases |s|
  {
    if s == [] then 0
    else (if key(s[0]).Some? then val(s[0]) else 0) + KeyedTotal(s[1..], key, val)
  }

  /** Adds `v` to the entry for `k`, or inserts a new entry before the first greater key. */
  function Insert<K(==,!new)>(g: Groups<K>, k: K, v: int, less: (K, K) -> bool): (r: Groups<K>)
    ensures Keys(r) == Keys(g) + {k}
    ensures Total(r) == Total(g) + v
    ensures forall j :: Amount(r, j) == Amount(g, j) + (if j == k then v else 0)
    decreases |g|
  {
    if g == [] then [(k, v)]
    else if g[0].0 == k then [(k, g[0].1 + v)] + g[1..]
    else if less(k, g[0].0) then [(k, v)] + g
    else [g[0]] + Insert(g[1..], k, v, less)
  }

  /** `groupby(key)[val].sum()` over the rows of `s`. */
  function GroupSum<T, K(==,!new)>(s: seq<T>, key: T -> Option<K>, val: T -> int, less: (K, K) -> bool): (g: Groups<K>)
    ensures Keys(g) == KeysOf(s, key)
    ensures forall k :: Amount(g, k) == KeySum(s, key, val, k)
    ensures Total(g) == KeyedTotal(s, key, val)
    decreases |s|
  {
    if s == [] then []
    else
      var rest := GroupSum(s[1..], key, val, less);
      match key(s[0])
      case None => rest
      case Some(k) => Insert(rest, k, val(s[0]), less)
  }

  lemma {:induction false} KeysMembership<K>(g: Groups<K>, k: K)
    ensures k in Keys(g) <==> exists i :: 0 <= i < |g| && g[i].0 == k
    decreases |g|
  {
    if g != [] {
      KeysMembership(g[1..], k);
      if k in Keys(g[1..]) {
        var i :| 0 <= i < |g[1..]| && g[1..][i].0 == k;
        assert g[i + 1].0 == k;
      }
      forall i | 0 < i < |g| && g[i].0 == k ensures k in Keys(g[1..]) {
        assert g[1..][i - 1].0 == k;
      }
    }
  }

  lemma {:induction false} InsertAscending<K(!new)>(g: Groups<K>, k: K, v: int, less: (K, K) -> bool)
    requires StrictTotalOrder(less)
    requires Ascending(g, less)
    ensures Ascending(Insert(g, k, v, less), less)
    decreases |g|
  {
    var r := Insert(g, k, v, less);
    if g == [] {
    } else if g[0].0 == k {
      assert forall i :: 0 <= i < |r| ==> r[i].0 == g[i].0;
    } else if less(k, g[0].0) {
      forall i, j | 0 <= i < j < |r| ensures less(r[i].0, r[j].0) {
        if i > 0 {
          assert r[i] == g[i - 1] && r[j] == g[j - 1];
        } else if j > 1 {
          assert less(g[0].0, g[j - 1].0);
        }
      }
    } else {
      assert less(g[0].0, k);
      InsertAscending(g[1..], k, v, less);
      var tail := Insert(g[1..], k, v, less);
      assert r == [g[0]] + tail;
      forall j | 0 <= j < |tail| ensures less(g[0].0, tail[j].0) {
        KeysMembership(tail, tail[j].0);
        assert tail[j].0 in Keys(g[1..]) + {k};
        if tail[j].0 != k {
          KeysMembership(g[1..], tail[j].0);
          var i :| 0 <= i < |g[1..]| && g[1..][i].0 == tail[j].0;
          assert g[i + 1].0 == tail[j].0;
        }
      }
      forall i, j | 0 <= i < j < |r| ensures less(r[i].0, r[j].0) {
        if i == 0 {
          assert r[j] == tail[j - 1];
        } else {
          assert r[i] == tail[i - 1] && r[j] == tail[j - 1];
        }
      }
    }
  }

  /** The entries come out sorted by key, hence with no key twice. */
  lemma {:induction false} GroupSumAscending<T, K(!new)>(s: seq<T>, key: T -> Option<K>, val: T -> int, less: (K, K) -> bool)
    requires StrictTotalOrder(less)
    ensures Ascending(GroupSum(s, key, val, less), less)
    decreases |s|
  {
    if s != [] {
      GroupSumAscending(s[1..], key, val, less);
      if key(s[0]).Some? {
        InsertAscending(GroupSum(s[1..], key, val, less), key(s[0]).value, val(s[0]), less);
      }
    }
  }

  /** In an ascending list each key occurs once, so the label lookup finds its whole sum. */
  lemma {:induction false} LookupAscending<K(!new)>(g: Groups<K>, k: K, less: (K, K) -> bool)
    requires StrictTotalOrder(less)
    requires Ascending(g, less)
    ensures Lookup(g, k) == if k in Keys(g) then Some(Amount(g, k)) else None
    decreases |g|
  {
    if g != [] {
      assert Ascending(g[1..], less);
      LookupAscending(g[1..], k, less);
      if g[0].0 == k {
        forall i | 0 <= i < |g[1..]| ensures g[1..][i].0 != k {
          assert less(g[0].0, g[i + 1].0);
        }
        KeysMembership(g[1..], k);
        AmountAbsent(g[1..], k);
      }
    }
  }

  lemma {:induction false} AmountAbsent<K>(g: Groups<K>, k: K)
    requires k !in Keys(g)
    ensures Amount(g, k) == 0
    decreases |g|
  {
    if g != [] {
      AmountAbsent(g[1..], k);
    }
  }

  /** The whole contract of a group-by sum: sorted keys, and the entry for a key exists exactly
      when some row has that key, and holds the sum over those rows. */
  lemma GroupSumEntries<T, K(!new)>(s: seq<T>, key: T -> Option<K>, val: T -> int, less: (K, K) -> bool)
    requires StrictTotalOrder(less)
    ensures Ascending(GroupSum(s, key, val, less), less)
    ensures forall k ::
      Lookup(GroupSum(s, key, val, less), k) == if k in KeysOf(s, key) then Some(KeySum(s, key, val, k)) else None
  {
    var g := GroupSum(s, key, val, less);
    GroupSumAscending(s, key, val, less);
    forall k ensures Lookup(g, k) == if k in KeysOf(s, key) then Some(KeySum(s, key, val, k)) else None {
      LookupAscending(g, k, less);
    }
  }

  /** When every row has a key, the group sums add up to the column total. */
  lemma {:induction false} KeyedTotalAllKeyed<T, K>(s: seq<T>, key: T -> Option<K>, val: T -> int)
    requires forall x :: x in s ==> key(x).Some?
    ensures KeyedTotal(s, key, val) == Sequences.SumBy(s, val)
    decreases |s|
  {
    if s != [] {
      KeyedTotalAllKeyed(s[1..], key, val);
    }
  }

  /** The keys of the rows all satisfy `p` when every present key does. */
  lemma {:induction false} KeysOfWithin<T, K>(s: seq<T>, key: T -> Option<K>, p: K -> bool)
    requires forall x :: x in s && key(x).Some? ==> p(key(x).value)
    ensures forall k :: k in KeysOf(s, key) ==> p(k)
    decreases |s|
  {
    if s != [] {
      KeysOfWithin(s[1..], key, p);
    }
  }
}
