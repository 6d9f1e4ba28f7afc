/** Operations on ordered tables: boolean-mask selection, order-preserving subsequences,
    column sums and first-appearance de-duplication. */
module Sequences {

  /** The elements of `s` that satisfy `p`, in their original order: a dataframe indexed by a
      boolean mask. */
  function Where<T(!new)>(s: seq<T>, p: T -> bool): (r: seq<T>)
    ensures |r| <= |s|
    ensures forall x :: x in r <==> x in s && p(x)
    decreases |s|
  {
    if s == [] then []
    else if p(s[0]) then [s[0]] + Where(s[1..], p)
    else Where(s[1..], p)
  }

  /** Each kept value occurs in the selection as often as in `s`; a dropped one not at all. */
  lemma {:induction false} WhereMultiplicity<T(!new)>(s: seq<T>, p: T -> bool)
    ensures forall x :: multiset(Where(s, p))[x] == if p(x) then multiset(s)[x] else 0
    decreases |s|
  {
    if s != [] {
      WhereMultiplicity(s[1..], p);
      assert s == [s[0]] + s[1..];
      assert multiset(s) == multiset{s[0]} + multiset(s[1..]);
      if p(s[0]) {
        assert multiset(Where(s, p)) == multiset{s[0]} + multiset(Where(s[1..], p));
      }
    }
  }

  /** `a` is obtained from `b` by deleting elements, without reordering. */
  predicate IsSubsequence<T(==)>(a: seq<T>, b: seq<T>)
    decreases |b|
  {
    if a == [] then true
    else if b == [] then false
    else (a[0] == b[0] && IsSubsequence(a[1..], b[1..])) || IsSubsequence(a, b[1..])
  }

  lemma {:induction false} WhereIsSubsequence<T(!new)>(s: seq<T>, p: T -> bool)
    ensures IsSubsequence(Where(s, p), s)
    decreases |s|
  {
    if s != [] {
      WhereIsSubsequence(s[1..], p);
      var r := Where(s, p);
      if p(s[0]) {
        assert r[0] == s[0] && r[1..] == Where(s[1..], p);
      }
    }
  }

  /** Selecting with a mask every element satisfies changes nothing. */
  lemma {:induction false} WhereAllHold<T(!new)>(s: seq<T>, p: T -> bool)
    requires forall x :: x in s ==> p(x)
    ensures Where(s, p) == s
    decreases |s|
  {
    if s != [] {
      assert s == [s[0]] + s[1..];
      WhereAllHold(s[1..], p);
    }
  }

  /** Masks that agree on the elements of `s` select the same rows. */
  lemma {:induction false} WhereCongruent<T(!new)>(s: seq<T>, p: T -> bool, q: T -> bool)
    requires forall x :: x in s ==> p(x) == q(x)
    ensures Where(s, p) == Where(s, q)
    decreases |s|
  {
    if s != [] {
      WhereCongruent(s[1..], p, q);
    }
  }

  /** Selecting with `p` and then with `q` is selecting once with their conjunction `pq`. */
  lemma {:induction false} WhereFuse<T(!new)>(s: seq<T>, p: T -> bool, q: T -> bool, pq: T -> bool)
    requires forall x :: x in s ==> pq(x) == (p(x) && q(x))
    ensures Where(Where(s, p), q) == Where(s, pq)
    decreases |s|
  {
    if s != [] {
      WhereFuse(s[1..], p, q, pq);
      if p(s[0]) {
        assert Where(s, p) == [s[0]] + Where(s[1..], p);
        assert Where(s, p)[1..] == Where(s[1..], p);
      }
    }
  }

  /** The sum of `f` over the elements of `s`. */
  function SumBy<T>(s: seq<T>, f: T -> int): int
    decreases |s|
  {
    if s == [] then 0 else f(s[0]) + SumBy(s[1..], f)
  }

  predicate NoDuplicates<T(==)>(s: seq<T>) {
    forall i, j :: 0 <= i < j < |s| ==> s[i] != s[j]
  }

  /** The distinct values of `s` in order of first appearance (a column's unique() list). */
  function Unique<T(==,!new)>(s: seq<T>): (r: seq<T>)
    ensures NoDuplicates(r)
    ensures forall x :: x in r <==> x in s
    ensures IsSubsequence(r, s)
    // first-appearance order: a value listed before another occurs in `s` before any
    // occurrence of the other
    ensures FirstAppearanceOrder(r, s, 0)
  {
    UniqueAfterOrder(s, []);
    UniqueAfter(s, [])
  }

  /** From position `from` on, a value of `r` listed before another occurs in `s` before any
      occurrence of the other. */
  predicate FirstAppearanceOrder<T(==)>(r: seq<T>, s: seq<T>, from: nat) {
    forall i, j, k :: from <= i < j < |r| && 0 <= k < |s| && s[k] == r[j] ==> r[i] in s[..k]
  }

  /** Appends to `seen` the values of `s` not yet present, in order. */
  function UniqueAfter<T(==,!new)>(s: seq<T>, seen: seq<T>): (r: seq<T>)
    requires NoDuplicates(seen)
    ensures NoDuplicates(r)
    ensures forall x :: x in r <==> x in s || x in seen
    ensures |seen| <= |r| && r[..|seen|] == seen
    ensures IsSubsequence(r[|seen|..], s)
    decreases |s|
  {
    if s == [] then
      assert seen[|seen|..] == [];
      seen
    else if s[0] in seen then
      var r := UniqueAfter(s[1..], seen);
      SubsequenceOfTail(r[|seen|..], s);
      r
    else
      var r := UniqueAfter(s[1..], seen + [s[0]]);
      assert r[..|seen|] == (seen + [s[0]])[..|seen|] == seen;
      assert r[|seen|] == s[0];
      assert r[|seen|..][1..] == r[|seen| + 1..];
      r
  }

  /** The values `UniqueAfter` appends come in order of first appearance in `s`. */
  lemma {:induction false} UniqueAfterOrder<T(!new)>(s: seq<T>, seen: seq<T>)
    requires NoDuplicates(seen)
    ensures FirstAppearanceOrder(UniqueAfter(s, seen), s, |seen|)
    decreases |s|
  {
    var r := UniqueAfter(s, seen);
    if s == [] {
    } else if s[0] in seen {
      UniqueAfterOrder(s[1..], seen);
      assert r == UniqueAfter(s[1..], seen);
      forall i, j, k | |seen| <= i < j < |r| && 0 <= k < |s| && s[k] == r[j]
        ensures r[i] in s[..k]
      {
        var m :| 0 <= m < |seen| && seen[m] == s[0];
        assert r[m] == s[0];
        assert k != 0;
        assert s[1..][k - 1] == r[j];
        assert r[i] in s[1..][..k - 1];
        assert s[..k] == [s[0]] + s[1..][..k - 1];
      }
    } else {
      var seen' := seen + [s[0]];
      UniqueAfterOrder(s[1..], seen');
      assert r == UniqueAfter(s[1..], seen');
      assert r[|seen|] == s[0];
      forall i, j, k | |seen| <= i < j < |r| && 0 <= k < |s| && s[k] == r[j]
        ensures r[i] in s[..k]
      {
        assert k != 0;
        if i == |seen| {
          assert s[..k][0] == s[0];
        } else {
          assert s[1..][k - 1] == r[j];
          assert r[i] in s[1..][..k - 1];
          assert s[..k] == [s[0]] + s[1..][..k - 1];
        }
      }
    }
  }

  lemma SubsequenceOfTail<T>(a: seq<T>, s: seq<T>)
    requires s != [] && IsSubsequence(a, s[1..])
    ensures IsSubsequence(a, s)
  {
  }
}
