/** Strict total orders used to sort group-by keys, as the dataframe library sorts them:
    integers numerically, strings by code point, tuples lexicographically. */
module Ordering {

  ghost predicate StrictTotalOrder<K(!new)>(less: (K, K) -> bool) {
    && (forall x :: !less(x, x))
    && (forall x, y, z :: less(x, y) && less(y, z) ==> less(x, z))
    && (forall x, y :: x != y ==> less(x, y) || less(y, x))
  }

  predicate IntLess(a: int, b: int) {
    a < b
  }

  /** Lexicographic order on strings, comparing characters by code point. */
  predicate StringLess(a: string, b: string)
    decreases |a|
  {
    if a == [] then b != []
    else if b == [] then false
    else if a[0] != b[0] then a[0] < b[0]
    else StringLess(a[1..], b[1..])
  }

  /** Lexicographic order on pairs built from orders on the components. */
  function PairLess<A(==), B>(la: (A, A) -> bool, lb: (B, B) -> bool): ((A, B), (A, B)) -> bool {
    (x: (A, B), y: (A, B)) => la(x.0, y.0) || (x.0 == y.0 && lb(x.1, y.1))
  }

  lemma IntLessStrictTotal()
    ensures StrictTotalOrder(IntLess)
  {
  }

  lemma {:induction false} StringLessIrreflexive(a: string)
    ensures !StringLess(a, a)
    decreases |a|
  {
    if a != [] {
      StringLessIrreflexive(a[1..]);
    }
  }

  lemma {:induction false} StringLessTransitive(a: string, b: string, c: string)
    requires StringLess(a, b) && StringLess(b, c)
    ensures StringLess(a, c)
    decreases |a|
  {
    if a != [] && b != [] && c != [] && a[0] == b[0] && b[0] == c[0] {
      StringLessTransitive(a[1..], b[1..], c[1..]);
    }
  }

  lemma {:induction false} StringLessConnected(a: string, b: string)
    requires a != b
    ensures StringLess(a, b) || StringLess(b, a)
    decreases |a|
  {
    if a != [] && b != [] && a[0] == b[0] {
      assert a == [a[0]] + a[1..] && b == [b[0]] + b[1..];
      StringLessConnected(a[1..], b[1..]);
    }
  }

  lemma StringLessStrictTotal()
    ensures StrictTotalOrder(StringLess)
  {
    forall x: string ensures !StringLess(x, x) {
      StringLessIrreflexive(x);
    }
    forall x: string, y: string, z: string | StringLess(x, y) && StringLess(y, z)
      ensures StringLess(x, z)
    {
      StringLessTransitive(x, y, z);
    }
    forall x: string, y: string | x != y ensures StringLess(x, y) || StringLess(y, x) {
      StringLessConnected(x, y);
    }
  }

  lemma PairLessStrictTotal<A(!new), B(!new)>(la: (A, A) -> bool, lb: (B, B) -> bool)
    requires StrictTotalOrder(la) && StrictTotalOrder(lb)
    ensures StrictTotalOrder(PairLess(la, lb))
  {
    var less := PairLess(la, lb);
    forall x: (A, B), y: (A, B), z: (A, B) | less(x, y) && less(y, z)
      ensures less(x, z)
    {
      assert la(x.0, y.0) || (x.0 == y.0 && lb(x.1, y.1));
      assert la(y.0, z.0) || (y.0 == z.0 && lb(y.1, z.1));
      if la(x.0, y.0) && la(y.0, z.0) {
        assert la(x.0, z.0);
      } else if la(x.0, y.0) {
        assert la(x.0, z.0);
      } else if la(y.0, z.0) {
        assert la(x.0, z.0);
      } else {
        assert lb(x.1, z.1);
      }
    }
    forall x: (A, B), y: (A, B) | x != y ensures less(x, y) || less(y, x) {
      if x.0 == y.0 {
        assert x.1 != y.1;
      }
    }
  }
}
