/** Finite sets: sizes of subsets, and numbers outside a set. */
module Sets {
  lemma SubsetSize<T>(a: set<T>, b: set<T>)
    requires a <= b
    ensures |a| <= |b|
  {
    assert b == a + (b - a);
  }

  /** Sets that agree apart from x differ in size by the membership of x. */
  lemma ApartFromOne<T>(a: set<T>, b: set<T>, x: T)
    requires forall y :: y != x ==> (y in a <==> y in b)
    ensures |a| + (if x in b then 1 else 0) == |b| + (if x in a then 1 else 0)
  {
    assert a - {x} == b - {x};
    assert x in a ==> a == (a - {x}) + {x};
    assert x in b ==> b == (b - {x}) + {x};
    assert x !in a ==> a == a - {x};
    assert x !in b ==> b == b - {x};
  }

  /** Some number and all above it are unused. */
  lemma {:induction false} Unused(used: set<nat>) returns (n: nat)
    ensures forall k: nat :: k >= n ==> k !in used
    decreases |used|
  {
    n := 0;
    if used != {} {
      var x :| x in used;
      n := Unused(used - {x});
      n := if x >= n then x + 1 else n;
      assert forall k: nat :: k in used ==> k == x || k in used - {x};
    }
  }
}
