/** Sizes of finite sets of integers. */
module FiniteSets {
  lemma NonEmpty(A: set<int>)
    requires A != {}
    ensures exists a :: a in A
  {
    assert (forall a :: a !in A) ==> A == {};
  }

  lemma SubsetSize(A: set<int>, B: set<int>)
    requires A <= B
    ensures |A| <= |B|
  {
    assert B == A + (B - A);
  }

  lemma SameSize(A: set<int>, B: set<int>)
    requires A <= B && |A| == |B|
    ensures A == B
  {
    assert B == A + (B - A);
  }

  ghost function Below(n: nat): set<int> {
    if n == 0 then {} else Below(n - 1) + {n - 1}
  }

  lemma {:induction false} BelowSize(n: nat)
    ensures |Below(n)| == n && forall v :: v in Below(n) <==> 0 <= v < n
  {
    if n > 0 {
      BelowSize(n - 1);
    }
  }

  lemma {:induction false} DistinctSize(q: seq<int>)
    requires forall i, j :: 0 <= i < j < |q| ==> q[i] != q[j]
    ensures |set v | v in q| == |q|
  {
    if q == [] {
      assert (set v | v in q) == {};
    } else {
      var rest := q[..|q| - 1];
      DistinctSize(rest);
      assert q == rest + [q[|q| - 1]];
      assert (set v | v in q) == (set v | v in rest) + {q[|q| - 1]};
    }
  }
}
