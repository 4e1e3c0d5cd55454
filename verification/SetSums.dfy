/** Sums of integer weights over finite sets of row ids, and the set cardinality
    facts that the counting arguments use. */
module SetSums {

  ghost function Sum(ids: set<nat>, weight: map<nat, int>): int
    requires ids <= weight.Keys
  {
    if ids == {} then 0 else
    var x :| x in ids;
    weight[x] + Sum(ids - {x}, weight)
  }

  lemma {:induction false} SumTakeOut(ids: set<nat>, weight: map<nat, int>, y: nat)
    requires ids <= weight.Keys && y in ids
    ensures Sum(ids, weight) == weight[y] + Sum(ids - {y}, weight)
  {
    var x :| x in ids && Sum(ids, weight) == weight[x] + Sum(ids - {x}, weight);
    if x != y {
      SumTakeOut(ids - {x}, weight, y);
      SumTakeOut(ids - {y}, weight, x);
      assert ids - {x} - {y} == ids - {y} - {x};
    }
  }

  lemma SumAdd(ids: set<nat>, weight: map<nat, int>, y: nat)
    requires ids <= weight.Keys && y in weight.Keys && y !in ids
    ensures Sum(ids + {y}, weight) == weight[y] + Sum(ids, weight)
  {
    SumTakeOut(ids + {y}, weight, y);
    assert ids + {y} - {y} == ids;
  }

  lemma {:induction false} SumAgrees(ids: set<nat>, v: map<nat, int>, w: map<nat, int>)
    requires ids <= v.Keys && ids <= w.Keys
    requires forall x :: x in ids ==> v[x] == w[x]
    ensures Sum(ids, v) == Sum(ids, w)
  {
    if ids != {} {
      var x :| x in ids && Sum(ids, v) == v[x] + Sum(ids - {x}, v);
      SumTakeOut(ids, w, x);
      SumAgrees(ids - {x}, v, w);
    }
  }

  lemma {:induction false} SumZero(ids: set<nat>, weight: map<nat, int>)
    requires ids <= weight.Keys
    requires forall x :: x in ids ==> weight[x] == 0
    ensures Sum(ids, weight) == 0
  {
    if ids != {} {
      var x :| x in ids && Sum(ids, weight) == weight[x] + Sum(ids - {x}, weight);
      SumZero(ids - {x}, weight);
    }
  }

  lemma {:induction false} SumSplit(a: set<nat>, b: set<nat>, weight: map<nat, int>)
    requires a !! b && a + b <= weight.Keys
    ensures Sum(a + b, weight) == Sum(a, weight) + Sum(b, weight)
  {
    if b == {} {
      assert a + b == a;
    } else {
      var y :| y in b;
      SumTakeOut(b, weight, y);
      SumTakeOut(a + b, weight, y);
      assert a + b - {y} == a + (b - {y});
      SumSplit(a, b - {y}, weight);
    }
  }

  lemma {:induction false} SumNonNegative(ids: set<nat>, weight: map<nat, int>)
    requires ids <= weight.Keys
    requires forall x :: x in ids ==> weight[x] >= 0
    ensures Sum(ids, weight) >= 0
    ensures Sum(ids, weight) == 0 ==> forall x :: x in ids ==> weight[x] == 0
  {
    forall x | x in ids ensures Sum(ids, weight) >= weight[x] {
      SumTakeOut(ids, weight, x);
      SumNonNegative(ids - {x}, weight);
    }
    if ids != {} {
      var x :| x in ids;
      assert Sum(ids, weight) >= weight[x];
    }
  }

  lemma {:induction false} SubsetCard(a: set<nat>, b: set<nat>)
    requires a <= b
    ensures |a| <= |b|
    ensures |a| == |b| ==> a == b
  {
    if a != b {
      var x :| x in b && x !in a;
      SubsetCard(a, b - {x});
    }
  }
}
