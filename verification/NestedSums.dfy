// Sizes of two-level indexes: the sum of the inner sizes counts the pairs of the index, so an
// index and its transpose have the same sum.

module NestedSums {

  type Index = map<string, set<string>>

  ghost function Sum(m: Index): nat
    decreases |m|
  {
    if m == map[] then 0
    else
      var k :| k in m;
      |m[k]| + Sum(m - {k})
  }

  ghost function Pairs(m: Index): set<(string, string)> {
    set k, j | k in m && j in m[k] :: (k, j)
  }

  ghost function Row(k: string, js: set<string>): set<(string, string)> {
    set j | j in js :: (k, j)
  }

  lemma {:induction false} RowSize(k: string, js: set<string>)
    ensures |Row(k, js)| == |js|
    decreases |js|
  {
    if js == {} {
      assert Row(k, js) == {};
    } else {
      var j :| j in js;
      RowSize(k, js - {j});
      assert Row(k, js) == Row(k, js - {j}) + {(k, j)};
    }
  }

  lemma PairsSplit(m: Index, k: string)
    requires k in m
    ensures |Pairs(m)| == |m[k]| + |Pairs(m - {k})|
  {
    RowSize(k, m[k]);
    assert Pairs(m) == Row(k, m[k]) + Pairs(m - {k});
    assert Row(k, m[k]) !! Pairs(m - {k});
  }

  lemma {:induction false} SumCountsPairs(m: Index)
    ensures Sum(m) == |Pairs(m)|
    decreases |m|
  {
    if m == map[] {
      assert Pairs(m) == {};
    } else {
      forall k | k in m ensures |m[k]| + Sum(m - {k}) == |Pairs(m)| {
        SumCountsPairs(m - {k});
        PairsSplit(m, k);
      }
    }
  }

  ghost function Swapped(ps: set<(string, string)>): set<(string, string)> {
    set p | p in ps :: (p.1, p.0)
  }

  lemma {:induction false} SwapSize(ps: set<(string, string)>)
    ensures |Swapped(ps)| == |ps|
    decreases |ps|
  {
    if ps == {} {
      assert Swapped(ps) == {};
    } else {
      var p :| p in ps;
      SwapSize(ps - {p});
      assert Swapped(ps) == Swapped(ps - {p}) + {(p.1, p.0)};
    }
  }

  ghost predicate Has(m: Index, k: string, j: string) {
    k in m && j in m[k]
  }

  // n lists the pairs of m the other way round, except those in `rest`.
  ghost predicate Transposes(m: Index, n: Index, rest: set<(string, string)>) {
    && (forall a, b :: Has(m, a, b) <==> Has(n, b, a) || (a, b) in rest)
    && (forall a, b :: Has(n, b, a) ==> (a, b) !in rest)
  }

  lemma PairsAre(m: Index, a: string, b: string)
    ensures (a, b) in Pairs(m) <==> Has(m, a, b)
  {
  }

  lemma SwappedHas(ps: set<(string, string)>, a: string, b: string)
    ensures (a, b) in Swapped(ps) <==> (b, a) in ps
  {
    if (b, a) in ps { assert ((b, a).1, (b, a).0) == (a, b); }
  }

  lemma TransposedPairs(m: Index, n: Index, rest: set<(string, string)>)
    requires Transposes(m, n, rest)
    ensures Pairs(m) == Swapped(Pairs(n)) + rest && Swapped(Pairs(n)) !! rest
  {
    hide Pairs, Swapped, Has;
    forall p: (string, string)
      ensures p in Pairs(m) <==> p in Swapped(Pairs(n)) || p in rest
      ensures !(p in Swapped(Pairs(n)) && p in rest)
    {
      PairsAre(m, p.0, p.1);
      SwappedHas(Pairs(n), p.0, p.1);
      PairsAre(n, p.1, p.0);
      assert p == (p.0, p.1);
    }
  }

  // An index counts the pairs of its transpose and the rest.
  lemma TransposeKeepsSum(m: Index, n: Index, rest: set<(string, string)>)
    requires Transposes(m, n, rest)
    ensures Sum(m) == Sum(n) + |rest|
  {
    hide *;
    SumCountsPairs(m);
    SumCountsPairs(n);
    SwapSize(Pairs(n));
    TransposedPairs(m, n, rest);
  }
}
