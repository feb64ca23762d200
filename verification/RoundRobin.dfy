// Round-robin assignment: partition i goes to consumer i mod n of an ordering of the
// consumers.

module RoundRobin {
  import opened Enumerations
  import opened PowersOfTwo

  function OwnerOf(order: seq<string>, p: nat): (c: string)
    requires order != []
    ensures c in order
  {
    order[p % |order|]
  }

  // The partitions below `parts` that consumer j of n receives, in increasing order.
  function Strided(j: nat, n: nat, parts: nat): seq<int>
    requires n > 0
  {
    if parts == 0 then []
    else Strided(j, n, parts - 1) + (if (parts - 1) % n == j then [parts - 1] else [])
  }

  lemma StridedEmpty(j: nat, n: nat)
    requires n > 0
    ensures Strided(j, n, 0) == []
  {
  }

  lemma StridedStep(j: nat, n: nat, p: nat)
    requires n > 0
    ensures Strided(j, n, p + 1) == if p % n == j then Strided(j, n, p) + [p] else Strided(j, n, p)
  {
  }

  lemma {:induction false} StridedHas(j: nat, n: nat, parts: nat, p: int)
    requires n > 0
    ensures p in Strided(j, n, parts) <==> 0 <= p < parts && p % n == j
    decreases parts
  {
    if parts > 0 { StridedHas(j, n, parts - 1, p); }
  }

  lemma {:induction false} StridedDistinct(j: nat, n: nat, parts: nat)
    requires n > 0
    ensures Distinct(Strided(j, n, parts))
    decreases parts
  {
    if parts > 0 {
      StridedDistinct(j, n, parts - 1);
      StridedHas(j, n, parts - 1, parts - 1);
    }
  }

  // Every consumer's load is the floor or the ceiling of parts / n.
  lemma {:induction false} StridedSize(j: nat, n: nat, parts: nat)
    requires j < n
    ensures |Strided(j, n, parts)| == parts / n + (if j < parts % n then 1 else 0)
    decreases parts
  {
    if parts == 0 {
      ModulusUnique(0, n, 0, 0);
    } else {
      StridedSize(j, n, parts - 1);
      QuotaStep(j, n, parts - 1);
    }
  }

  lemma QuotaStep(j: nat, n: nat, p: nat)
    requires j < n
    ensures (p + 1) / n + (if j < (p + 1) % n then 1 else 0)
         == p / n + (if j < p % n then 1 else 0) + (if p % n == j then 1 else 0)
  {
    var q, r := p / n, p % n;
    if r + 1 < n {
      ModulusUnique(p + 1, n, q, r + 1);
    } else {
      ModulusUnique(p + 1, n, q + 1, 0);
    }
  }

  // With distinct consumers, a partition is in the list of consumer j exactly when j owns it.
  lemma StridedIsOwned(order: seq<string>, j: nat, parts: nat, p: int)
    requires Distinct(order) && j < |order|
    ensures p in Strided(j, |order|, parts) <==> 0 <= p < parts && OwnerOf(order, p) == order[j]
  {
    StridedHas(j, |order|, parts, p);
    if 0 <= p < parts {
      var i := p % |order|;
      if i < j { assert order[i] != order[j]; }
      if j < i { assert order[j] != order[i]; }
    }
  }
}
