// Range assignment of partitions 0..P-1 to n ordered consumers, as computed by
// rebalanceConsumerGroup: consumer i gets the next P / n partitions, and one more while
// i < P % n.

module RangeAssignment {

  // The first partition of consumer i's block.
  function Start(i: nat, parts: nat, n: nat): nat
    requires n > 0
  {
    i * (parts / n) + (if i < parts % n then i else parts % n)
  }

  function Share(i: nat, parts: nat, n: nat): nat
    requires n > 0
  {
    parts / n + (if i < parts % n then 1 else 0)
  }

  // The partitions lo, lo + 1, ..., hi - 1.
  function Range(lo: nat, hi: nat): (r: seq<int>)
    requires lo <= hi
    ensures |r| == hi - lo
    ensures forall k :: 0 <= k < |r| ==> r[k] == lo + k
    ensures forall p :: p in r <==> lo <= p < hi
  {
    if lo == hi then [] else Range(lo, hi - 1) + [hi - 1]
  }

  function Block(i: nat, parts: nat, n: nat): seq<int>
    requires i < n
  {
    StartAdvances(i, parts, n);
    Range(Start(i, parts, n), Start(i + 1, parts, n))
  }

  // Adjacent blocks touch, and their sizes are the floor or the ceiling of parts / n.
  lemma StartAdvances(i: nat, parts: nat, n: nat)
    requires i < n
    ensures Start(i + 1, parts, n) == Start(i, parts, n) + Share(i, parts, n)
  {
    var w := parts / n;
    assert (i + 1) * w == i * w + w;
  }

  lemma StartEnds(parts: nat, n: nat)
    requires n > 0
    ensures Start(0, parts, n) == 0 && Start(n, parts, n) == parts
  {
    assert parts == n * (parts / n) + parts % n;
  }

  lemma {:induction false} StartMonotone(i: nat, j: nat, parts: nat, n: nat)
    requires i <= j <= n && n > 0
    ensures Start(i, parts, n) <= Start(j, parts, n)
    decreases j - i
  {
    if i < j {
      StartAdvances(i, parts, n);
      StartMonotone(i + 1, j, parts, n);
    }
  }

  // Consumer i has P / n partitions, and one more if i < P mod n, counted up from
  // i * (P / n) + min(i, P mod n).
  lemma BlockIs(i: nat, parts: nat, n: nat)
    requires i < n
    ensures |Block(i, parts, n)| == parts / n + (if i < parts % n then 1 else 0)
    ensures forall k :: 0 <= k < |Block(i, parts, n)| ==>
      Block(i, parts, n)[k] == i * (parts / n) + (if i < parts % n then i else parts % n) + k
  {
    StartAdvances(i, parts, n);
  }

  // Every partition below the start of consumer j lies in an earlier block.
  lemma {:induction false} BlockOf(p: nat, j: nat, parts: nat, n: nat) returns (i: nat)
    requires 0 < n && j <= n && p < Start(j, parts, n)
    ensures i < j && p in Block(i, parts, n)
  {
    StartEnds(parts, n);
    StartAdvances(j - 1, parts, n);
    if p < Start(j - 1, parts, n) {
      i := BlockOf(p, j - 1, parts, n);
    } else {
      i := j - 1;
    }
  }

  lemma BlockIsWithin(i: nat, p: int, parts: nat, n: nat)
    requires i < n && p in Block(i, parts, n)
    ensures 0 <= p < parts
  {
    StartEnds(parts, n);
    StartMonotone(i + 1, n, parts, n);
  }

  lemma BlocksDisjoint(i: nat, j: nat, p: int, parts: nat, n: nat)
    requires i < n && j < n && p in Block(i, parts, n) && p in Block(j, parts, n)
    ensures i == j
  {
    if i < j {
      StartMonotone(i + 1, j, parts, n);
    } else if j < i {
      StartMonotone(j + 1, i, parts, n);
    }
  }

  ghost predicate InSomeBlock(p: int, parts: nat, n: nat) {
    exists i :: 0 <= i < n && p in Block(i, parts, n)
  }

  // The n blocks partition 0..parts-1 and differ in size by at most one, whatever the
  // number of partitions and of consumers.
  lemma BlocksPartition(parts: nat, n: nat)
    requires n > 0
    ensures forall p :: InSomeBlock(p, parts, n) <==> 0 <= p < parts
    ensures forall i, j, p :: 0 <= i < n && 0 <= j < n && p in Block(i, parts, n) && p in Block(j, parts, n) ==> i == j
    ensures forall i, j :: 0 <= i < n && 0 <= j < n ==> |Block(i, parts, n)| <= |Block(j, parts, n)| + 1
  {
    hide Range, Start;
    StartEnds(parts, n);
    forall p ensures InSomeBlock(p, parts, n) <==> 0 <= p < parts {
      if InSomeBlock(p, parts, n) {
        var i :| 0 <= i < n && p in Block(i, parts, n);
        BlockIsWithin(i, p, parts, n);
      } else if 0 <= p < parts {
        var i := BlockOf(p, n, parts, n);
      }
    }
    forall i, j, p | 0 <= i < n && 0 <= j < n && p in Block(i, parts, n) && p in Block(j, parts, n) ensures i == j {
      BlocksDisjoint(i, j, p, parts, n);
    }
    forall i, j | 0 <= i < n && 0 <= j < n ensures |Block(i, parts, n)| <= |Block(j, parts, n)| + 1 {
      StartAdvances(i, parts, n);
      StartAdvances(j, parts, n);
    }
  }
}
