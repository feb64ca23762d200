// internal/services/topic/partition.go: per topic, which partitions a consumer holds and
// which consumer holds a partition.  Both directions are stored and updated in place.

module PartitionManager {
  import opened Enumerations
  import opened RoundRobin

  datatype Partition = Partition(
    id: int, messageCount: int, size: int, startOffset: int, endOffset: int,
    consumers: seq<string>, lastActivity: int)

  type ConsumerMap = map<string, seq<int>>

  datatype Detail = Detail(partitionID: int, toConsumer: string, messagesMoved: int)

  datatype RebalanceResult = RebalanceResult(partitionsMoved: int, details: seq<Detail>)

  datatype Result<T> = Ok(value: T) | TopicNotFound | AlreadyInProgress

  /* The two-way index */

  ghost predicate TwoWay(m: ConsumerMap, ps: seq<Partition>) {
    // partition ids equal their indices, and each partition has at most one owner
    && (forall i :: 0 <= i < |ps| ==> ps[i].id == i && |ps[i].consumers| <= 1)
    // a partition lists a consumer exactly when the consumer's entry lists the partition
    && (forall c, i :: 0 <= i < |ps| ==> (c in ps[i].consumers <==> Lists(m, c, i)))
    // entries list each partition once, and only existing ones
    && (forall c :: c in m ==> Distinct(m[c]))
    && (forall c, p :: Lists(m, c, p) ==> 0 <= p < |ps|)
  }

  predicate Lists(m: ConsumerMap, c: string, p: int) {
    c in m && p in m[c]
  }

  // Partition i is owned by consumer i mod n of the order, in both directions.
  ghost predicate RoundRobinBy(m: ConsumerMap, ps: seq<Partition>, order: seq<string>) {
    && Enumerates(order, m.Keys) && order != []
    && (forall j :: 0 <= j < |order| ==> m[order[j]] == Strided(j, |order|, |ps|))
    && (forall i :: 0 <= i < |ps| ==> ps[i].id == i && ps[i].consumers == [OwnerOf(order, i)])
  }

  lemma ListsIsOwner(m: ConsumerMap, ps: seq<Partition>, order: seq<string>, c: string, p: int)
    requires RoundRobinBy(m, ps, order)
    ensures Lists(m, c, p) <==> 0 <= p < |ps| && OwnerOf(order, p) == c
  {
    if c in m {
      var j :| 0 <= j < |order| && order[j] == c;
      StridedIsOwned(order, j, |ps|, p);
    }
  }

  // A round-robin assignment is a two-way index, whatever the order of the consumers.
  lemma RoundRobinIsTwoWay(m: ConsumerMap, ps: seq<Partition>, order: seq<string>)
    requires RoundRobinBy(m, ps, order)
    ensures TwoWay(m, ps)
  {
    hide OwnerOf, Strided;
    forall c, p ensures Lists(m, c, p) <==> 0 <= p < |ps| && OwnerOf(order, p) == c {
      ListsIsOwner(m, ps, order, c, p);
    }
    forall c | c in m ensures Distinct(m[c]) {
      var j :| 0 <= j < |order| && order[j] == c;
      StridedDistinct(j, |order|, |ps|);
    }
  }

  // Every partition has exactly one owner and the loads differ by at most one.
  lemma RoundRobinIsBalanced(m: ConsumerMap, ps: seq<Partition>, order: seq<string>)
    requires RoundRobinBy(m, ps, order)
    ensures forall i :: 0 <= i < |ps| ==> |ps[i].consumers| == 1 && Lists(m, ps[i].consumers[0], i)
    ensures forall a, b :: a in m && b in m ==> |m[a]| <= |m[b]| + 1
  {
    hide OwnerOf, Strided;
    forall i | 0 <= i < |ps| ensures Lists(m, ps[i].consumers[0], i) {
      ListsIsOwner(m, ps, order, ps[i].consumers[0], i);
    }
    forall a, b | a in m && b in m ensures |m[a]| <= |m[b]| + 1 {
      var i :| 0 <= i < |order| && order[i] == a;
      var j :| 0 <= j < |order| && order[j] == b;
      StridedSize(i, |order|, |ps|);
      StridedSize(j, |order|, |ps|);
    }
  }

  // The partitions whose owner under `order` did not list them before.
  function Moved(before: ConsumerMap, parts: nat, order: seq<string>): set<int>
    requires order != []
  {
    set p | 0 <= p < parts && !Lists(before, OwnerOf(order, p), p)
  }

  // Repeating a rebalance with the same consumer order moves nothing.
  lemma RepeatMovesNothing(m: ConsumerMap, ps: seq<Partition>, order: seq<string>)
    requires RoundRobinBy(m, ps, order)
    ensures Moved(m, |ps|, order) == {}
  {
    forall p | p in Moved(m, |ps|, order) ensures false {
      ListsIsOwner(m, ps, order, OwnerOf(order, p), p);
    }
  }

  function IdsOf(details: seq<Detail>): (ids: seq<int>)
    ensures |ids| == |details|
    ensures forall i :: 0 <= i < |details| ==> ids[i] == details[i].partitionID
  {
    seq(|details|, i requires 0 <= i < |details| => details[i].partitionID)
  }

  // One detail per moved partition, naming its new owner and its message count.
  ghost predicate Reports(details: seq<Detail>, moved: set<int>, order: seq<string>, ps: seq<Partition>)
    requires order != []
  {
    && Enumerates(IdsOf(details), moved)
    && forall d :: d in details ==>
         && 0 <= d.partitionID < |ps|
         && d == Detail(d.partitionID, OwnerOf(order, d.partitionID), ps[d.partitionID].messageCount)
  }

  function MovedTo(done: set<string>, before: ConsumerMap, parts: nat, order: seq<string>): set<int>
    requires order != []
  {
    set p | p in Moved(before, parts, order) && OwnerOf(order, p) in done
  }

  lemma MovedToAll(done: set<string>, before: ConsumerMap, parts: nat, order: seq<string>)
    requires order != [] && forall c :: c in order ==> c in done
    ensures MovedTo(done, before, parts, order) == Moved(before, parts, order)
  {
    hide OwnerOf;
  }

  lemma ReportsOne(more: seq<Detail>, c: string, ids: seq<int>,
                   before: ConsumerMap, order: seq<string>, ps: seq<Partition>)
    requires order != [] && c in before
    requires forall p :: p in ids <==> 0 <= p < |ps| && OwnerOf(order, p) == c
    requires Enumerates(IdsOf(more), set p | p in ids && p !in before[c])
    requires forall d :: d in more ==>
      0 <= d.partitionID < |ps| && d == Detail(d.partitionID, c, ps[d.partitionID].messageCount)
    ensures Reports(more, MovedTo({c}, before, |ps|, order), order, ps)
  {
    hide OwnerOf;
    assert MovedTo({c}, before, |ps|, order) == set p | p in ids && p !in before[c];
    forall d | d in more ensures OwnerOf(order, d.partitionID) == c {
      var i :| 0 <= i < |more| && more[i] == d;
      assert IdsOf(more)[i] in IdsOf(more);
    }
  }

  lemma ReportsMore(details: seq<Detail>, more: seq<Detail>, c: string, done: set<string>,
                    before: ConsumerMap, order: seq<string>, ps: seq<Partition>)
    requires order != [] && c !in done && c in before
    requires Reports(details, MovedTo(done, before, |ps|, order), order, ps)
    requires Reports(more, MovedTo({c}, before, |ps|, order), order, ps)
    ensures Reports(details + more, MovedTo(done + {c}, before, |ps|, order), order, ps)
  {
    hide OwnerOf;
    var old', new' := MovedTo(done, before, |ps|, order), MovedTo({c}, before, |ps|, order);
    assert MovedTo(done + {c}, before, |ps|, order) == old' + new';
    assert IdsOf(details + more) == IdsOf(details) + IdsOf(more);
    EnumerateConcat(IdsOf(details), IdsOf(more), old', new');
  }

  // The state of the in-place update while the consumers in `left` are still to be visited.
  ghost predicate Progress(m: ConsumerMap, qs: seq<Partition>, details: seq<Detail>, left: set<string>,
                           before: ConsumerMap, next: ConsumerMap, ps: seq<Partition>, order: seq<string>) {
    && order != [] && Enumerates(order, next.Keys) && TwoWay(before, ps)
    && (forall j :: 0 <= j < |order| ==> next[order[j]] == Strided(j, |order|, |ps|))
    && m.Keys == next.Keys == before.Keys && |qs| == |ps|
    && (forall c :: c in next ==> m[c] == if c in left then before[c] else next[c])
    && (forall i :: 0 <= i < |ps| ==>
          qs[i] == if OwnerOf(order, i) in left then ps[i] else ps[i].(consumers := [OwnerOf(order, i)]))
    && Reports(details, MovedTo(next.Keys - left, before, |ps|, order), order, ps)
  }

  lemma ProgressStart(before: ConsumerMap, next: ConsumerMap, ps: seq<Partition>, order: seq<string>)
    requires order != [] && Enumerates(order, next.Keys) && TwoWay(before, ps) && next.Keys == before.Keys
    requires forall j :: 0 <= j < |order| ==> next[order[j]] == Strided(j, |order|, |ps|)
    ensures Progress(before, ps, [], next.Keys, before, next, ps, order)
  {
    hide OwnerOf, Strided;
    assert next.Keys - next.Keys == {};
  }

  lemma ProgressFacts(m: ConsumerMap, qs: seq<Partition>, details: seq<Detail>, left: set<string>,
                      before: ConsumerMap, next: ConsumerMap, ps: seq<Partition>, order: seq<string>, c: string)
    requires Progress(m, qs, details, left, before, next, ps, order) && c in left && c in next
    ensures c in m && m[c] == before[c] && |qs| == |ps| && Distinct(next[c])
    ensures forall p :: p in next[c] <==> 0 <= p < |ps| && OwnerOf(order, p) == c
    ensures forall i :: 0 <= i < |ps| ==> qs[i].messageCount == ps[i].messageCount
  {
    hide OwnerOf, Strided;
    var j :| 0 <= j < |order| && order[j] == c;
    StridedDistinct(j, |order|, |ps|);
    forall p ensures p in next[c] <==> 0 <= p < |ps| && OwnerOf(order, p) == c {
      StridedIsOwned(order, j, |ps|, p);
    }
  }

  lemma ProgressStep(m: ConsumerMap, qs: seq<Partition>, details: seq<Detail>, left: set<string>,
                     before: ConsumerMap, next: ConsumerMap, ps: seq<Partition>, order: seq<string>, c: string,
                     more: seq<Detail>, pointed: seq<Partition>)
    requires Progress(m, qs, details, left, before, next, ps, order) && c in left && c in next
    requires Enumerates(IdsOf(more), set p | p in next[c] && p !in before[c])
    requires forall d :: d in more ==>
      0 <= d.partitionID < |qs| && d == Detail(d.partitionID, c, qs[d.partitionID].messageCount)
    requires |pointed| == |qs|
    requires forall i :: 0 <= i < |qs| ==> pointed[i] == if i in next[c] then qs[i].(consumers := [c]) else qs[i]
    ensures Progress(m[c := next[c]], pointed, details + more, left - {c}, before, next, ps, order)
  {
    hide OwnerOf, Strided, Reports, TwoWay;
    ProgressFacts(m, qs, details, left, before, next, ps, order, c);
    ReportsOne(more, c, next[c], before, order, ps);
    ReportsMore(details, more, c, next.Keys - left, before, order, ps);
    assert next.Keys - left + {c} == next.Keys - (left - {c});
  }

  lemma ProgressEnd(m: ConsumerMap, qs: seq<Partition>, details: seq<Detail>,
                    before: ConsumerMap, next: ConsumerMap, ps: seq<Partition>, order: seq<string>)
    requires Progress(m, qs, details, {}, before, next, ps, order)
    ensures m == next && |qs| == |ps|
    ensures forall i :: 0 <= i < |ps| ==> qs[i] == ps[i].(consumers := [OwnerOf(order, i)])
    ensures Reports(details, Moved(before, |ps|, order), order, ps)
  {
    hide OwnerOf, Strided, Reports, TwoWay;
    MovedToAll(next.Keys - {}, before, |ps|, order);
  }

  /* The index of one topic */

  class Assignment {
    var partitions: seq<Partition>
    var consumerMap: ConsumerMap
    var lastRebalance: int
    var rebalancing: bool

    ghost predicate Valid()
      reads this
    {
      TwoWay(consumerMap, partitions) && !rebalancing
    }

    constructor (parts: nat, now: int)
      ensures Valid() && consumerMap == map[] && |partitions| == parts
      ensures forall i :: 0 <= i < parts ==> partitions[i] == Partition(i, 0, 0, 0, 0, [], now)
    {
      partitions := seq(parts, i => Partition(i, 0, 0, 0, 0, [], now));
      consumerMap := map[];
      lastRebalance := now;
      rebalancing := false;
    }

    // With consumers, afterwards the assignment is round-robin by some order of them; the
    // moves counted and reported are the partitions absent from their new owner's old list.
    method Rebalance(now: int) returns (r: Result<RebalanceResult>, ghost order: seq<string>)
      requires Valid()
      modifies this
      ensures Valid() && r.Ok? && Enumerates(order, old(consumerMap).Keys)
      ensures consumerMap.Keys == old(consumerMap).Keys && |partitions| == old(|partitions|)
      ensures order == [] ==>
        consumerMap == old(consumerMap) && partitions == old(partitions) && r.value == RebalanceResult(0, [])
      ensures order != [] ==>
        && RoundRobinBy(consumerMap, partitions, order)
        && Reports(r.value.details, Moved(old(consumerMap), |partitions|, order), order, old(partitions))
        && r.value.partitionsMoved == |r.value.details| == |Moved(old(consumerMap), |partitions|, order)|
        && forall i :: 0 <= i < |partitions| ==>
             partitions[i] == old(partitions)[i].(consumers := [order[i % |order|]])
    {
      order := [];
      if rebalancing {
        assert false;
        return AlreadyInProgress, order;
      }
      rebalancing := true;
      var consumers := Enumerate(consumerMap.Keys);
      order := consumers;
      if |consumers| == 0 {
        rebalancing, lastRebalance := false, now;
        return Ok(RebalanceResult(0, [])), order;
      }
      var next := OptimalAssignment(partitions, consumers);
      var moved, details := Apply(next, order);
      rebalancing, lastRebalance := false, now;
      RoundRobinIsTwoWay(consumerMap, partitions, order);
      EnumerationSize(IdsOf(details), Moved(old(consumerMap), |partitions|, order));
      r := Ok(RebalanceResult(moved, details));
    }

    // Replaces the lists of all consumers, in an order of Go's choosing, and points every
    // partition at its new owner.
    method Apply(next: ConsumerMap, ghost order: seq<string>) returns (moved: nat, details: seq<Detail>)
      requires TwoWay(consumerMap, partitions) && order != []
      requires Enumerates(order, consumerMap.Keys) && next.Keys == consumerMap.Keys
      requires forall j :: 0 <= j < |order| ==> next[order[j]] == Strided(j, |order|, |partitions|)
      modifies this`partitions, this`consumerMap
      ensures consumerMap == next && moved == |details| && |partitions| == old(|partitions|)
      ensures forall i :: 0 <= i < |partitions| ==>
        partitions[i] == old(partitions)[i].(consumers := [OwnerOf(order, i)])
      ensures Reports(details, Moved(old(consumerMap), |partitions|, order), order, old(partitions))
    {
      hide *;
      ghost var before, ps := consumerMap, partitions;
      moved, details := 0, [];
      var left := next.Keys;
      ProgressStart(before, next, ps, order);
      while left != {}
        invariant left <= next.Keys && moved == |details|
        invariant Progress(consumerMap, partitions, details, left, before, next, ps, order)
        decreases left
      {
        var c :| c in left;
        ProgressFacts(consumerMap, partitions, details, left, before, next, ps, order, c);
        var more := MovesFor(c, next[c], consumerMap[c], partitions);
        var pointed := PointAt(c, next[c], partitions);
        ProgressStep(consumerMap, partitions, details, left, before, next, ps, order, c, more, pointed);
        moved, details := moved + |more|, details + more;
        consumerMap := consumerMap[c := next[c]];
        partitions := pointed;
        left := left - {c};
      }
      ProgressEnd(consumerMap, partitions, details, before, next, ps, order);
    }

    // A new consumer starts with no partitions; the rebalance it triggers is a later step.
    method AddConsumer(c: string)
      requires Valid()
      modifies this
      ensures Valid() && partitions == old(partitions)
      ensures consumerMap == if c in old(consumerMap) then old(consumerMap) else old(consumerMap)[c := []]
    {
      if c in consumerMap { return; }
      consumerMap := consumerMap[c := []];
      assert forall d, p :: Lists(consumerMap, d, p) <==> Lists(old(consumerMap), d, p);
    }

    // The consumer disappears from both directions; its partitions are left without owner.
    method RemoveConsumer(c: string)
      requires Valid()
      modifies this
      ensures Valid()
      ensures consumerMap == old(consumerMap) - {c} && partitions == Struck(old(partitions), c)
    {
      consumerMap := consumerMap - {c};
      for i := 0 to |partitions|
        invariant |partitions| == old(|partitions|) && consumerMap == old(consumerMap) - {c} && !rebalancing
        invariant forall k :: 0 <= k < i ==>
          partitions[k] == old(partitions)[k].(consumers := Without(old(partitions)[k].consumers, c))
        invariant forall k :: i <= k < |partitions| ==> partitions[k] == old(partitions)[k]
      {
        var newConsumers := DropConsumer(partitions[i].consumers, c);
        partitions := partitions[i := partitions[i].(consumers := newConsumers)];
      }
      forall i, d | 0 <= i < |partitions|
        ensures d in partitions[i].consumers <==> d != c && d in old(partitions)[i].consumers
      {
        WithoutHas(old(partitions)[i].consumers, c, d);
      }
      assert forall d, p :: Lists(consumerMap, d, p) <==> d != c && Lists(old(consumerMap), d, p);
    }

    method UpdateStats(partitionID: nat, messageCount: int, size: int, now: int)
      requires Valid()
      modifies this
      ensures Valid() && consumerMap == old(consumerMap)
      ensures partitions == Counted(old(partitions), partitionID, messageCount, size, now)
    {
      if partitionID >= |partitions| { return; }
      var p := partitions[partitionID];
      p := p.(messageCount := p.messageCount + messageCount, size := p.size + size, lastActivity := now);
      if messageCount > 0 {
        p := p.(endOffset := p.endOffset + messageCount);
      }
      partitions := partitions[partitionID := p];
    }
  }

  // The partitions after a consumer is struck from all of them.
  function Struck(ps: seq<Partition>, c: string): (qs: seq<Partition>)
    ensures |qs| == |ps|
    ensures forall i :: 0 <= i < |ps| ==> qs[i] == ps[i].(consumers := Without(ps[i].consumers, c))
  {
    seq(|ps|, i requires 0 <= i < |ps| => ps[i].(consumers := Without(ps[i].consumers, c)))
  }

  // The partitions after new messages are counted on one of them; an unknown id is ignored.
  function Counted(ps: seq<Partition>, id: nat, messageCount: int, size: int, now: int): (qs: seq<Partition>)
    ensures |qs| == |ps| && forall i :: 0 <= i < |ps| && i != id ==> qs[i] == ps[i]
    ensures id < |ps| ==>
      && qs[id].messageCount - ps[id].messageCount == messageCount && qs[id].size - ps[id].size == size
      && qs[id].endOffset - ps[id].endOffset == (if messageCount > 0 then messageCount else 0)
      && qs[id].lastActivity == now && qs[id].startOffset == ps[id].startOffset
      && qs[id].id == ps[id].id && qs[id].consumers == ps[id].consumers
  {
    if id >= |ps| then ps
    else ps[id := ps[id].(
      messageCount := ps[id].messageCount + messageCount, size := ps[id].size + size, lastActivity := now,
      endOffset := ps[id].endOffset + (if messageCount > 0 then messageCount else 0))]
  }

  function Without(s: seq<string>, c: string): (r: seq<string>)
    ensures |r| <= |s|
  {
    if s == [] then []
    else Without(s[..|s| - 1], c) + (if s[|s| - 1] == c then [] else [s[|s| - 1]])
  }

  lemma {:induction false} WithoutHas(s: seq<string>, c: string, d: string)
    ensures d in Without(s, c) <==> d != c && d in s
  {
    if s != [] { WithoutHas(s[..|s| - 1], c, d); }
  }

  method DropConsumer(s: seq<string>, c: string) returns (r: seq<string>)
    ensures r == Without(s, c)
  {
    r := [];
    for i := 0 to |s|
      invariant r == Without(s[..i], c)
    {
      assert s[..i + 1][..i] == s[..i];
      if s[i] != c {
        r := r + [s[i]];
      }
    }
    assert s[..|s|] == s;
  }

  // Deals the partitions out to the consumers in turn.
  method OptimalAssignment(ps: seq<Partition>, consumers: seq<string>) returns (next: ConsumerMap)
    requires forall i :: 0 <= i < |ps| ==> ps[i].id == i
    requires Distinct(consumers)
    ensures forall c :: c in next <==> c in consumers
    ensures forall j :: 0 <= j < |consumers| ==> next[consumers[j]] == Strided(j, |consumers|, |ps|)
    ensures forall j, p :: 0 <= j < |consumers| ==>
      (p in next[consumers[j]] <==> 0 <= p < |ps| && p % |consumers| == j)
  {
    hide Strided;
    next := EmptyLists(consumers);
    if |consumers| == 0 { return; }
    var n := |consumers|;
    forall j | 0 <= j < n ensures Strided(j, n, 0) == [] { StridedEmpty(j, n); }
    for i := 0 to |ps|
      invariant forall c :: c in next <==> c in consumers
      invariant forall j :: 0 <= j < n ==> next[consumers[j]] == Strided(j, n, i)
    {
      var j := i % n;
      forall k | 0 <= k < n ensures k != j ==> consumers[k] != consumers[j] {
        if k < j { assert consumers[k] != consumers[j]; }
      }
      forall k | 0 <= k < n
        ensures Strided(k, n, i + 1) == if k == j then Strided(k, n, i) + [i] else Strided(k, n, i)
      {
        StridedStep(k, n, i);
      }
      next := next[consumers[j] := next[consumers[j]] + [ps[i].id]];
    }
    forall j, p | 0 <= j < n ensures p in next[consumers[j]] <==> 0 <= p < |ps| && p % n == j {
      StridedHas(j, n, |ps|, p);
    }
  }

  method EmptyLists(consumers: seq<string>) returns (next: ConsumerMap)
    ensures forall c :: c in next <==> c in consumers
    ensures forall c :: c in next ==> next[c] == []
  {
    next := map[];
    for j := 0 to |consumers|
      invariant forall c :: c in next <==> c in consumers[..j]
      invariant forall c :: c in next ==> next[c] == []
    {
      next := next[consumers[j] := []];
    }
  }

  // The partitions of `ids` that consumer c did not hold.
  method MovesFor(c: string, ids: seq<int>, held: seq<int>, ps: seq<Partition>) returns (details: seq<Detail>)
    requires Distinct(ids) && forall p :: p in ids ==> 0 <= p < |ps|
    ensures Enumerates(IdsOf(details), set p | p in ids && p !in held)
    ensures forall d :: d in details ==>
      0 <= d.partitionID < |ps| && d == Detail(d.partitionID, c, ps[d.partitionID].messageCount)
  {
    details := [];
    for k := 0 to |ids|
      invariant Enumerates(IdsOf(details), set p | p in ids[..k] && p !in held)
      invariant forall d :: d in details ==>
        0 <= d.partitionID < |ps| && d == Detail(d.partitionID, c, ps[d.partitionID].messageCount)
    {
      var p := ids[k];
      var wasAssigned := false;
      for m := 0 to |held|
        invariant wasAssigned <==> p in held[..m]
      {
        if held[m] == p {
          wasAssigned := true;
          assert p in held;
          break;
        }
      }
      assert p in ids && p !in ids[..k];
      assert ids[..k + 1] == ids[..k] + [p];
      assert (set q | q in ids[..k + 1] && q !in held)
          == (set q | q in ids[..k] && q !in held) + (if wasAssigned then {} else {p});
      if !wasAssigned {
        var d := Detail(p, c, ps[p].messageCount);
        assert IdsOf(details + [d]) == IdsOf(details) + [p];
        details := details + [d];
      }
    }
    assert ids[..|ids|] == ids;
  }

  method PointAt(c: string, ids: seq<int>, ps: seq<Partition>) returns (qs: seq<Partition>)
    requires forall p :: p in ids ==> 0 <= p < |ps|
    ensures |qs| == |ps|
    ensures forall i :: 0 <= i < |ps| ==> qs[i] == if i in ids then ps[i].(consumers := [c]) else ps[i]
  {
    qs := ps;
    for k := 0 to |ids|
      invariant |qs| == |ps|
      invariant forall i :: 0 <= i < |ps| ==> qs[i] == if i in ids[..k] then ps[i].(consumers := [c]) else ps[i]
    {
      assert ids[k] in ids && ids[..k + 1] == ids[..k] + [ids[k]];
      if ids[k] < |qs| {
        qs := qs[ids[k] := qs[ids[k]].(consumers := [c])];
      }
    }
  }

  /* All topics */

  class Manager {
    var assignments: map<string, Assignment>

    // Every topic's index is consistent, and no two topics share one.
    ghost predicate Valid()
      reads this, assignments.Values
    {
      && (forall t :: t in assignments ==> assignments[t].Valid())
      && (forall t, u :: t in assignments && u in assignments && assignments[t] == assignments[u] ==> t == u)
    }

    ghost function Footprint(): set<object>
      reads this
    {
      set t | t in assignments :: assignments[t]
    }

    // No other topic is touched.
    twostate predicate Others(topic: string)
      reads this, assignments.Values
    {
      && assignments.Keys - {topic} == old(assignments).Keys - {topic}
      && forall t :: t in old(assignments) && t in assignments && t != topic ==>
           assignments[t] == old(assignments[t]) && unchanged(assignments[t])
    }

    constructor ()
      ensures Valid() && assignments == map[]
    {
      assignments := map[];
    }

    method InitializePartitions(topic: string, parts: nat, now: int)
      requires Valid()
      modifies this
      ensures Valid() && Others(topic)
      ensures topic in assignments && fresh(assignments[topic])
      ensures assignments[topic].consumerMap == map[] && |assignments[topic].partitions| == parts
      ensures forall i :: 0 <= i < parts ==> assignments[topic].partitions[i] == Partition(i, 0, 0, 0, 0, [], now)
    {
      var a := new Assignment(parts, now);
      assignments := assignments[topic := a];
    }

    // The rebalance of a known topic never finds another one in progress.
    method RebalancePartitions(topic: string, now: int) returns (r: Result<RebalanceResult>, ghost order: seq<string>)
      requires Valid()
      modifies Footprint()
      ensures Valid() && Others(topic) && assignments == old(assignments)
      ensures if topic in assignments then r.Ok? else r == TopicNotFound
      ensures topic in assignments ==>
        var a, was := assignments[topic], old(assignments[topic].consumerMap);
        && Enumerates(order, was.Keys) && a.consumerMap.Keys == was.Keys
        && |a.partitions| == old(|a.partitions|)
        && if order == [] then
             a.consumerMap == was && a.partitions == old(a.partitions) && r.value == RebalanceResult(0, [])
           else
             && RoundRobinBy(a.consumerMap, a.partitions, order)
             && (forall i :: 0 <= i < |a.partitions| ==>
                   a.partitions[i] == old(a.partitions)[i].(consumers := [order[i % |order|]]))
             && Reports(r.value.details, Moved(was, |a.partitions|, order), order, old(a.partitions))
             && r.value.partitionsMoved == |r.value.details| == |Moved(was, |a.partitions|, order)|
    {
      order := [];
      if topic !in assignments {
        return TopicNotFound, order;
      }
      r, order := assignments[topic].Rebalance(now);
    }

    method AddConsumer(topic: string, c: string) returns (r: Result<()>)
      requires Valid()
      modifies Footprint()
      ensures Valid() && Others(topic) && assignments == old(assignments)
      ensures r == if topic in assignments then Ok(()) else TopicNotFound
      ensures topic in assignments ==>
        var a, was := assignments[topic], old(assignments[topic].consumerMap);
        a.consumerMap == (if c in was then was else was[c := []]) && a.partitions == old(a.partitions)
    {
      if topic !in assignments { return TopicNotFound; }
      assignments[topic].AddConsumer(c);
      r := Ok(());
    }

    method RemoveConsumer(topic: string, c: string) returns (r: Result<()>)
      requires Valid()
      modifies Footprint()
      ensures Valid() && Others(topic) && assignments == old(assignments)
      ensures r == if topic in assignments then Ok(()) else TopicNotFound
      ensures topic in assignments ==>
        && assignments[topic].consumerMap == old(assignments[topic].consumerMap) - {c}
        && assignments[topic].partitions == Struck(old(assignments[topic].partitions), c)
    {
      if topic !in assignments { return TopicNotFound; }
      assignments[topic].RemoveConsumer(c);
      r := Ok(());
    }

    method UpdatePartitionStats(topic: string, partitionID: nat, messageCount: int, size: int, now: int)
      requires Valid()
      modifies Footprint()
      ensures Valid() && Others(topic) && assignments == old(assignments)
      ensures topic in assignments ==>
        && assignments[topic].consumerMap == old(assignments[topic].consumerMap)
        && assignments[topic].partitions
             == Counted(old(assignments[topic].partitions), partitionID, messageCount, size, now)
    {
      if topic !in assignments { return; }
      assignments[topic].UpdateStats(partitionID, messageCount, size, now);
    }

    method CleanupPartitions(topic: string)
      requires Valid()
      modifies this
      ensures Valid() && Others(topic) && topic !in assignments
    {
      assignments := assignments - {topic};
    }
  }
}
