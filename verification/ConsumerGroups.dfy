// The consumer-group half of the subscriber service: join, leave, heartbeat sweep and
// rebalance over the map of active groups.  Each method is one critical section of the
// source (ProcessConsumerHeartbeats is the sweep's sequence of them), and is a step of
// GroupProtocol for the group it names, leaving every other group alone.

module ConsumerGroups {
  import opened Enumerations
  import opened Options
  import opened RangeAssignment
  import opened GroupProtocol

  // A consumer that has not pulled for this many nanoseconds is dead.
  const DEAD_AFTER := 60_000_000_000

  function Dead(g: Group, now: int): set<ConsumerId> {
    set id | id in g.consumers && now - g.consumers[id].lastPull > DEAD_AFTER
  }

  function Swept(g: Group, now: int): Group {
    if Dead(g, now) == {} then g
    else g.(consumers := g.consumers - Dead(g, now), rebalancing := true)
  }

  // A sweep removes exactly the consumers that have not pulled for more than sixty seconds, and
  // sets the flag if it has removed one.
  ghost predicate SweptOf(g: Group, h: Group, now: int) {
    && (forall id :: id in h.consumers <==>
          id in g.consumers && now - g.consumers[id].lastPull <= 60_000_000_000)
    && (forall id :: id in h.consumers ==> h.consumers[id] == g.consumers[id])
    && h == g.(consumers := h.consumers, rebalancing := h.rebalancing)
    && (h.rebalancing <==> g.rebalancing || h.consumers != g.consumers)
  }

  lemma SweptIs(g: Group, now: int)
    ensures SweptOf(g, Swept(g, now), now)
  {
    var h := Swept(g, now);
    if Dead(g, now) != {} {
      var id :| id in Dead(g, now);
      assert id in g.consumers && id !in h.consumers;
    } else {
      assert forall id :: id in g.consumers ==> id !in Dead(g, now);
    }
  }

  // A consumer's pulls and the sweeps of its group, in any order.
  datatype Beat = Pull(id: ConsumerId, at: int) | Sweep(at: int)

  function AfterBeats(g: Group, beats: seq<Beat>): Group {
    if beats == [] then g
    else
      var h := AfterBeats(g, beats[..|beats| - 1]);
      match beats[|beats| - 1]
      case Pull(id, at) =>
        if id in h.consumers then h.(consumers := h.consumers[id := h.consumers[id].(lastPull := at)]) else h
      case Sweep(at) => Swept(h, at)
  }

  function LastPull(beats: seq<Beat>, id: ConsumerId, first: int): int {
    if beats == [] then first
    else
      var last := beats[|beats| - 1];
      if last.Pull? && last.id == id then last.at else LastPull(beats[..|beats| - 1], id, first)
  }

  // A consumer whose last pull is at most sixty seconds old at every sweep is never removed.
  lemma {:induction false} PullingKeepsMember(g: Group, beats: seq<Beat>, id: ConsumerId)
    requires id in g.consumers
    requires forall i :: 0 <= i < |beats| && beats[i].Sweep? ==>
      beats[i].at - LastPull(beats[..i], id, g.consumers[id].lastPull) <= 60_000_000_000
    ensures id in AfterBeats(g, beats).consumers
    ensures AfterBeats(g, beats).consumers[id].lastPull == LastPull(beats, id, g.consumers[id].lastPull)
    decreases |beats|
  {
    if beats != [] {
      var n := |beats| - 1;
      assert forall i :: 0 <= i < n ==> beats[..n][i] == beats[i] && beats[..n][..i] == beats[..i];
      PullingKeepsMember(g, beats[..n], id);
      if beats[n].Sweep? { SweptIs(AfterBeats(g, beats[..n]), beats[n].at); }
    }
  }

  // One silent for longer is removed by the next sweep.
  lemma SilentIsRemoved(g: Group, id: ConsumerId, now: int)
    requires id in g.consumers && now - g.consumers[id].lastPull > 60_000_000_000
    ensures id !in AfterBeats(g, [Sweep(now)]).consumers && AfterBeats(g, [Sweep(now)]).rebalancing
  {
    assert [Sweep(now)][..0] == [];
    SweptIs(g, now);
  }

  // A visit clears the flag, whatever comes of it, and keeps every member.
  predicate Visited(g: Group, h: Group, now: int) {
    if g.rebalancing && now - g.lastRebalance > 5_000_000_000 then
      !h.rebalancing && h.lastRebalance == now && h.topic == g.topic && h.consumers.Keys == g.consumers.Keys
    else h == g
  }

  lemma VisitIs(s: State, now: int, found: Option<nat>, t: State)
    requires Next(s, Rebalance(now, found), t)
    ensures Visited(s.group, t.group, now)
  {
    hide Enumerates;
  }

  class Service {
    var groups: map<string, Group>
    ghost var joins: map<string, nat>   // inserted, trigger still to come
    ghost var sweeping: set<string>     // dead consumer removed, flag write still to come
    ghost var parts: map<string, nat>   // partition count of the last assignment

    ghost function View(name: string): State
      requires name in groups
      reads this
    {
      State(groups[name], if name in joins then joins[name] else 0, name in sweeping,
            if name in parts then Some(parts[name]) else None)
    }

    // The bookkeeping speaks of existing groups only.
    ghost predicate Valid()
      reads this
    {
      joins.Keys <= groups.Keys && sweeping <= groups.Keys && parts.Keys <= groups.Keys
    }

    // Every group other than `name` is as it was.
    twostate predicate Others(name: string)
      reads this
    {
      && (forall g :: g != name ==> (g in groups <==> g in old(groups)))
      && forall g :: g in groups && g in old(groups) && g != name ==> View(g) == old(View(g))
    }

    constructor ()
      ensures Valid() && groups == map[] && joins == map[] && sweeping == {} && parts == map[]
    {
      groups, joins, sweeping, parts := map[], map[], {}, map[];
    }

    // The locked insertion of JoinConsumerGroup; `topic` is the stored group's topic.
    method JoinInsert(topic: string, name: string, id: ConsumerId, now: int)
      requires Valid()
      modifies this
      ensures Valid()
      ensures name in groups && Others(name)
      ensures Next(if old(name in groups) then old(View(name)) else NewGroup(topic),
                   Step.JoinInsert(id, now), View(name))
      // the member has no partitions yet; a new group is flagged and has no other member
      ensures
        var members := if old(name in groups) then old(groups)[name].consumers else map[];
        && groups[name].consumers == members[id := Consumer([], now)]
        && (old(name !in groups) ==> groups[name].rebalancing && groups[name].topic == topic)
    {
      if name !in groups {
        groups := groups[name := Group(topic, map[], true, NEVER)];
      }
      var g := groups[name];
      groups := groups[name := g.(consumers := g.consumers[id := Consumer([], now)])];
      joins := joins[name := (if name in joins then joins[name] else 0) + 1];
    }

    // An uninterrupted join: the consumer is in the group, the flag is set, and the partitions
    // reported back are none, since the rebalance itself comes later.  `stored` is the topic of
    // the group the consumer repository finds or creates, None when it does neither.
    method JoinConsumerGroup(topic: string, stored: Option<string>, name: string, id: ConsumerId, now: int)
      returns (r: Option<seq<int>>)
      requires Valid()
      modifies this
      ensures Valid()
      ensures r == None <==> topic == "" || name == "" || stored == None
      ensures r == None ==> unchanged(this)
      ensures r.Some? ==>
        && r.value == [] && Others(name) && name in groups
        && var before := if old(name in groups) then old(View(name)) else NewGroup(stored.value);
           View(name) == before.(group := before.group.(
             rebalancing := true, consumers := before.group.consumers[id := Consumer([], now)]))
    {
      if topic == "" || name == "" { return None; }
      if stored.None? { return None; }
      JoinInsert(stored.value, name, id, now);
      TriggerRebalance(name);
      r := Some(groups[name].consumers[id].partitions);
    }

    method TriggerRebalance(name: string)
      requires Valid()
      modifies this
      ensures Valid()
      ensures Others(name)
      ensures old(name in groups) ==> name in groups && Next(old(View(name)), Trigger, View(name))
      ensures old(name in groups) ==> groups[name] == old(groups)[name].(rebalancing := true)
      ensures old(name !in groups) ==> unchanged(this)
    {
      if name in groups {
        groups := groups[name := groups[name].(rebalancing := true)];
        if name in joins && joins[name] > 0 {
          joins := joins[name := joins[name] - 1];
        }
      }
    }

    method LeaveConsumerGroup(name: string, id: ConsumerId)
      requires Valid()
      modifies this
      ensures Valid()
      ensures Others(name)
      ensures old(name in groups) ==> name in groups && Next(old(View(name)), Leave(id), View(name))
      ensures old(name in groups) ==>
        groups[name] == old(groups)[name].(consumers := old(groups)[name].consumers - {id}, rebalancing := true)
      ensures old(name !in groups) ==> unchanged(this)
    {
      if name in groups {
        var g := groups[name];
        if id in g.consumers {
          g := g.(consumers := g.consumers - {id});
        }
        assert g.consumers == groups[name].consumers - {id};
        groups := groups[name := g.(rebalancing := true)];
      }
    }

    method UpdateConsumerHeartbeat(name: string, id: ConsumerId, now: int)
      requires Valid()
      modifies this
      ensures Valid()
      ensures Others(name)
      ensures old(name in groups) ==> name in groups && Next(old(View(name)), Heartbeat(id, now), View(name))
      ensures old(name in groups && id in groups[name].consumers) ==>
        groups[name].consumers == old(groups)[name].consumers[id :=
          old(groups)[name].consumers[id].(lastPull := now)]
      ensures old(name !in groups) ==> unchanged(this)
    {
      if name in groups {
        var g := groups[name];
        if id in g.consumers {
          groups := groups[name := g.(consumers := g.consumers[id := g.consumers[id].(lastPull := now)])];
        }
      }
    }

    method RemoveDeadConsumer(name: string, id: ConsumerId)
      requires Valid()
      modifies this
      ensures Valid()
      ensures Others(name) && joins == old(joins) && parts == old(parts)
      ensures old(name in groups) ==>
        && name in groups && Next(old(View(name)), RemoveDead(id), View(name))
        && groups == old(groups)[name := groups[name]] && sweeping == old(sweeping) + {name}
      ensures old(name !in groups) ==> unchanged(this)
    {
      if name in groups {
        var g := groups[name];
        groups := groups[name := g.(consumers := g.consumers - {id})];
        sweeping := sweeping + {name};
      }
    }

    // The write of the flag that ends the heartbeat sweep of one group.
    method FlagDead(name: string)
      requires Valid() && name in groups
      modifies this
      ensures Valid()
      ensures Others(name) && joins == old(joins) && parts == old(parts)
      ensures name in groups && Next(old(View(name)), Step.FlagDead, View(name))
      ensures groups == old(groups)[name := groups[name]] && sweeping == old(sweeping) - {name}
    {
      groups := groups[name := groups[name].(rebalancing := true)];
      sweeping := sweeping - {name};
    }

    // An uninterrupted heartbeat sweep removes exactly the dead consumers of every group and
    // requests a rebalance exactly where it removed one.
    method ProcessConsumerHeartbeats(now: int)
      requires Valid() && sweeping == {}
      modifies this
      ensures Valid()
      ensures forall name :: name in groups ==> name in old(groups) && SweptOf(old(groups)[name], groups[name], now)
      ensures groups.Keys == old(groups).Keys && sweeping == {} && joins == old(joins) && parts == old(parts)
      ensures forall name :: name in groups ==> groups[name] == Swept(old(groups)[name], now)
    {
      var names := groups.Keys;
      while names != {}
        invariant Valid() && names <= groups.Keys == old(groups).Keys
        invariant sweeping == {} && joins == old(joins) && parts == old(parts)
        invariant forall name :: name in groups ==>
          groups[name] == if name in names then old(groups)[name] else Swept(old(groups)[name], now)
        decreases names
      {
        var name :| name in names;
        SweepGroup(name, now);
        names := names - {name};
      }
      forall name | name in groups ensures SweptOf(old(groups)[name], groups[name], now) {
        SweptIs(old(groups)[name], now);
      }
    }

    method SweepGroup(name: string, now: int)
      requires Valid() && name in groups && sweeping == {}
      modifies this
      ensures Valid()
      ensures groups == old(groups)[name := Swept(old(groups)[name], now)]
      ensures sweeping == {} && joins == old(joins) && parts == old(parts)
    {
      var g := groups[name];
      var dead := Dead(g, now);
      var left := dead;
      assert g.consumers - (dead - left) == g.consumers;
      while left != {}
        invariant Valid() && left <= dead && joins == old(joins) && parts == old(parts)
        invariant sweeping == if left == dead then {} else {name}
        invariant groups == old(groups)[name := g.(consumers := g.consumers - (dead - left))]
        decreases left
      {
        var id :| id in left;
        assert g.consumers - (dead - left) - {id} == g.consumers - (dead - (left - {id}));
        RemoveDeadConsumer(name, id);
        left := left - {id};
      }
      if dead != {} {
        FlagDead(name);
      }
      assert dead - {} == dead;
    }

    // One tick of the rebalance worker; `lookup` is the topic repository's partition count.
    method ProcessRebalancing(now: int, lookup: string -> Option<nat>)
      requires Valid()
      modifies this
      ensures Valid()
      ensures groups.Keys == old(groups).Keys
      ensures forall name :: name in groups ==>
        Next(old(View(name)), Rebalance(now, lookup(old(groups)[name].topic)), View(name))
      // a flagged group is visited if its last visit is more than five seconds ago
      ensures forall name :: name in groups ==> Visited(old(groups)[name], groups[name], now)
    {
      var names := groups.Keys;
      while names != {}
        invariant Valid() && names <= groups.Keys == old(groups).Keys
        invariant joins == old(joins) && sweeping == old(sweeping)
        invariant forall name :: name in names ==> View(name) == old(View(name))
        invariant forall name :: name in groups && name !in names ==>
          Next(old(View(name)), Rebalance(now, lookup(old(groups)[name].topic)), View(name))
        decreases names
      {
        var name :| name in names;
        VisitGroup(name, now, lookup(groups[name].topic));
        names := names - {name};
      }
      forall name | name in groups ensures Visited(old(groups)[name], groups[name], now) {
        VisitIs(old(View(name)), now, lookup(old(groups)[name].topic), View(name));
      }
    }

    method VisitGroup(name: string, now: int, found: Option<nat>)
      requires Valid() && name in groups
      modifies this
      ensures Valid()
      ensures Others(name) && groups.Keys == old(groups).Keys && joins == old(joins) && sweeping == old(sweeping)
      ensures name in groups && Next(old(View(name)), Rebalance(now, found), View(name))
    {
      var g := groups[name];
      hide AssignedBy, Enumerates;
      if g.rebalancing && now - g.lastRebalance > REBALANCE_INTERVAL {
        var h := RebalanceConsumerGroup(g, found);
        h := h.(rebalancing := false, lastRebalance := now);
        assert Rebalanced(g, h, now, found);
        hide Rebalanced;
        SetGroup(name, h, if g.consumers != map[] then found else None);
      }
    }

    // Replaces one group; `covered` is the partition count of its assignment, if it had one.
    method SetGroup(name: string, h: Group, covered: Option<nat>)
      requires Valid() && name in groups
      modifies this
      ensures Valid()
      ensures Others(name) && groups == old(groups)[name := h] && joins == old(joins) && sweeping == old(sweeping)
      ensures name in groups
      ensures View(name) ==
        old(View(name)).(group := h, parts := if covered.Some? then covered else old(View(name)).parts)
    {
      groups := groups[name := h];
      if covered.Some? {
        parts := parts[name := covered.value];
      }
    }
  }

  // Gives the k-th consumer the k-th block, whatever the iteration order; without consumers,
  // or when the topic lookup fails, the group is left as it is.
  method RebalanceConsumerGroup(g: Group, lookup: Option<nat>) returns (h: Group)
    ensures h == g.(consumers := h.consumers)
    ensures if g.consumers == map[] || lookup.None? then h == g
            else exists order :: AssignedBy(g.consumers, h.consumers, order, lookup.value)
  {
    h := g;
    var order := Enumerate(g.consumers.Keys);
    if |order| == 0 {
      assert forall id :: id in g.consumers ==> id in order;
      return;
    }
    if lookup.None? { return; }
    var assignment := AssignBlocks(g.consumers, order, lookup.value);
    h := g.(consumers := assignment);
  }

  // The assignment loop: the k-th consumer of the order gets the k-th block.
  method AssignBlocks(consumers: map<ConsumerId, Consumer>, order: seq<ConsumerId>, parts: nat)
    returns (after: map<ConsumerId, Consumer>)
    requires Enumerates(order, consumers.Keys) && |order| > 0
    ensures AssignedBy(consumers, after, order, parts)
    ensures forall k :: 0 <= k < |order| ==>
      order[k] in after && |after[order[k]].partitions| == parts / |order| + (if k < parts % |order| then 1 else 0)
  {
    hide Start, Range;
    var n := |order|;
    var base, extra := parts / n, parts % n;
    var next := 0;
    after := consumers;
    StartEnds(parts, n);
    for i := 0 to n
      invariant next == Start(i, parts, n)
      invariant after.Keys == consumers.Keys
      invariant forall k :: 0 <= k < n ==> order[k] in consumers
      invariant forall k :: 0 <= k < i ==>
        after[order[k]] == consumers[order[k]].(partitions := Block(k, parts, n))
      invariant forall k :: i <= k < n ==> after[order[k]] == consumers[order[k]]
    {
      StartAdvances(i, parts, n);
      var mine := TakePartitions(next, if i < extra then base + 1 else base);
      assert mine == Block(i, parts, n);
      next := next + |mine|;
      after := after[order[i] := after[order[i]].(partitions := mine)];
    }
    forall k | 0 <= k < n ensures |after[order[k]].partitions| == base + (if k < extra then 1 else 0) {
      BlockIs(k, parts, n);
    }
  }

  // The next `size` partitions, starting at partition `next`.
  method TakePartitions(next: nat, size: nat) returns (mine: seq<int>)
    ensures mine == Range(next, next + size)
  {
    mine := [];
    for j := 0 to size
      invariant mine == Range(next, next + j)
    {
      mine := mine + [next + j];
    }
  }
}
