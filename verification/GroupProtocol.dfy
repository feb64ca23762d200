// The rebalance protocol of one consumer group, as a state machine over the critical
// sections of the subscriber service.  Membership changes and the write of the
// `rebalancing` flag can lie in different critical sections; two tokens record the calls
// that are between them:
//   joins    - JoinConsumerGroup calls that have inserted a consumer and not yet called
//              triggerRebalance;
//   sweeping - the heartbeat worker has removed a dead consumer and not yet set the flag.

module GroupProtocol {
  import opened Enumerations
  import opened Options
  import opened RangeAssignment

  type ConsumerId = string

  datatype Consumer = Consumer(partitions: seq<int>, lastPull: int)

  datatype Group = Group(
    topic: string, consumers: map<ConsumerId, Consumer>, rebalancing: bool, lastRebalance: int)

  // `parts` is the partition count of the last assignment, None before the first one.
  datatype State = State(group: Group, joins: nat, sweeping: bool, parts: Option<nat>)

  datatype Step =
    | JoinInsert(id: ConsumerId, now: int)
    | Trigger
    | Leave(id: ConsumerId)
    | RemoveDead(id: ConsumerId)
    | FlagDead
    | Heartbeat(id: ConsumerId, now: int)
    | Rebalance(now: int, lookup: Option<nat>)

  // Nanoseconds the rebalance worker waits between two rebalances of a group.
  const REBALANCE_INTERVAL := 5_000_000_000

  // The time a Go program reads from a zero time.Time: before every clock reading.
  const NEVER := -62_135_596_800_000_000_000

  // The k-th consumer of `order` has the k-th block; nothing else about a consumer changes.
  ghost predicate AssignedBy(before: map<ConsumerId, Consumer>, after: map<ConsumerId, Consumer>,
                             order: seq<ConsumerId>, parts: nat) {
    && after.Keys == before.Keys
    && Enumerates(order, before.Keys)
    && forall k :: 0 <= k < |order| ==>
         after[order[k]] == before[order[k]].(partitions := Block(k, parts, |order|))
  }

  predicate Fires(g: Group, now: int) {
    g.rebalancing && now - g.lastRebalance > REBALANCE_INTERVAL
  }

  // One rebalance worker visit to a group: `g` becomes `h`.
  ghost predicate Rebalanced(g: Group, h: Group, now: int, lookup: Option<nat>) {
    if !Fires(g, now) then h == g
    else
      && h == g.(consumers := h.consumers, rebalancing := false, lastRebalance := now)
      && if g.consumers == map[] || lookup.None? then h.consumers == g.consumers
         else exists order :: AssignedBy(g.consumers, h.consumers, order, lookup.value)
  }

  ghost predicate Next(s: State, step: Step, t: State) {
    var g := s.group;
    match step
    case JoinInsert(id, now) =>
      t == s.(group := g.(consumers := g.consumers[id := Consumer([], now)]), joins := s.joins + 1)
    case Trigger =>
      t == s.(group := g.(rebalancing := true), joins := if s.joins > 0 then s.joins - 1 else 0)
    case Leave(id) =>
      t == s.(group := g.(consumers := g.consumers - {id}, rebalancing := true))
    case RemoveDead(id) =>
      t == s.(group := g.(consumers := g.consumers - {id}), sweeping := true)
    case FlagDead =>
      t == s.(group := g.(rebalancing := true), sweeping := false)
    case Heartbeat(id, now) =>
      t == if id in g.consumers
           then s.(group := g.(consumers := g.consumers[id := g.consumers[id].(lastPull := now)]))
           else s
    case Rebalance(now, lookup) =>
      && Rebalanced(g, t.group, now, lookup)
      && t == s.(group := t.group,
                 parts := if Assigns(g, now, lookup) then lookup else s.parts)
  }

  // The visit reaches the assignment loop.
  predicate Assigns(g: Group, now: int, lookup: Option<nat>) {
    Fires(g, now) && g.consumers != map[] && lookup.Some?
  }

  // A group as the first join creates it, just before its consumer is inserted.
  function NewGroup(topic: string): State {
    State(Group(topic, map[], true, NEVER), 0, false, None)
  }

  /* What the protocol keeps */

  function Parts(s: State): nat {
    if s.parts.Some? then s.parts.value else 0
  }

  // No partition is listed twice, by one consumer or by two, and all are in range.
  ghost predicate Disjoint(s: State) {
    var c := s.group.consumers;
    && (forall a, i :: a in c && 0 <= i < |c[a].partitions| ==> 0 <= c[a].partitions[i] < Parts(s))
    && (forall a, b, i, j ::
          && a in c && b in c && 0 <= i < |c[a].partitions| && 0 <= j < |c[b].partitions|
          && c[a].partitions[i] == c[b].partitions[j]
          ==> a == b && i == j)
  }

  ghost predicate Owned(s: State, p: int) {
    exists id :: id in s.group.consumers && p in s.group.consumers[id].partitions
  }

  ghost predicate Covered(s: State) {
    s.parts.Some? && forall p :: 0 <= p < s.parts.value ==> Owned(s, p)
  }

  // A rebalance is due or about to be requested.
  predicate Pending(s: State) {
    s.group.rebalancing || s.joins > 0 || s.sweeping
  }

  ghost predicate Inv(s: State) {
    Disjoint(s) && (Pending(s) || s.group.consumers == map[] || Covered(s))
  }

  predicate LookupSucceeds(step: Step) {
    step.Rebalance? ==> step.lookup.Some?
  }

  lemma AssignmentIsDisjoint(s: State, before: map<ConsumerId, Consumer>, order: seq<ConsumerId>, parts: nat)
    requires AssignedBy(before, s.group.consumers, order, parts) && s.parts == Some(parts)
    ensures Disjoint(s)
  {
    hide Start;
    var c := s.group.consumers;
    forall a, i | a in c && 0 <= i < |c[a].partitions| ensures 0 <= c[a].partitions[i] < parts {
      var k :| 0 <= k < |order| && order[k] == a;
      BlockIsWithin(k, c[a].partitions[i], parts, |order|);
    }
    forall a, b, i, j | a in c && b in c && 0 <= i < |c[a].partitions| && 0 <= j < |c[b].partitions|
      && c[a].partitions[i] == c[b].partitions[j] ensures a == b && i == j
    {
      var k :| 0 <= k < |order| && order[k] == a;
      var l :| 0 <= l < |order| && order[l] == b;
      BlocksDisjoint(k, l, c[a].partitions[i], parts, |order|);
    }
  }

  lemma AssignmentCovers(s: State, before: map<ConsumerId, Consumer>, order: seq<ConsumerId>, parts: nat)
    requires AssignedBy(before, s.group.consumers, order, parts) && s.parts == Some(parts)
    requires before != map[]
    ensures Covered(s)
  {
    hide Start;
    assert order != [] by {
      var id :| id in before;
      assert id in order;
    }
    BlocksPartition(parts, |order|);
    forall p | 0 <= p < parts ensures Owned(s, p) {
      assert InSomeBlock(p, parts, |order|);
      var k :| 0 <= k < |order| && p in Block(k, parts, |order|);
      assert order[k] in order;
      assert p in s.group.consumers[order[k]].partitions;
    }
  }

  // Every list is empty or as it was.
  ghost predicate NoNewPartitions(s: State, t: State) {
    && t.parts == s.parts
    && forall a :: a in t.group.consumers && t.group.consumers[a].partitions != [] ==>
         a in s.group.consumers && t.group.consumers[a].partitions == s.group.consumers[a].partitions
  }

  lemma OnlyAssignmentAdds(s: State, step: Step, t: State)
    requires Next(s, step, t) && !(step.Rebalance? && Assigns(s.group, step.now, step.lookup))
    ensures NoNewPartitions(s, t)
  {
    hide AssignedBy;
  }

  lemma FewerIsDisjoint(s: State, t: State)
    requires Disjoint(s) && NoNewPartitions(s, t)
    ensures Disjoint(t)
  {
  }

  // Every step keeps the lists disjoint, whether or not the topic lookup succeeds.
  lemma StepKeepsDisjoint(s: State, step: Step, t: State)
    requires Disjoint(s) && Next(s, step, t)
    ensures Disjoint(t)
  {
    hide Disjoint, NoNewPartitions, AssignedBy;
    if !(step.Rebalance? && Assigns(s.group, step.now, step.lookup)) {
      OnlyAssignmentAdds(s, step, t);
      FewerIsDisjoint(s, t);
    }
    if step.Rebalance? && Assigns(s.group, step.now, step.lookup) {
      var order :| AssignedBy(s.group.consumers, t.group.consumers, order, step.lookup.value);
      AssignmentIsDisjoint(t, s.group.consumers, order, step.lookup.value);
    }
  }

  lemma StepKeepsInv(s: State, step: Step, t: State)
    requires Inv(s) && Next(s, step, t) && LookupSucceeds(step)
    ensures Inv(t)
  {
    StepKeepsDisjoint(s, step, t);
    if step.Rebalance? && Assigns(s.group, step.now, step.lookup) {
      var order :| AssignedBy(s.group.consumers, t.group.consumers, order, step.lookup.value);
      AssignmentCovers(t, s.group.consumers, order, step.lookup.value);
    }
    if step.Heartbeat? && Covered(s) {
      forall p | 0 <= p < t.parts.value ensures Owned(t, p) {
        assert Owned(s, p);
        var id :| id in s.group.consumers && p in s.group.consumers[id].partitions;
        assert t.group.consumers[id].partitions == s.group.consumers[id].partitions;
      }
    }
  }

  // The flag is cleared even when the topic lookup fails.  Such a visit keeps the invariant
  // exactly when another request is still pending or nothing had to be reassigned.
  lemma FailedLookupStep(s: State, now: int, t: State)
    requires Inv(s) && Next(s, Rebalance(now, None), t) && Fires(s.group, now)
    ensures Inv(t) <==> s.joins > 0 || s.sweeping || s.group.consumers == map[] || Covered(s)
  {
    StepKeepsDisjoint(s, Rebalance(now, None), t);
    assert Covered(t) <==> Covered(s) by {
      assert forall p :: Owned(t, p) <==> Owned(s, p);
    }
  }

  /* Runs: states[0], steps[0], states[1], ... */

  ghost predicate Trace(states: seq<State>, steps: seq<Step>) {
    && |states| == |steps| + 1
    && forall i :: 0 <= i < |steps| ==> Next(states[i], steps[i], states[i + 1])
  }

  // In every interleaving the partition lists are pairwise disjoint and in range.
  lemma {:induction false} EveryRunIsDisjoint(topic: string, states: seq<State>, steps: seq<Step>, n: nat)
    requires Trace(states, steps) && states[0] == NewGroup(topic) && n < |states|
    ensures Disjoint(states[n])
  {
    if n > 0 {
      EveryRunIsDisjoint(topic, states, steps, n - 1);
      StepKeepsDisjoint(states[n - 1], steps[n - 1], states[n]);
    }
  }

  // In every interleaving whose lookups succeed, unless the flag is set or a request is on
  // its way, the lists cover the partitions of the last lookup or the group is empty.
  lemma {:induction false} EveryRunKeepsInv(topic: string, states: seq<State>, steps: seq<Step>, n: nat)
    requires Trace(states, steps) && states[0] == NewGroup(topic) && n < |states|
    requires forall i :: 0 <= i < |steps| ==> LookupSucceeds(steps[i])
    ensures Inv(states[n])
  {
    if n > 0 {
      EveryRunKeepsInv(topic, states, steps, n - 1);
      StepKeepsInv(states[n - 1], steps[n - 1], states[n]);
    }
  }

  lemma {:induction false} LastLookup(topic: string, states: seq<State>, steps: seq<Step>, n: nat, parts: nat)
    requires Trace(states, steps) && states[0] == NewGroup(topic) && n < |states|
    requires forall i :: 0 <= i < |steps| && steps[i].Rebalance? ==> steps[i].lookup == Some(parts)
    ensures states[n].parts == None || states[n].parts == Some(parts)
  {
    if n > 0 {
      LastLookup(topic, states, steps, n - 1, parts);
      assert Next(states[n - 1], steps[n - 1], states[n]);
    }
  }

  // With a fixed partition count P, a quiet, non-empty group covers exactly 0..P-1.
  lemma QuietGroupOwnsEverything(topic: string, states: seq<State>, steps: seq<Step>, n: nat, parts: nat)
    requires Trace(states, steps) && states[0] == NewGroup(topic) && n < |states|
    requires forall i :: 0 <= i < |steps| && steps[i].Rebalance? ==> steps[i].lookup == Some(parts)
    requires !Pending(states[n]) && states[n].group.consumers != map[]
    ensures forall p :: Owned(states[n], p) <==> 0 <= p < parts
  {
    EveryRunKeepsInv(topic, states, steps, n);
    LastLookup(topic, states, steps, n, parts);
    var s := states[n];
    forall p | Owned(s, p) ensures 0 <= p < parts {
      var id :| id in s.group.consumers && p in s.group.consumers[id].partitions;
      var i :| 0 <= i < |s.group.consumers[id].partitions| && s.group.consumers[id].partitions[i] == p;
    }
  }

  // A run in which the one visit of the rebalance worker finds no topic: the member is left
  // without partitions, and no request is pending.
  lemma FailedLookupStrands(topic: string, id: ConsumerId) returns (states: seq<State>, steps: seq<Step>)
    ensures Trace(states, steps) && states[0] == NewGroup(topic)
    ensures steps == [JoinInsert(id, 0), Trigger, Rebalance(0, None)]
    ensures id in states[3].group.consumers && !Pending(states[3]) && !Inv(states[3])
  {
    var joined := map[id := Consumer([], 0)];
    var s0 := NewGroup(topic);
    var s1 := s0.(group := s0.group.(consumers := joined), joins := 1);
    var s2 := s1.(joins := 0);
    var s3 := s2.(group := s2.group.(rebalancing := false, lastRebalance := 0));
    states, steps := [s0, s1, s2, s3], [JoinInsert(id, 0), Trigger, Rebalance(0, None)];
    assert Next(s0, steps[0], s1) && Next(s1, steps[1], s2) && Next(s2, steps[2], s3);
    assert Trace(states, steps);
    assert id in states[3].group.consumers;
  }

  /* Membership */

  // The last of the first n steps to add or remove the consumer added it.
  function Joined(steps: seq<Step>, id: ConsumerId, n: nat): bool
    requires n <= |steps|
  {
    if n == 0 then false
    else
      match steps[n - 1]
      case JoinInsert(i, _) => i == id || Joined(steps, id, n - 1)
      case Leave(i) => i != id && Joined(steps, id, n - 1)
      case RemoveDead(i) => i != id && Joined(steps, id, n - 1)
      case _ => Joined(steps, id, n - 1)
  }

  // In every interleaving the members are exactly the consumers that have joined and neither
  // left nor been removed since.
  lemma {:induction false} MembersHaveJoined(topic: string, states: seq<State>, steps: seq<Step>,
                                             id: ConsumerId, n: nat)
    requires Trace(states, steps) && states[0] == NewGroup(topic) && n < |states|
    ensures id in states[n].group.consumers <==> Joined(steps, id, n)
  {
    if n > 0 {
      assert Next(states[n - 1], steps[n - 1], states[n]);
      hide Next, Trace;
      MembersHaveJoined(topic, states, steps, id, n - 1);
      StepChangesMembers(states[n - 1], steps[n - 1], states[n], id);
    }
  }

  lemma StepChangesMembers(s: State, step: Step, t: State, id: ConsumerId)
    requires Next(s, step, t)
    ensures id in t.group.consumers <==>
      if step.JoinInsert? && step.id == id then true
      else if (step.Leave? || step.RemoveDead?) && step.id == id then false
      else id in s.group.consumers
  {
    hide Enumerates;
  }

  // Only a visit of the rebalance worker, more than five seconds after the last one, clears the flag.
  lemma FlaggedUntilVisited(s: State, step: Step, t: State)
    requires Next(s, step, t) && s.group.rebalancing && !t.group.rebalancing
    ensures step.Rebalance? && step.now - s.group.lastRebalance > 5_000_000_000
    ensures t.group.lastRebalance == step.now
  {
  }
}
