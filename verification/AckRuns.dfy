// What holds over every run of the acknowledgment service, mixed with publishing, deliveries
// and the administrator's operations in any order.

module AckRuns {
  import opened AckPolicy
  import opened AckSystem
  import opened Messages
  import opened Options

  /* Consumer fencing */

  predicate Unassigned(m: Message) {
    m.status in {Pending, Failed, DLQ} ==> m.consumerID == ""
  }

  // Messages are stored under their own id, and only a message that is out for delivery or
  // acknowledged names a consumer.
  ghost predicate Fenced(s: System) {
    forall id :: id in s.store ==> id != "" && s.store[id].id == id && Unassigned(s.store[id])
  }

  lemma PutKeepsFence(s: System, m: Message, stats: Stats)
    requires Fenced(s) && m.id != "" && Unassigned(m)
    ensures Fenced(System(s.store[m.id := m], stats))
  {
  }

  lemma FencedId(s: System, id: string)
    requires Fenced(s) && id in s.store
    ensures id != "" && s.store[id].id == id && Unassigned(s.store[id])
  {
  }

  lemma StepKeepsFence(cfg: Config, s: System, step: Step)
    requires Fenced(s) && Enabled(cfg, s, step)
    ensures Fenced(Apply(cfg, s, step))
  {
    hide Fenced, DLQHeaders, ReprocessedHeaders, ShouldRetry, ShouldMoveToDLQ, DueForReset, RetryDelay;
    var t := Apply(cfg, s, step);
    match step {
      case NoteAck(_) => NoteKeepsFence(s, t);
      case NoteExpired => NoteKeepsFence(s, t);
      case Publish(m) => PutKeepsFence(s, m, t.stats);
      case Orphan(id, copy, topic, reason, now) => PutKeepsFence(s, t.store[copy], t.stats);
      case Move(id, copy, _, _) =>
        FencedId(s, id);
        PutTwo(s, t.store[copy], t.store[id], t.stats);
      case AdminMove(id, copy, _, _, _) =>
        FencedId(s, id);
        PutTwo(s, t.store[copy], t.store[id], t.stats);
      case Reprocess(id, copy, _, _) =>
        FencedId(s, id);
        PutTwo(s, t.store[copy], t.store[id], t.stats);
      case _ =>
        FencedId(s, step.id);
        PutKeepsFence(s, t.store[step.id], t.stats);
    }
  }

  lemma NoteKeepsFence(s: System, t: System)
    requires Fenced(s) && t.store == s.store
    ensures Fenced(t)
  {
  }

  lemma PutTwo(s: System, m: Message, n: Message, stats: Stats)
    requires Fenced(s) && m.id != "" && Unassigned(m) && n.id != "" && Unassigned(n)
    ensures Fenced(System(s.store[m.id := m][n.id := n], stats))
  {
  }

  lemma {:induction false} EveryRunIsFenced(cfg: Config, s: System, steps: seq<Step>)
    requires Fenced(s) && Legal(cfg, s, steps)
    ensures Fenced(Run(cfg, s, steps))
    decreases |steps|
  {
    if steps != [] {
      hide Enabled, Apply, Fenced;
      StepKeepsFence(cfg, s, steps[0]);
      EveryRunIsFenced(cfg, Apply(cfg, s, steps[0]), steps[1..]);
    }
  }

  // Until the next delivery no ack, nack or expiry can take effect on a message that is
  // pending, failed or dead-lettered.
  lemma FenceBlocksConsumers(cfg: Config, s: System, step: Step, id: string)
    requires Fenced(s) && Enabled(cfg, s, step)
    requires id in s.store && s.store[id].status in {Pending, Failed, DLQ}
    requires step.StoreAck? || step.Requeue? || step.Fail? || step.Move?
    ensures step.id != id && Apply(cfg, s, step).store[id] == s.store[id]
  {
    hide DLQHeaders, ReprocessedHeaders, ShouldRetry, ShouldMoveToDLQ, DueForReset, RetryDelay;
  }

  /* What no step changes */

  predicate KeepsHeader(m: Message, n: Message, k: string) {
    k in m.headers ==> k in n.headers && n.headers[k] == m.headers[k]
  }

  predicate SameContent(m: Message, n: Message) {
    && n.id == m.id && n.topic == m.topic && n.partition == m.partition
    && n.key == m.key && n.payload == m.payload && n.maxRetries == m.maxRetries
    && KeepsHeader(m, n, "original_message_id") && KeepsHeader(m, n, "original_topic")
    && m.retryCount <= n.retryCount
  }

  lemma RequeuedKeeps(cfg: Config, m: Message, reason: string, custom: int, now: nat)
    ensures SameContent(m, Requeued(cfg, m, reason, custom, now))
  {
    hide RetryDelay;
  }

  lemma FailedKeeps(cfg: Config, m: Message, reason: string, now: nat)
    ensures SameContent(m, MarkedFailed(cfg, m, reason, now))
  {
  }

  lemma MovedKeeps(cfg: Config, m: Message, topic: string, copy: string, reason: string, now: nat)
    ensures SameContent(m, MarkedDLQ(cfg, m, topic, copy, reason, now))
  {
  }

  lemma ReprocessedKeeps(cfg: Config, m: Message, copy: string, now: nat)
    ensures SameContent(m, MarkedReprocessed(cfg, m, copy, now))
  {
  }

  lemma StepKeepsContent(cfg: Config, s: System, step: Step, id: string)
    requires Enabled(cfg, s, step) && id in s.store
    ensures id in Apply(cfg, s, step).store && SameContent(s.store[id], Apply(cfg, s, step).store[id])
  {
    hide DLQCopy, CopyTo, Reprocessed, Requeued, MarkedFailed, MarkedDLQ, MarkedReprocessed;
    hide ShouldRetry, ShouldMoveToDLQ, DueForReset;
    var m := s.store[id];
    match step {
      case Requeue(_, reason, custom, now) => RequeuedKeeps(cfg, m, reason, custom, now);
      case AdminRequeue(_, reason, custom, now) => RequeuedKeeps(cfg, m, reason, custom, now);
      case Fail(_, reason, now) => FailedKeeps(cfg, m, reason, now);
      case Move(_, copy, reason, now) => MovedKeeps(cfg, m, DLQTopic(cfg, m.topic), copy, reason, now);
      case AdminMove(_, copy, topic, reason, now) => MovedKeeps(cfg, m, topic, copy, reason, now);
      case Reprocess(_, copy, now, _) => ReprocessedKeeps(cfg, m, copy, now);
      case _ =>
    }
  }

  // No message is ever removed, none changes its topic, partition, key, payload or limit, and
  // no retry count decreases.
  lemma {:induction false} EveryRunKeepsContent(cfg: Config, s: System, steps: seq<Step>, id: string)
    requires Legal(cfg, s, steps) && id in s.store
    ensures id in Run(cfg, s, steps).store && SameContent(s.store[id], Run(cfg, s, steps).store[id])
    decreases |steps|
  {
    if steps != [] {
      hide Enabled, Apply;
      StepKeepsContent(cfg, s, steps[0], id);
      EveryRunKeepsContent(cfg, Apply(cfg, s, steps[0]), steps[1..], id);
    }
  }

  // The nack counter is never written.
  lemma {:induction false} NothingCountsNacks(cfg: Config, s: System, steps: seq<Step>)
    requires Legal(cfg, s, steps)
    ensures Run(cfg, s, steps).stats.nacked == s.stats.nacked
    decreases |steps|
  {
    if steps != [] {
      NothingCountsNacks(cfg, Apply(cfg, s, steps[0]), steps[1..]);
    }
  }

  function Noted(steps: seq<Step>): nat
    decreases |steps|
  {
    if steps == [] then 0 else (if steps[0].NoteAck? then 1 else 0) + Noted(steps[1..])
  }

  lemma {:induction false} AcknowledgedCountsNotes(cfg: Config, s: System, steps: seq<Step>)
    requires Legal(cfg, s, steps)
    ensures Run(cfg, s, steps).stats.acknowledged == s.stats.acknowledged + Noted(steps)
    decreases |steps|
  {
    if steps != [] { AcknowledgedCountsNotes(cfg, Apply(cfg, s, steps[0]), steps[1..]); }
  }

  // The rate the statistics report.
  function AckRate(stats: Stats): real {
    var total := stats.acknowledged + stats.nacked;
    if total > 0 then stats.acknowledged as real / total as real else 0.0
  }

  // Whatever fails or is refused, the reported rate of a new service is 1 from the first
  // successful ack on, and 0 before.
  lemma RateIsOneOrZero(cfg: Config, s: System, steps: seq<Step>)
    requires Legal(cfg, s, steps) && s.stats.acknowledged == s.stats.nacked == 0
    ensures AckRate(Run(cfg, s, steps).stats) == if Noted(steps) > 0 then 1.0 else 0.0
  {
    NothingCountsNacks(cfg, s, steps);
    AcknowledgedCountsNotes(cfg, s, steps);
    hide Run, Legal;
    if Noted(steps) > 0 { SelfRatio(Noted(steps) as real); }
  }

  lemma SelfRatio(a: real)
    requires a > 0.0
    ensures a / a == 1.0
  {
    var q := a / a;
    assert q * a == a;
    assert (q - 1.0) * a == 0.0;
  }

  /* Processing times */

  function NotedTime(step: Step): seq<int> {
    if step.NoteAck? && step.time > 0 then [step.time] else []
  }

  // The positive processing times that were reported, in order.
  function NotedTimes(steps: seq<Step>): seq<int>
    decreases |steps|
  {
    if steps == [] then [] else NotedTime(steps[0]) + NotedTimes(steps[1..])
  }

  function LastThousand(times: seq<int>): seq<int> {
    if |times| <= 1000 then times else times[|times| - 1000..]
  }

  // The window of a run holds the last thousand positive processing times, in order, of those
  // recorded before the run and during it.
  lemma {:induction false} WindowIsLastThousand(cfg: Config, s: System, steps: seq<Step>, before: seq<int>)
    requires Legal(cfg, s, steps) && s.stats.times == LastThousand(before)
    ensures Run(cfg, s, steps).stats.times == LastThousand(before + NotedTimes(steps))
    decreases |steps|
  {
    if steps == [] {
      assert before + [] == before;
    } else {
      hide Apply, Enabled, LastThousand, NotedTime;
      WindowStep(cfg, s, steps[0], before);
      var first := NotedTime(steps[0]);
      WindowIsLastThousand(cfg, Apply(cfg, s, steps[0]), steps[1..], before + first);
      assert before + first + NotedTimes(steps[1..]) == before + (first + NotedTimes(steps[1..]));
    }
  }

  lemma WindowStep(cfg: Config, s: System, step: Step, before: seq<int>)
    requires Enabled(cfg, s, step) && s.stats.times == LastThousand(before)
    ensures Apply(cfg, s, step).stats.times == LastThousand(before + NotedTime(step))
  {
    assert before + [] == before;
  }

  /* Bounded retries */

  // How many automatic requeues the message's limit still allows.
  function Budget(cfg: Config, m: Message): nat {
    if m.retryCount < RetryLimit(cfg, m) then RetryLimit(cfg, m) - m.retryCount else 0
  }

  function Requeues(steps: seq<Step>, id: string): nat
    decreases |steps|
  {
    if steps == [] then 0
    else (if steps[0].Requeue? && steps[0].id == id then 1 else 0) + Requeues(steps[1..], id)
  }

  lemma StepSpendsBudget(cfg: Config, s: System, step: Step, id: string)
    requires Enabled(cfg, s, step) && id in s.store
    ensures id in Apply(cfg, s, step).store
    ensures Requeues([step], id) + Budget(cfg, Apply(cfg, s, step).store[id]) <= Budget(cfg, s.store[id])
  {
    hide DLQHeaders, ReprocessedHeaders, ShouldMoveToDLQ, DueForReset, RetryDelay;
    StepKeepsContent(cfg, s, step, id);
    assert Requeues([step][1..], id) == 0;
  }

  // Under any mix of deliveries, failed acks, nacks, sweeps, administrator operations and
  // worker resets, a message is requeued automatically at most as often as its limit exceeds
  // its initial retry count.
  lemma {:induction false} RetriesAreBounded(cfg: Config, s: System, steps: seq<Step>, id: string)
    requires Legal(cfg, s, steps) && id in s.store
    ensures id in Run(cfg, s, steps).store
    ensures Requeues(steps, id) + Budget(cfg, Run(cfg, s, steps).store[id]) <= Budget(cfg, s.store[id])
    ensures var m := s.store[id];
      var limit := if m.maxRetries > 0 then m.maxRetries else cfg.maxRetries;
      Requeues(steps, id) <= if m.retryCount < limit then limit - m.retryCount else 0
    decreases |steps|
  {
    if steps != [] {
      hide Enabled, Apply;
      StepSpendsBudget(cfg, s, steps[0], id);
      assert [steps[0]][1..] == [];
      RetriesAreBounded(cfg, Apply(cfg, s, steps[0]), steps[1..], id);
    }
  }

  // An administrator's requeue spends the limit as well, but does not heed it: the count stays
  // within the limit exactly if it was below it.
  lemma AdminRequeueIgnoresLimit(cfg: Config, s: System, step: Step)
    requires Enabled(cfg, s, step) && step.AdminRequeue?
    ensures var m, n := s.store[step.id], Apply(cfg, s, step).store[step.id];
      n.retryCount <= RetryLimit(cfg, n) <==> m.retryCount < RetryLimit(cfg, m)
  {
    hide RetryDelay;
  }

  // A message with both of its two retries spent, requeued a third time.
  lemma RequeuedBeyondLimit(cfg: Config, s: System, id: string, topic: string)
    requires Fresh(s, id)
    ensures var m := Message(id, topic, 0, 0, [], [0], map[], Normal, AtLeastOnce, Failed, 2, 2,
                             "", "", 0, None, None, None, false, "");
      var before := s.(store := s.store[id := m]);
      var step := AdminRequeue(id, "manual", 0, 0);
      && Enabled(cfg, before, step)
      && Apply(cfg, before, step).store[id].retryCount == 3 > RetryLimit(cfg, Apply(cfg, before, step).store[id])
  {
    hide RetryDelay;
  }

  // A failed attempt: a failed ack, a nack or an expiry that took effect on the message.
  predicate IsAttempt(step: Step, id: string) {
    (step.Requeue? || step.Fail? || step.Move?) && step.id == id
  }

  function Attempts(steps: seq<Step>, id: string): nat
    decreases |steps|
  {
    if steps == [] then 0
    else (if IsAttempt(steps[0], id) then 1 else 0) + Attempts(steps[1..], id)
  }

  // The message is delivered only when pending, and neither the retry worker nor an
  // administrator requeues it; other messages may go through anything.
  predicate Undisturbed(cfg: Config, s: System, steps: seq<Step>, id: string)
    requires Legal(cfg, s, steps)
    decreases |steps|
  {
    steps == [] ||
    (Undisturbing(s, steps[0], id) && Undisturbed(cfg, Apply(cfg, s, steps[0]), steps[1..], id))
  }

  predicate Undisturbing(s: System, step: Step, id: string) {
    && (step.Deliver? && step.id == id && id in s.store ==> s.store[id].status == Pending)
    && ((step.WorkerReset? || step.AdminRequeue?) ==> step.id != id)
  }

  predicate Ended(m: Message) {
    m.status in {Failed, DLQ}
  }

  // Failed attempts that can still take effect on a message.
  function AttemptsLeft(cfg: Config, m: Message): nat {
    if Ended(m) then 0 else Budget(cfg, m) + 1
  }

  lemma StepSpendsAttempts(cfg: Config, s: System, step: Step, id: string)
    requires Fenced(s) && Enabled(cfg, s, step) && id in s.store
    requires Undisturbing(s, step, id)
    ensures id in Apply(cfg, s, step).store
    ensures (if IsAttempt(step, id) then 1 else 0) + AttemptsLeft(cfg, Apply(cfg, s, step).store[id])
         <= AttemptsLeft(cfg, s.store[id])
  {
    hide DLQHeaders, ReprocessedHeaders, ShouldMoveToDLQ, DueForReset, RetryDelay;
    StepKeepsContent(cfg, s, step, id);
  }

  // Then at most limit + 1 failed attempts take effect on the message, the last of them ending
  // it as failed or dead-lettered.
  lemma {:induction false} AttemptsAreBounded(cfg: Config, s: System, steps: seq<Step>, id: string)
    requires Fenced(s) && Legal(cfg, s, steps) && Undisturbed(cfg, s, steps, id) && id in s.store
    ensures id in Run(cfg, s, steps).store
    ensures Attempts(steps, id) + AttemptsLeft(cfg, Run(cfg, s, steps).store[id]) <= AttemptsLeft(cfg, s.store[id])
    ensures var m := s.store[id];
      var limit := if m.maxRetries > 0 then m.maxRetries else cfg.maxRetries;
      Attempts(steps, id) <= (if m.retryCount < limit then limit - m.retryCount else 0) + 1
    decreases |steps|
  {
    if steps != [] {
      hide Enabled, Apply, Fenced, IsAttempt, Undisturbing;
      StepSpendsAttempts(cfg, s, steps[0], id);
      StepKeepsFence(cfg, s, steps[0]);
      AttemptsAreBounded(cfg, Apply(cfg, s, steps[0]), steps[1..], id);
    }
  }

  lemma LastAttemptEnds(cfg: Config, s: System, steps: seq<Step>, id: string)
    requires Fenced(s) && Legal(cfg, s, steps) && Undisturbed(cfg, s, steps, id) && id in s.store
    requires Attempts(steps, id) > Budget(cfg, s.store[id])
    ensures id in Run(cfg, s, steps).store && Ended(Run(cfg, s, steps).store[id])
    ensures Attempts(steps, id) == Budget(cfg, s.store[id]) + 1
  {
    AttemptsAreBounded(cfg, s, steps, id);
  }

  /* Conservation in the dead-letter queue */

  // `copy` is a stored dead-letter copy of the message.
  ghost predicate CopiedAs(s: System, id: string, copy: string) {
    && id in s.store && copy in s.store
    && var m, d := s.store[id], s.store[copy];
       && d.key == m.key && d.payload == m.payload && d.partition == m.partition
       && "original_message_id" in d.headers && d.headers["original_message_id"] == id
  }

  // The message, if dead-lettered, names its copy in its headers.
  ghost predicate Linked(s: System, id: string) {
    id in s.store && (s.store[id].status == DLQ ==>
      "dlq_message_id" in s.store[id].headers && CopiedAs(s, id, s.store[id].headers["dlq_message_id"]))
  }

  function MovedIds(steps: seq<Step>): set<string>
    decreases |steps|
  {
    if steps == [] then {}
    else (if steps[0].Move? || steps[0].AdminMove? then {steps[0].id} else {}) + MovedIds(steps[1..])
  }

  lemma StepKeepsCopied(cfg: Config, s: System, step: Step, id: string, copy: string)
    requires Enabled(cfg, s, step) && CopiedAs(s, id, copy)
    ensures CopiedAs(Apply(cfg, s, step), id, copy)
  {
    hide Enabled, Apply;
    StepKeepsContent(cfg, s, step, id);
    StepKeepsContent(cfg, s, step, copy);
  }

  lemma DLQHeadersName(cfg: Config, m: Message, reason: string, now: nat)
    ensures var h := DLQHeaders(cfg, m, reason, now);
      && "original_message_id" in h && h["original_message_id"] == m.id
      && "original_topic" in h && h["original_topic"] == m.topic
      && "dlq_reason" in h && h["dlq_reason"] == reason
  {
  }

  lemma MoveLinks(cfg: Config, s: System, step: Step)
    requires Fenced(s) && Enabled(cfg, s, step) && (step.Move? || step.AdminMove?)
    ensures Linked(Apply(cfg, s, step), step.id)
  {
    hide DLQHeaders, ReprocessedHeaders, ShouldMoveToDLQ, DueForReset, RetryDelay;
    DLQHeadersName(cfg, s.store[step.id], step.reason, step.now);
  }

  // Only a move makes a message dead-lettered, or changes the copy it names.
  lemma StepKeepsName(cfg: Config, s: System, step: Step, id: string)
    requires Enabled(cfg, s, step) && id in s.store
    requires !((step.Move? || step.AdminMove?) && step.id == id)
    ensures id in Apply(cfg, s, step).store
    ensures var m, n := s.store[id], Apply(cfg, s, step).store[id];
      n.status == DLQ ==>
        && m.status == DLQ
        && ("dlq_message_id" in m.headers ==>
              "dlq_message_id" in n.headers && n.headers["dlq_message_id"] == m.headers["dlq_message_id"])
  {
    hide DLQHeaders, ReprocessedHeaders, ShouldRetry, ShouldMoveToDLQ, DueForReset, RetryDelay;
  }

  lemma StepKeepsLinked(cfg: Config, s: System, step: Step, id: string)
    requires Fenced(s) && Enabled(cfg, s, step) && Linked(s, id)
    ensures Linked(Apply(cfg, s, step), id)
  {
    hide Enabled, Apply, CopiedAs, Fenced;
    if (step.Move? || step.AdminMove?) && step.id == id {
      MoveLinks(cfg, s, step);
    } else {
      StepKeepsName(cfg, s, step, id);
      if s.store[id].status == DLQ {
        StepKeepsCopied(cfg, s, step, id, s.store[id].headers["dlq_message_id"]);
      }
    }
  }

  // Every message the service moved, automatically or for an administrator, and that is still
  // dead-lettered names a stored copy with its key, payload and partition.
  lemma {:induction false} MovedMessagesAreLinked(cfg: Config, s: System, steps: seq<Step>, moved: set<string>)
    requires Fenced(s) && Legal(cfg, s, steps) && forall id :: id in moved ==> Linked(s, id)
    ensures forall id :: id in moved + MovedIds(steps) ==> Linked(Run(cfg, s, steps), id)
    decreases |steps|
  {
    if steps != [] {
      hide Enabled, Apply, Linked, Fenced;
      var t := Apply(cfg, s, steps[0]);
      var now := if steps[0].Move? || steps[0].AdminMove? then moved + {steps[0].id} else moved;
      StepKeepsFence(cfg, s, steps[0]);
      forall id | id in now ensures Linked(t, id) {
        if id in moved {
          StepKeepsLinked(cfg, s, steps[0], id);
        } else {
          MoveLinks(cfg, s, steps[0]);
        }
      }
      MovedMessagesAreLinked(cfg, t, steps[1..], now);
      assert moved + MovedIds(steps) == now + MovedIds(steps[1..]);
    }
  }

  // Steps other than automatic moves that add a stored message.
  function OtherAdditions(steps: seq<Step>): nat
    decreases |steps|
  {
    if steps == [] then 0
    else (if steps[0].Publish? || steps[0].Orphan? || steps[0].AdminMove? || steps[0].Reprocess? then 1 else 0)
         + OtherAdditions(steps[1..])
  }

  lemma StepConserves(cfg: Config, s: System, step: Step)
    requires Enabled(cfg, s, step)
    ensures |Apply(cfg, s, step).store| - Apply(cfg, s, step).stats.dlq
         == |s.store| - s.stats.dlq + OtherAdditions([step])
  {
    hide DLQCopy, CopyTo, Reprocessed, Requeued, MarkedFailed, MarkedDLQ, MarkedReprocessed, Reset, Acked, Recorded;
    hide ShouldRetry, ShouldMoveToDLQ, DueForReset, Held;
    assert OtherAdditions([step][1..]) == 0;
  }

  // The number of stored messages less the DLQ counter grows only by publishing, by
  // reprocessing, by administrator moves, and by moves whose second store failed.
  lemma {:induction false} StoreGrowth(cfg: Config, s: System, steps: seq<Step>)
    requires Legal(cfg, s, steps)
    ensures |Run(cfg, s, steps).store| - Run(cfg, s, steps).stats.dlq
         == |s.store| - s.stats.dlq + OtherAdditions(steps)
    decreases |steps|
  {
    if steps != [] {
      hide Enabled, Apply;
      StepConserves(cfg, s, steps[0]);
      assert [steps[0]][1..] == [];
      StoreGrowth(cfg, Apply(cfg, s, steps[0]), steps[1..]);
    }
  }

  function AutoCopies(steps: seq<Step>): set<string>
    decreases |steps|
  {
    if steps == [] then {}
    else (if steps[0].Move? then {steps[0].copy} else {}) + AutoCopies(steps[1..])
  }

  lemma StepCountsCopy(cfg: Config, s: System, step: Step)
    requires Enabled(cfg, s, step)
    ensures var t := Apply(cfg, s, step);
      && t.stats.dlq == s.stats.dlq + (if step.Move? then 1 else 0) && s.store.Keys <= t.store.Keys
      && (step.Move? ==> step.copy !in s.store && step.copy in t.store)
  {
    hide DLQCopy, CopyTo, Reprocessed, Requeued, MarkedFailed, MarkedDLQ, MarkedReprocessed, Recorded;
  }

  // Automatic moves create exactly as many copies as the DLQ counter says, each a new message
  // that is still stored in the end.
  lemma {:induction false} CounterMatchesCopies(cfg: Config, s: System, steps: seq<Step>)
    requires Legal(cfg, s, steps)
    ensures var t := Run(cfg, s, steps);
      && t.stats.dlq == s.stats.dlq + |AutoCopies(steps)|
      && AutoCopies(steps) !! s.store.Keys && AutoCopies(steps) + s.store.Keys <= t.store.Keys
    decreases |steps|
  {
    if steps != [] {
      hide Enabled, Apply;
      StepCountsCopy(cfg, s, steps[0]);
      CounterMatchesCopies(cfg, Apply(cfg, s, steps[0]), steps[1..]);
      var rest := AutoCopies(steps[1..]);
      assert steps[0].Move? ==> |{steps[0].copy} + rest| == 1 + |rest|;
      assert !steps[0].Move? ==> AutoCopies(steps) == rest;
    }
  }

  // The topic carries the dead-letter prefix exactly once.
  predicate PrefixedOnce(cfg: Config, topic: string) {
    HasPrefix(topic, cfg.dlqPrefix) && !HasPrefix(topic[|cfg.dlqPrefix|..], cfg.dlqPrefix)
  }

  // No automatic move ever doubles the prefix of a topic.
  lemma {:induction false} CopiesArePrefixedOnce(cfg: Config, s: System, steps: seq<Step>, copy: string)
    requires Legal(cfg, s, steps) && copy in AutoCopies(steps)
    ensures copy in Run(cfg, s, steps).store && PrefixedOnce(cfg, Run(cfg, s, steps).store[copy].topic)
    decreases |steps|
  {
    var t := Apply(cfg, s, steps[0]);
    if steps[0].Move? && steps[0].copy == copy {
      var topic := s.store[steps[0].id].topic;
      assert DLQTopic(cfg, topic)[|cfg.dlqPrefix|..] == topic;
      assert PrefixedOnce(cfg, t.store[copy].topic);
      EveryRunKeepsContent(cfg, t, steps[1..], copy);
    } else {
      CopiesArePrefixedOnce(cfg, t, steps[1..], copy);
    }
  }

  // An administrator's move to the default topic has no such guard: whatever happens after it,
  // its copy carries the prefix once exactly if the message was not on a prefixed topic.
  lemma AdminMoveDoublesPrefix(cfg: Config, s: System, step: Step, rest: seq<Step>)
    requires Enabled(cfg, s, step) && step.AdminMove? && step.topic == DLQTopic(cfg, s.store[step.id].topic)
    requires Legal(cfg, Apply(cfg, s, step), rest)
    ensures var t := Run(cfg, Apply(cfg, s, step), rest);
      && step.copy in t.store
      && (PrefixedOnce(cfg, t.store[step.copy].topic) <==> !HasPrefix(s.store[step.id].topic, cfg.dlqPrefix))
  {
    EveryRunKeepsContent(cfg, Apply(cfg, s, step), rest, step.copy);
    assert step.topic[|cfg.dlqPrefix|..] == s.store[step.id].topic;
    hide Run, Legal;
  }

  // A failed message on "dlq.orders" moved by hand ends up on "dlq.dlq.orders".
  lemma DoublyPrefixed(cfg: Config, s: System, id: string, copy: string)
    requires cfg.dlqPrefix == "dlq." && Fresh(s, id) && Fresh(s, copy) && id != copy
    ensures var m := Message(id, "dlq.orders", 0, 0, [], [0], map[], Normal, AtLeastOnce, Failed, 0, 0,
                             "", "", 0, None, None, None, false, "");
      var before := s.(store := s.store[id := m]);
      var step := AdminMove(id, copy, DLQTopic(cfg, m.topic), "manual", 0);
      Enabled(cfg, before, step) && Apply(cfg, before, step).store[copy].topic == "dlq.dlq.orders"
  {
    hide DLQHeaders, MarkedDLQ;
  }
}
