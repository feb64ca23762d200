// What the operations of the acknowledgment service do to the stored messages, in terms of
// the configuration and the fields of the messages alone.

module AckOutcomes {
  import opened AckPolicy
  import opened AckRuns
  import opened AckSystem
  import opened Messages
  import opened Options
  import Backoff

  /* One message */

  // The headers `k` are `h` with the entries of these names written.
  predicate Adds(h: Headers, k: Headers, names: set<string>) {
    k.Keys == h.Keys + names && forall x :: x in h && x !in names ==> k[x] == h[x]
  }

  // Back in the queue, one retry further.  A zero custom delay means exponential backoff.
  predicate IsRequeued(cfg: Config, m: Message, n: Message, reason: string, custom: int, now: nat) {
    && n == m.(retryCount := m.retryCount + 1, status := Pending, consumerID := "", deliveredAt := None,
               ackedAt := None, headers := n.headers)
    && Adds(m.headers, n.headers, {"retry_count", "retry_reason", "next_retry_at"})
    && n.headers["retry_count"] == cfg.formatInt(m.retryCount + 1) && n.headers["retry_reason"] == reason
    && n.headers["next_retry_at"] == cfg.formatTime(now +
         if custom != 0 then custom else Backoff.Delay(cfg.retryBackoff, m.retryCount + 1, now % 1000))
  }

  predicate IsFailed(cfg: Config, m: Message, n: Message, reason: string, now: nat) {
    && n == m.(status := Failed, consumerID := "", headers := n.headers)
    && Adds(m.headers, n.headers, {"failure_reason", "failed_at", "final_retry_count"})
    && n.headers["failure_reason"] == reason && n.headers["failed_at"] == cfg.formatTime(now)
    && n.headers["final_retry_count"] == cfg.formatInt(m.retryCount)
  }

  // Dead-lettered, and naming its copy.
  predicate IsMoved(cfg: Config, m: Message, n: Message, topic: string, copy: string, reason: string, now: nat) {
    && n == m.(status := DLQ, consumerID := "", headers := n.headers)
    && Adds(m.headers, n.headers, {"dlq_moved_at", "dlq_topic", "dlq_message_id", "dlq_reason"})
    && n.headers["dlq_moved_at"] == cfg.formatTime(now) && n.headers["dlq_topic"] == topic
    && n.headers["dlq_message_id"] == copy && n.headers["dlq_reason"] == reason
  }

  const COPY_HEADERS := {
    "dlq_reason", "dlq_timestamp", "original_topic", "original_message_id", "original_retry_count",
    "original_created_at", "original_consumer_id", "original_consumer_group", "original_delivered_at"}

  // The dead-letter copy of m: its content on another topic, to be kept for seven days.
  predicate IsCopy(cfg: Config, m: Message, d: Message, topic: string, reason: string, now: nat) {
    && d.topic == topic && d.key == m.key && d.payload == m.payload && d.partition == m.partition
    && d.status == DLQ && d.priority == High && d.deliveryMode == AtMostOnce && d.retryCount == d.maxRetries == 0
    && d.consumerID == d.consumerGroup == "" && d.deliveredAt == d.ackedAt == None && !d.compressed
    && d.createdAt == now && d.expiresAt == Some(now + 7 * 24 * 3600 * 1_000_000_000)
    && CopyHeaders(cfg, m, d.headers, reason, now)
  }

  predicate CopyHeaders(cfg: Config, m: Message, h: Headers, reason: string, now: nat) {
    && (forall x :: x in m.headers && x !in COPY_HEADERS ==> x in h && h[x] == m.headers[x])
    && Reads(h, "dlq_reason", reason) && Reads(h, "dlq_timestamp", cfg.formatTime(now))
    && Reads(h, "original_topic", m.topic) && Reads(h, "original_message_id", m.id)
    && Reads(h, "original_retry_count", cfg.formatInt(m.retryCount))
    && Reads(h, "original_created_at", cfg.formatTime(m.createdAt))
    && (m.consumerID != "" ==> Reads(h, "original_consumer_id", m.consumerID))
    && (m.consumerGroup != "" ==> Reads(h, "original_consumer_group", m.consumerGroup))
    && (m.deliveredAt.Some? ==> Reads(h, "original_delivered_at", cfg.formatTime(m.deliveredAt.value)))
  }

  predicate Reads(h: Headers, name: string, value: string) {
    name in h && h[name] == value
  }

  // A new pending message with the content of the dead-letter copy d and a full set of retries.
  predicate IsReprocessed(cfg: Config, d: Message, n: Message, now: nat) {
    && "original_topic" in d.headers && n.topic == d.headers["original_topic"]
    && n.key == d.key && n.payload == d.payload && n.partition == d.partition
    && n.status == Pending && n.priority == Normal && n.deliveryMode == AtLeastOnce
    && n.retryCount == 0 && n.maxRetries == cfg.maxRetries && n.consumerID == n.consumerGroup == ""
    && n.deliveredAt == n.ackedAt == n.expiresAt == None && n.createdAt == now && !n.compressed
    && Reads(n.headers, "reprocessed_from_dlq", "true") && Reads(n.headers, "reprocessed_at", cfg.formatTime(now))
    && Reads(n.headers, "original_dlq_message_id", d.id)
    && ("dlq_reason" in d.headers ==> Reads(n.headers, "original_dlq_reason", d.headers["dlq_reason"]))
    && CarriesHeaders(d.headers, n.headers)
  }

  const REPROCESSED_HEADERS := {
    "reprocessed_from_dlq", "reprocessed_at", "original_dlq_message_id", "original_dlq_reason"}

  // Of the copy's headers exactly those without a dead-letter prefix survive.
  predicate CarriesHeaders(h: Headers, k: Headers) {
    && (forall x :: x in h && !("dlq_" <= x) && !("original_" <= x) && x !in REPROCESSED_HEADERS ==>
          Reads(k, x, h[x]))
    && (forall x :: x in k && x !in REPROCESSED_HEADERS ==> x in h && !("dlq_" <= x) && !("original_" <= x))
  }

  // The copy afterwards; the mark is missing if its store failed.
  predicate IsMarked(cfg: Config, d: Message, e: Message, copy: string, now: nat) {
    && e == d.(headers := e.headers)
    && Adds(d.headers, e.headers, {"reprocessed", "reprocessed_at", "reprocessed_message_id"})
    && e.headers["reprocessed"] == "true" && e.headers["reprocessed_at"] == cfg.formatTime(now)
    && e.headers["reprocessed_message_id"] == copy
  }

  lemma RequeuedIs(cfg: Config, m: Message, reason: string, custom: int, now: nat)
    ensures IsRequeued(cfg, m, Requeued(cfg, m, reason, custom, now), reason, custom, now)
  {
  }

  lemma FailedIs(cfg: Config, m: Message, reason: string, now: nat)
    ensures IsFailed(cfg, m, MarkedFailed(cfg, m, reason, now), reason, now)
  {
  }

  lemma MovedIs(cfg: Config, m: Message, topic: string, copy: string, reason: string, now: nat)
    ensures IsMoved(cfg, m, MarkedDLQ(cfg, m, topic, copy, reason, now), topic, copy, reason, now)
  {
  }

  lemma CopyIs(cfg: Config, m: Message, copy: string, topic: string, reason: string, now: nat)
    ensures IsCopy(cfg, m, CopyTo(cfg, m, copy, topic, reason, now), topic, reason, now)
  {
    CopyHeadersAre(cfg, m, reason, now);
    hide DLQHeaders, CopyHeaders;
  }

  lemma CopyHeadersAre(cfg: Config, m: Message, reason: string, now: nat)
    ensures CopyHeaders(cfg, m, DLQHeaders(cfg, m, reason, now), reason, now)
  {
  }

  lemma ReprocessedIs(cfg: Config, d: Message, id: string, now: nat)
    requires "original_topic" in d.headers
    ensures IsReprocessed(cfg, d, Reprocessed(cfg, d, id, now), now)
  {
    HeadersCarried(cfg, d, now);
    hide CarriedHeaders, CarriesHeaders;
  }

  lemma HeadersCarried(cfg: Config, d: Message, now: nat)
    ensures CarriesHeaders(d.headers, ReprocessedHeaders(cfg, d, now))
  {
  }

  lemma MarkedIs(cfg: Config, d: Message, copy: string, now: nat)
    ensures IsMarked(cfg, d, MarkedReprocessed(cfg, d, copy, now), copy, now)
  {
  }

  // Message `id` has been moved to `topic`, and nothing else changed but for the copy.
  ghost predicate MovedTo(cfg: Config, before: Store, after: Store, id: string, topic: string,
                          reason: string, now: nat) {
    && id in before && id in after && "dlq_message_id" in after[id].headers
    && var c := after[id].headers["dlq_message_id"];
       && c !in before && c in after && after[c].id == c && after == before[c := after[c]][id := after[id]]
       && IsMoved(cfg, before[id], after[id], topic, c, reason, now)
       && IsCopy(cfg, before[id], after[c], topic, reason, now)
  }

  lemma AdminMoveIs(cfg: Config, s: System, move: Step)
    requires Fenced(s) && Enabled(cfg, s, move) && move.AdminMove?
    ensures MovedTo(cfg, s.store, Apply(cfg, s, move).store, move.id, move.topic, move.reason, move.now)
  {
    var m := s.store[move.id];
    hide MarkedDLQ, DLQHeaders, IsMoved, IsCopy, Fenced;
    FencedId(s, move.id);
    MovedIs(cfg, m, move.topic, move.copy, move.reason, move.now);
    MovedNames(cfg, m, move.topic, move.copy, move.reason, move.now);
    CopyIs(cfg, m, move.copy, move.topic, move.reason, move.now);
  }

  // The dead-letter copy `id` has been reprocessed as message c.
  ghost predicate ReprocessedAs(cfg: Config, before: Store, after: Store, id: string, c: string,
                                marked: bool, now: nat) {
    && id in before && c !in before && id in after && c in after && after[c].id == c
    && after == before[c := after[c]][id := after[id]]
    && IsReprocessed(cfg, before[id], after[c], now)
    && if marked then IsMarked(cfg, before[id], after[id], c, now) else after[id] == before[id]
  }

  lemma ReprocessIs(cfg: Config, s: System, step: Step)
    requires Fenced(s) && Enabled(cfg, s, step) && step.Reprocess?
    ensures ReprocessedAs(cfg, s.store, Apply(cfg, s, step).store, step.id, step.copy, step.marked, step.now)
  {
    hide ReprocessedHeaders, MarkedReprocessed, IsReprocessed, IsMarked, Fenced;
    FencedId(s, step.id);
    ReprocessedIs(cfg, s.store[step.id], step.copy, step.now);
    MarkedIs(cfg, s.store[step.id], step.copy, step.now);
  }

  // The retry worker has made messages pending and unassigned: failed ones whose retries are
  // spent and whose retry time has come, and all of these if `all`.
  ghost predicate Ticked(cfg: Config, before: Store, after: Store, all: bool, now: nat) {
    && after.Keys == before.Keys
    && forall id :: id in before ==>
         var m, n := before[id], after[id];
         var due := && m.status == Failed && m.retryCount >= cfg.maxRetries && "next_retry_at" in m.headers
                    && cfg.parseTime(m.headers["next_retry_at"]).Some?
                    && now > cfg.parseTime(m.headers["next_retry_at"]).value;
         && (n == m || (due && n == m.(status := Pending, consumerID := "", deliveredAt := None)))
         && (all && due ==> n.status == Pending)
  }

  /* The settlement of a failed delivery */

  // How message `id` is settled: retried while its own limit, or else the configured one,
  // allows; then dead-lettered if the queue is enabled, the topic is not a dead-letter topic
  // and the configured limit is reached; otherwise failed for good.
  predicate SettledAs(cfg: Config, before: Store, after: Store, id: string,
                      retry: bool, reason: string, custom: int, now: nat)
    requires id in before && id in after
  {
    var m, n := before[id], after[id];
    if retry && m.retryCount + 1 <= (if m.maxRetries > 0 then m.maxRetries else cfg.maxRetries) then
      IsRequeued(cfg, m, n, reason, custom, now)
    else if cfg.enableDLQ && !(cfg.dlqPrefix <= m.topic) && m.retryCount >= cfg.maxRetries then
      && "dlq_message_id" in n.headers
      && var c := n.headers["dlq_message_id"];
         && c !in before && c in after && IsMoved(cfg, m, n, cfg.dlqPrefix + m.topic, c, reason, now)
         && after[c].id == c && IsCopy(cfg, m, after[c], cfg.dlqPrefix + m.topic, reason, now)
    else
      IsFailed(cfg, m, n, reason, now)
  }

  // Nothing else happens but the new copy of a dead-lettered message and one counter.
  ghost predicate Settlement(cfg: Config, s: System, t: System, id: string,
                             retry: bool, reason: string, custom: int, now: nat) {
    && id in s.store && id in t.store && SettledAs(cfg, s.store, t.store, id, retry, reason, custom, now)
    && (forall k :: k in s.store && k != id ==> k in t.store && t.store[k] == s.store[k])
    && var n := t.store[id];
       && t.store.Keys == s.store.Keys
            + (if n.status == DLQ && "dlq_message_id" in n.headers then {n.headers["dlq_message_id"]} else {})
       && t.stats == if n.status == Pending then s.stats.(requeued := s.stats.requeued + 1)
                     else if n.status == DLQ then s.stats.(dlq := s.stats.dlq + 1) else s.stats
  }

  // The step that settles a failed delivery.
  predicate Settles(cfg: Config, m: Message, retry: bool, reason: string, custom: int, now: nat, step: Step) {
    if retry && ShouldRetry(cfg, m, m.retryCount + 1) then step == Requeue(m.id, reason, custom, now)
    else if ShouldMoveToDLQ(cfg, m) then step.Move? && step == Move(m.id, step.copy, reason, now)
    else step == Fail(m.id, reason, now)
  }

  lemma StepIsSettlement(cfg: Config, s: System, m: Message, retry: bool, reason: string, custom: int, now: nat,
                         step: Step)
    requires Fenced(s) && m.id in s.store && s.store[m.id] == m
    requires Settles(cfg, m, retry, reason, custom, now, step) && Enabled(cfg, s, step)
    ensures Settlement(cfg, s, Apply(cfg, s, step), m.id, retry, reason, custom, now)
  {
    hide Requeued, MarkedFailed, MarkedDLQ, DLQHeaders, IsRequeued, IsFailed, IsMoved, IsCopy, Fenced, Held;
    FencedId(s, m.id);
    match step {
      case Requeue(_, _, _, _) =>
        RequeuedIs(cfg, m, reason, custom, now);
        RequeuedStatus(cfg, m, reason, custom, now);
      case Fail(_, _, _) =>
        FailedIs(cfg, m, reason, now);
        FailedStatus(cfg, m, reason, now);
      case Move(_, copy, _, _) =>
        var topic := cfg.dlqPrefix + m.topic;
        MovedIs(cfg, m, topic, copy, reason, now);
        MovedNames(cfg, m, topic, copy, reason, now);
        CopyIs(cfg, m, copy, topic, reason, now);
        assert CopyTo(cfg, m, copy, topic, reason, now) == DLQCopy(cfg, m, copy, reason, now);
    }
  }

  lemma RequeuedStatus(cfg: Config, m: Message, reason: string, custom: int, now: nat)
    ensures Requeued(cfg, m, reason, custom, now).status == Pending && Requeued(cfg, m, reason, custom, now).id == m.id
  {
    hide RetryDelay;
  }

  lemma FailedStatus(cfg: Config, m: Message, reason: string, now: nat)
    ensures MarkedFailed(cfg, m, reason, now).status == Failed && MarkedFailed(cfg, m, reason, now).id == m.id
  {
  }

  lemma MovedNames(cfg: Config, m: Message, topic: string, copy: string, reason: string, now: nat)
    ensures var n := MarkedDLQ(cfg, m, topic, copy, reason, now);
      n.status == DLQ && n.id == m.id && Reads(n.headers, "dlq_message_id", copy)
  {
  }

  // A message is dead-lettered exactly if it is not retried and the configuration and its own
  // fields say so; what is neither retried nor dead-lettered has failed.
  lemma SettledStatus(cfg: Config, s: System, t: System, id: string, retry: bool, reason: string, custom: int, now: nat)
    requires Settlement(cfg, s, t, id, retry, reason, custom, now)
    ensures var m, n := s.store[id], t.store[id];
      var retried := retry && m.retryCount < (if m.maxRetries > 0 then m.maxRetries else cfg.maxRetries);
      && (n.status == Pending <==> retried)
      && (n.status == DLQ <==>
            !retried && cfg.enableDLQ && !(cfg.dlqPrefix <= m.topic) && m.retryCount >= cfg.maxRetries)
      && n.status in {Pending, DLQ, Failed} && n.consumerID == ""
      && n.retryCount == m.retryCount + (if retried then 1 else 0)
      && |t.store| == |s.store| + (if n.status == DLQ then 1 else 0)
  {
    hide Adds, CopyHeaders;
    var c := if t.store[id].status == DLQ && "dlq_message_id" in t.store[id].headers
             then {t.store[id].headers["dlq_message_id"]} else {};
    assert |t.store.Keys| == |s.store.Keys + c|;
    assert c !! s.store.Keys ==> |s.store.Keys + c| == |s.store.Keys| + |c|;
    assert |t.store.Keys| == |t.store| && |s.store.Keys| == |s.store|;
  }

  /* Laws over runs */

  // A message that is not out for delivery can only expire after it has been delivered again.
  lemma {:induction false} OnlyDeliveryExpires(cfg: Config, s: System, steps: seq<Step>, id: string, later: nat)
    requires Legal(cfg, s, steps) && id in s.store && s.store[id].status != Delivered
    requires forall i :: 0 <= i < |steps| && steps[i].Deliver? ==> steps[i].id != id
    ensures id in Run(cfg, s, steps).store && Run(cfg, s, steps).store[id].status != Delivered
    ensures !PastDeadline(cfg, Run(cfg, s, steps).store[id], later)
    decreases |steps|
  {
    if steps != [] {
      hide Enabled, Apply;
      StepKeepsContent(cfg, s, steps[0], id);
      StepDelivers(cfg, s, steps[0], id);
      OnlyDeliveryExpires(cfg, Apply(cfg, s, steps[0]), steps[1..], id, later);
    }
  }

  lemma StepDelivers(cfg: Config, s: System, step: Step, id: string)
    requires Enabled(cfg, s, step) && id in s.store && s.store[id].status != Delivered
    requires step.Deliver? ==> step.id != id
    ensures id in Apply(cfg, s, step).store && Apply(cfg, s, step).store[id].status != Delivered
  {
    hide DLQHeaders, ReprocessedHeaders, ShouldRetry, ShouldMoveToDLQ, DueForReset, RetryDelay;
  }

  // A successful ack acknowledges the message, touches nothing else, and keeps the message out
  // of every sweep, however late, until it is delivered again.
  lemma AckedIsNeverExpired(cfg: Config, s: System, ack: Step, steps: seq<Step>, later: nat)
    requires Enabled(cfg, s, ack) && ack.StoreAck? && Legal(cfg, Apply(cfg, s, ack), steps)
    requires forall i :: 0 <= i < |steps| && steps[i].Deliver? ==> steps[i].id != ack.id
    ensures var t := Apply(cfg, s, ack);
      && t.store == s.store[ack.id := s.store[ack.id].(status := Acknowledged, ackedAt := Some(ack.now))]
      && t.stats == s.stats
    ensures ack.id in Run(cfg, Apply(cfg, s, ack), steps).store
    ensures !PastDeadline(cfg, Run(cfg, Apply(cfg, s, ack), steps).store[ack.id], later)
  {
    OnlyDeliveryExpires(cfg, Apply(cfg, s, ack), steps, ack.id, later);
  }

  // Automatic moves take only messages of a topic that is not a dead-letter topic, at or above
  // the configured limit, and none at all if the queue is disabled.
  lemma {:induction false} MovesHeedPolicy(cfg: Config, s: System, steps: seq<Step>, i: nat)
    requires Legal(cfg, s, steps) && i < |steps| && steps[i].Move?
    ensures cfg.enableDLQ
    ensures steps[i].id in s.store ==> !(cfg.dlqPrefix <= s.store[steps[i].id].topic)
    ensures steps[i].id in Run(cfg, s, steps).store
    ensures Run(cfg, s, steps).store[steps[i].id].retryCount >= cfg.maxRetries
    decreases |steps|
  {
    var t := Apply(cfg, s, steps[0]);
    if i == 0 {
      EveryRunKeepsContent(cfg, s, steps, steps[0].id);
    } else {
      hide Apply, Enabled;
      if steps[i].id in s.store { StepKeepsContent(cfg, s, steps[0], steps[i].id); }
      MovesHeedPolicy(cfg, t, steps[1..], i - 1);
    }
  }

  // So with the queue disabled no automatic copy is ever made.
  lemma {:induction false} NoCopiesWhenDisabled(cfg: Config, s: System, steps: seq<Step>)
    requires Legal(cfg, s, steps) && !cfg.enableDLQ
    ensures AutoCopies(steps) == {} && Run(cfg, s, steps).stats.dlq == s.stats.dlq
    decreases |steps|
  {
    CounterMatchesCopies(cfg, s, steps);
    if steps != [] {
      NoCopiesWhenDisabled(cfg, Apply(cfg, s, steps[0]), steps[1..]);
      if steps[0].Move? { MovesHeedPolicy(cfg, s, steps, 0); }
    }
  }

  // A copy can be reprocessed as soon as it is stored.
  lemma CopyCanBeReprocessed(cfg: Config, s: System, move: Step, id: string, now: nat, marked: bool)
    requires Fenced(s) && Enabled(cfg, s, move) && (move.Move? || move.AdminMove?)
    requires Fresh(Apply(cfg, s, move), id)
    ensures Enabled(cfg, Apply(cfg, s, move), Reprocess(move.copy, id, now, marked))
  {
    hide DLQHeaders, ReprocessedHeaders, ShouldMoveToDLQ, RetryDelay;
    DLQHeadersName(cfg, s.store[move.id], move.reason, move.now);
  }

  // The worker's reset makes a message pending and unassigned, and deliverable again.
  lemma ResetIsPending(cfg: Config, s: System, step: Step)
    requires Enabled(cfg, s, step) && step.WorkerReset?
    ensures var m := s.store[step.id];
      && m.status == Failed && m.retryCount >= cfg.maxRetries
      && Apply(cfg, s, step) ==
           s.(store := s.store[step.id := m.(status := Pending, consumerID := "", deliveredAt := None)])
  {
  }

  function AdminRequeues(steps: seq<Step>, id: string): nat
    decreases |steps|
  {
    if steps == [] then 0
    else (if steps[0].AdminRequeue? && steps[0].id == id then 1 else 0) + AdminRequeues(steps[1..], id)
  }

  // The retry count is the number of requeues, automatic and administrator's.
  lemma {:induction false} RetryCountIsAccounted(cfg: Config, s: System, steps: seq<Step>, id: string)
    requires Legal(cfg, s, steps) && id in s.store
    ensures id in Run(cfg, s, steps).store
    ensures Run(cfg, s, steps).store[id].retryCount
         == s.store[id].retryCount + Requeues(steps, id) + AdminRequeues(steps, id)
    decreases |steps|
  {
    if steps != [] {
      hide Enabled, Apply;
      StepCounts(cfg, s, steps[0], id);
      RetryCountIsAccounted(cfg, Apply(cfg, s, steps[0]), steps[1..], id);
    }
  }

  lemma StepCounts(cfg: Config, s: System, step: Step, id: string)
    requires Enabled(cfg, s, step) && id in s.store
    ensures id in Apply(cfg, s, step).store
    ensures Apply(cfg, s, step).store[id].retryCount
         == s.store[id].retryCount + (if (step.Requeue? || step.AdminRequeue?) && step.id == id then 1 else 0)
  {
    hide DLQHeaders, ReprocessedHeaders, ShouldRetry, ShouldMoveToDLQ, DueForReset, RetryDelay;
  }
}
