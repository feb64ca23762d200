// The acknowledgment service without atomicity.  The repository has no locks: between an
// operation's Get and its Store others may write, so a write may follow an arbitrarily stale
// read.  Ids of new messages are never in use.

module AckRacing {
  import opened AckPolicy
  import opened AckRuns
  import opened AckSystem
  import opened Messages
  import opened Options

  // `seen` holds every message some operation has read and may still write back.
  datatype Racing = Racing(store: Store, seen: set<Message>)

  // A write of a message read, other than a requeue.
  datatype Change =
    | Ack(at: nat)
    | Fail(why: string, at: nat)
    | MarkMoved(topic: string, copy: string, why: string, at: nat)
    | MarkReprocessed(copy: string, at: nat)
    | WorkerReset
    | Deliver(consumer: string, group: string, at: nat)

  // A new message: a published one, or one made from a message read.
  datatype Addition =
    | Published(msg: Message)
    | Copied(from: Message, copy: string, topic: string, why: string, at: nat)
    | Reprocess(from: Message, copy: string, at: nat)

  datatype Access =
    | Read(id: string)
    | Retry(m: Message, reason: string, custom: int, now: nat)  // a failed ack, a nack or an expiry requeues
    | AdminRetry(m: Message, reason: string, custom: int, now: nat)
    | Update(m: Message, change: Change)
    | Add(addition: Addition)

  predicate Allowed(m: Message, c: Change) {
    (c.Ack? ==> m.consumerID != "") && (c.MarkReprocessed? ==> m.status == DLQ)
  }

  function Changed(cfg: Config, m: Message, c: Change): Message {
    match c
    case Ack(at) => Acked(m, at)
    case Fail(why, at) => MarkedFailed(cfg, m, why, at)
    case MarkMoved(topic, copy, why, at) => MarkedDLQ(cfg, m, topic, copy, why, at)
    case MarkReprocessed(copy, at) => MarkedReprocessed(cfg, m, copy, at)
    case WorkerReset => Reset(m)
    case Deliver(consumer, group, at) =>
      m.(status := Delivered, deliveredAt := Some(at), consumerID := consumer, consumerGroup := group)
  }

  predicate Possible(seen: set<Message>, a: Addition) {
    match a
    case Published(msg) => msg.status == Pending && msg.consumerID == "" && msg.retryCount == 0
    case Copied(from, _, _, _, _) => from in seen
    case Reprocess(from, _, _) => from in seen && from.status == DLQ && "original_topic" in from.headers
  }

  function NewMessage(cfg: Config, seen: set<Message>, a: Addition): Message
    requires Possible(seen, a)
  {
    match a
    case Published(msg) => msg
    case Copied(from, copy, topic, why, at) => CopyTo(cfg, from, copy, topic, why, at)
    case Reprocess(from, copy, at) => Reprocessed(cfg, from, copy, at)
  }

  function Put(s: Racing, n: Message): Racing {
    s.(store := s.store[n.id := n])
  }

  predicate RacingNext(cfg: Config, s: Racing, a: Access, t: Racing) {
    match a
    case Read(id) => id in s.store && t == s.(seen := s.seen + {s.store[id]})
    case Retry(m, reason, custom, now) =>
      && m in s.seen && Held(m) && ShouldRetry(cfg, m, m.retryCount + 1)
      && t == Put(s, Requeued(cfg, m, reason, custom, now))
    case AdminRetry(m, reason, custom, now) => m in s.seen && t == Put(s, Requeued(cfg, m, reason, custom, now))
    case Update(m, c) => m in s.seen && Allowed(m, c) && t == Put(s, Changed(cfg, m, c))
    case Add(a) =>
      && Possible(s.seen, a)
      && var n := NewMessage(cfg, s.seen, a);
         n.id != "" && n.id !in s.store && t == Put(s, n)
  }

  ghost predicate Trace(cfg: Config, states: seq<Racing>, accesses: seq<Access>) {
    && |states| == |accesses| + 1
    && forall i :: 0 <= i < |accesses| ==> RacingNext(cfg, states[i], accesses[i], states[i + 1])
  }

  /* Fencing */

  ghost predicate RacingFenced(s: Racing) {
    && (forall id :: id in s.store ==> s.store[id].id == id && Unassigned(s.store[id]))
    && (forall m :: m in s.seen ==> m.id in s.store && Unassigned(m))
  }

  lemma ChangedKeeps(cfg: Config, m: Message, c: Change)
    requires Unassigned(m) && Allowed(m, c)
    ensures var n := Changed(cfg, m, c);
      Unassigned(n) && n.id == m.id && n.retryCount == m.retryCount && n.maxRetries == m.maxRetries
  {
  }

  lemma NewIsUnassigned(cfg: Config, seen: set<Message>, a: Addition)
    requires Possible(seen, a)
    ensures Unassigned(NewMessage(cfg, seen, a)) && NewMessage(cfg, seen, a).retryCount == 0
  {
    hide DLQHeaders, ReprocessedHeaders;
  }

  lemma RacingStepIsFenced(cfg: Config, s: Racing, a: Access, t: Racing)
    requires RacingFenced(s) && RacingNext(cfg, s, a, t)
    ensures RacingFenced(t)
  {
    hide RetryDelay, Allowed, Changed, Possible, NewMessage;
    if a.Update? { ChangedKeeps(cfg, a.m, a.change); }
    if a.Add? { NewIsUnassigned(cfg, s.seen, a.addition); }
  }

  // The fence survives every interleaving of reads and writes, however stale the read.
  lemma {:induction false} EveryInterleavingIsFenced(cfg: Config, states: seq<Racing>, accesses: seq<Access>, n: nat)
    requires Trace(cfg, states, accesses) && RacingFenced(states[0]) && n < |states|
    ensures RacingFenced(states[n])
  {
    if n > 0 {
      hide RacingFenced, RacingNext;
      EveryInterleavingIsFenced(cfg, states, accesses, n - 1);
      RacingStepIsFenced(cfg, states[n - 1], accesses[n - 1], states[n]);
    }
  }

  /* The retry limit */

  // No retry count is above the message's limit (0 for a negative limit).
  predicate WithinLimit(cfg: Config, m: Message) {
    m.retryCount <= 0 || m.retryCount <= RetryLimit(cfg, m)
  }

  // The message, as stored and as read, is within its limit.
  ghost predicate WithinAt(cfg: Config, s: Racing, id: string) {
    && (id in s.store ==> WithinLimit(cfg, s.store[id]))
    && forall m :: m in s.seen && m.id == id ==> WithinLimit(cfg, m)
  }

  lemma RacingStepIsWithin(cfg: Config, s: Racing, a: Access, t: Racing, id: string)
    requires RacingFenced(s) && WithinAt(cfg, s, id) && RacingNext(cfg, s, a, t)
    requires a.AdminRetry? ==> a.m.id != id
    ensures WithinAt(cfg, t, id)
  {
    hide RetryDelay, Allowed, Changed, Possible, NewMessage;
    if a.Update? { ChangedKeeps(cfg, a.m, a.change); }
    if a.Add? { NewIsUnassigned(cfg, s.seen, a.addition); }
  }

  // Whatever the interleaving, and whatever an administrator does to other messages, only an
  // administrator's requeue of the message itself lifts its retry count above its limit.
  lemma {:induction false} EveryInterleavingHeedsLimit(cfg: Config, states: seq<Racing>, accesses: seq<Access>,
                                                       id: string, n: nat)
    requires Trace(cfg, states, accesses) && n < |states|
    requires RacingFenced(states[0]) && WithinAt(cfg, states[0], id)
    requires forall i :: 0 <= i < |accesses| && accesses[i].AdminRetry? ==> accesses[i].m.id != id
    ensures WithinAt(cfg, states[n], id)
  {
    if n > 0 {
      hide RacingFenced, RacingNext, WithinAt;
      EveryInterleavingHeedsLimit(cfg, states, accesses, id, n - 1);
      EveryInterleavingIsFenced(cfg, states, accesses, n - 1);
      RacingStepIsWithin(cfg, states[n - 1], accesses[n - 1], states[n], id);
    }
  }
}
