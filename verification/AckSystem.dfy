// The acknowledgment service and its message repository as a transition system.  A step is
// one effect on the stored messages and the service counters; every operation of the
// service is a short sequence of steps (see AckService.dfy).

module AckSystem {
  import opened AckPolicy
  import opened Messages
  import opened Options

  datatype Stats = Stats(
    acknowledged: int, nacked: int, requeued: int, dlq: int, expired: int, times: seq<int>)

  type Store = map<string, Message>

  datatype System = System(store: Store, stats: Stats)

  datatype Step =
    | Publish(msg: Message)
    | Deliver(id: string, consumer: string, group: string, now: nat)
    | NoteAck(time: int)                                                 // counter, before the store
    | StoreAck(id: string, now: nat)
    | Requeue(id: string, reason: string, custom: int, now: nat)         // requeueMessageForRetry
    | Fail(id: string, reason: string, now: nat)                         // markMessageFailed
    | Move(id: string, copy: string, reason: string, now: nat)           // moveMessageToDLQ
    | NoteExpired
    | Orphan(id: string, copy: string, topic: string, reason: string, now: nat)  // copy stored, original not
    | AdminRequeue(id: string, reason: string, custom: int, now: nat)
    | AdminMove(id: string, copy: string, topic: string, reason: string, now: nat)
    | Reprocess(id: string, copy: string, now: nat, marked: bool)
    | WorkerReset(id: string, now: nat)

  // The message can be the subject of a failed ack, a nack or an expiry.
  predicate Held(m: Message) {
    m.consumerID != "" || m.status == Delivered
  }

  predicate Fresh(s: System, id: string) {
    id != "" && id !in s.store
  }

  predicate Enabled(cfg: Config, s: System, step: Step) {
    match step
    case Publish(m) => Fresh(s, m.id) && m.status == Pending && m.consumerID == ""
    case NoteAck(_) => true
    case NoteExpired => true
    case Deliver(id, _, _, _) => id in s.store
    case StoreAck(id, _) => id in s.store && s.store[id].consumerID != ""
    case Requeue(id, _, _, _) =>
      id in s.store && Held(s.store[id]) && ShouldRetry(cfg, s.store[id], s.store[id].retryCount + 1)
    case Fail(id, _, _) => id in s.store && Held(s.store[id]) && !ShouldMoveToDLQ(cfg, s.store[id])
    case Move(id, copy, _, _) =>
      id in s.store && Held(s.store[id]) && ShouldMoveToDLQ(cfg, s.store[id]) && Fresh(s, copy)
    case Orphan(id, copy, _, _, _) => id in s.store && Fresh(s, copy)
    case AdminRequeue(id, _, _, _) => id in s.store
    case AdminMove(id, copy, _, _, _) => id in s.store && Fresh(s, copy)
    case Reprocess(id, copy, _, _) =>
      id in s.store && s.store[id].status == DLQ && "original_topic" in s.store[id].headers && Fresh(s, copy)
    case WorkerReset(id, now) => id in s.store && DueForReset(cfg, s.store[id], now)
  }

  // updateStats keeps the last thousand positive processing times.
  function Recorded(times: seq<int>, t: int): seq<int> {
    if t <= 0 then times
    else if |times| + 1 > 1000 then (times + [t])[1..]
    else times + [t]
  }

  function Apply(cfg: Config, s: System, step: Step): System
    requires Enabled(cfg, s, step)
  {
    match step
    case Publish(m) => s.(store := s.store[m.id := m])
    case Deliver(id, consumer, group, now) =>
      s.(store := s.store[id := s.store[id].(
        status := Delivered, deliveredAt := Some(now), consumerID := consumer, consumerGroup := group)])
    case NoteAck(t) =>
      s.(stats := s.stats.(acknowledged := s.stats.acknowledged + 1, times := Recorded(s.stats.times, t)))
    case StoreAck(id, now) => s.(store := s.store[id := Acked(s.store[id], now)])
    case Requeue(id, reason, custom, now) =>
      s.(store := s.store[id := Requeued(cfg, s.store[id], reason, custom, now)],
         stats := s.stats.(requeued := s.stats.requeued + 1))
    case Fail(id, reason, now) => s.(store := s.store[id := MarkedFailed(cfg, s.store[id], reason, now)])
    case Move(id, copy, reason, now) =>
      var m := s.store[id];
      s.(store := s.store[copy := DLQCopy(cfg, m, copy, reason, now)]
                         [id := MarkedDLQ(cfg, m, DLQTopic(cfg, m.topic), copy, reason, now)],
         stats := s.stats.(dlq := s.stats.dlq + 1))
    case NoteExpired => s.(stats := s.stats.(expired := s.stats.expired + 1))
    case Orphan(id, copy, topic, reason, now) =>
      s.(store := s.store[copy := CopyTo(cfg, s.store[id], copy, topic, reason, now)])
    case AdminRequeue(id, reason, custom, now) =>
      s.(store := s.store[id := Requeued(cfg, s.store[id], reason, custom, now)])
    case AdminMove(id, copy, topic, reason, now) =>
      var m := s.store[id];
      s.(store := s.store[copy := CopyTo(cfg, m, copy, topic, reason, now)]
                         [id := MarkedDLQ(cfg, m, topic, copy, reason, now)])
    case Reprocess(id, copy, now, marked) =>
      var d := s.store[id];
      s.(store := s.store[copy := Reprocessed(cfg, d, copy, now)]
                         [id := if marked then MarkedReprocessed(cfg, d, copy, now) else d])
    case WorkerReset(id, now) => s.(store := s.store[id := Reset(s.store[id])])
  }

  /* Runs */

  predicate Legal(cfg: Config, s: System, steps: seq<Step>)
    decreases |steps|
  {
    steps == [] ||
    (Enabled(cfg, s, steps[0]) && Legal(cfg, Apply(cfg, s, steps[0]), steps[1..]))
  }

  function Run(cfg: Config, s: System, steps: seq<Step>): System
    requires Legal(cfg, s, steps)
    decreases |steps|
  {
    if steps == [] then s else Run(cfg, Apply(cfg, s, steps[0]), steps[1..])
  }

  // Runs compose.
  lemma {:induction false} RunConcat(cfg: Config, s: System, first: seq<Step>, second: seq<Step>)
    requires Legal(cfg, s, first) && Legal(cfg, Run(cfg, s, first), second)
    ensures Legal(cfg, s, first + second)
    ensures Run(cfg, s, first + second) == Run(cfg, Run(cfg, s, first), second)
    decreases |first|
  {
    hide Enabled, Apply;
    if first == [] {
      assert [] + second == second;
    } else {
      RunConcat(cfg, Apply(cfg, s, first[0]), first[1..], second);
      assert (first + second)[1..] == first[1..] + second;
    }
  }
}
