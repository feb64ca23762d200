// The retry and dead-letter decisions of the acknowledgment service, and what each of its
// operations writes into a message.

module AckPolicy {
  import opened Messages
  import opened Options
  import Backoff

  // The settings the service reads, and the formatting of times and numbers in headers.
  datatype Config = Config(
    maxRetries: int, retryBackoff: int, ackDeadline: int, enableDLQ: bool, dlqPrefix: string,
    formatTime: int -> string, parseTime: string -> Option<int>, formatInt: int -> string)

  // Copies in the dead-letter queue expire after seven days.
  const DLQ_TTL := 604_800_000_000_000

  /* Decisions */

  // The message's own limit when it has one, otherwise the configured default.
  function RetryLimit(cfg: Config, m: Message): int {
    if m.maxRetries > 0 then m.maxRetries else cfg.maxRetries
  }

  predicate ShouldRetry(cfg: Config, m: Message, attempt: int) {
    attempt <= RetryLimit(cfg, m)
  }

  predicate HasPrefix(s: string, prefix: string) {
    prefix <= s
  }

  predicate ShouldMoveToDLQ(cfg: Config, m: Message) {
    cfg.enableDLQ && !HasPrefix(m.topic, cfg.dlqPrefix) && m.retryCount >= cfg.maxRetries
  }

  function DLQTopic(cfg: Config, topic: string): string {
    cfg.dlqPrefix + topic
  }

  // A zero custom delay means exponential backoff for the attempt that is being scheduled.
  function RetryDelay(cfg: Config, custom: int, attempt: int, now: nat): int {
    if custom != 0 then custom else Backoff.Delay(cfg.retryBackoff, attempt, now % 1000)
  }

  /* Writes */

  function Acked(m: Message, now: nat): Message {
    m.(status := Acknowledged, ackedAt := Some(now))
  }

  function Requeued(cfg: Config, m: Message, reason: string, custom: int, now: nat): Message {
    var count := m.retryCount + 1;
    m.(retryCount := count, status := Pending, consumerID := "", deliveredAt := None, ackedAt := None,
       headers := m.headers["retry_count" := cfg.formatInt(count)]
                           ["retry_reason" := reason]
                           ["next_retry_at" := cfg.formatTime(now + RetryDelay(cfg, custom, count, now))])
  }

  function MarkedFailed(cfg: Config, m: Message, reason: string, now: nat): Message {
    m.(status := Failed, consumerID := "",
       headers := m.headers["failure_reason" := reason]
                           ["failed_at" := cfg.formatTime(now)]
                           ["final_retry_count" := cfg.formatInt(m.retryCount)])
  }

  // The copy that goes to the dead-letter topic.
  function DLQCopy(cfg: Config, m: Message, id: string, reason: string, now: nat): Message {
    Message(id, DLQTopic(cfg, m.topic), m.partition, 0, m.key, m.payload,
            DLQHeaders(cfg, m, reason, now), High, AtMostOnce, DLQ,
            0, 0, "", "", now, Some(now + DLQ_TTL), None, None, false, "")
  }

  // The same copy on a topic of the caller's choice.
  function CopyTo(cfg: Config, m: Message, id: string, topic: string, reason: string, now: nat): Message {
    DLQCopy(cfg, m, id, reason, now).(topic := topic)
  }

  function DLQHeaders(cfg: Config, m: Message, reason: string, now: nat): Headers {
    DeliveryHeaders(cfg, m, m.headers["dlq_reason" := reason]
                                     ["dlq_timestamp" := cfg.formatTime(now)]
                                     ["original_topic" := m.topic]
                                     ["original_message_id" := m.id]
                                     ["original_retry_count" := cfg.formatInt(m.retryCount)]
                                     ["original_created_at" := cfg.formatTime(m.createdAt)])
  }

  // Records who held the message, where that is known.
  function DeliveryHeaders(cfg: Config, m: Message, h: Headers): Headers {
    var h1 := if m.consumerID != "" then h["original_consumer_id" := m.consumerID] else h;
    var h2 := if m.consumerGroup != "" then h1["original_consumer_group" := m.consumerGroup] else h1;
    if m.deliveredAt.Some? then h2["original_delivered_at" := cfg.formatTime(m.deliveredAt.value)] else h2
  }

  // The original once its copy is stored.
  function MarkedDLQ(cfg: Config, m: Message, topic: string, copy: string, reason: string, now: nat): Message {
    m.(status := DLQ, consumerID := "",
       headers := m.headers["dlq_moved_at" := cfg.formatTime(now)]
                           ["dlq_topic" := topic]
                           ["dlq_message_id" := copy]
                           ["dlq_reason" := reason])
  }

  predicate Carried(k: string) {
    !HasPrefix(k, "dlq_") && !HasPrefix(k, "original_")
  }

  function CarriedHeaders(h: Headers): Headers {
    map k | k in h && Carried(k) :: h[k]
  }

  // The message a dead-letter copy is reprocessed into.
  function Reprocessed(cfg: Config, d: Message, id: string, now: nat): Message
    requires "original_topic" in d.headers
  {
    Message(id, d.headers["original_topic"], d.partition, 0, d.key, d.payload,
            ReprocessedHeaders(cfg, d, now), Normal, AtLeastOnce, Pending,
            0, cfg.maxRetries, "", "", now, None, None, None, false, "")
  }

  function ReprocessedHeaders(cfg: Config, d: Message, now: nat): Headers {
    var h := CarriedHeaders(d.headers)["reprocessed_from_dlq" := "true"]
                                      ["reprocessed_at" := cfg.formatTime(now)]
                                      ["original_dlq_message_id" := d.id];
    if "dlq_reason" in d.headers then h["original_dlq_reason" := d.headers["dlq_reason"]] else h
  }

  function MarkedReprocessed(cfg: Config, d: Message, id: string, now: nat): Message {
    d.(headers := d.headers["reprocessed" := "true"]
                           ["reprocessed_at" := cfg.formatTime(now)]
                           ["reprocessed_message_id" := id])
  }

  // The retry worker's reset of a failed message whose retry time has come.
  function Reset(m: Message): Message {
    m.(status := Pending, consumerID := "", deliveredAt := None)
  }

  predicate DueForReset(cfg: Config, m: Message, now: nat) {
    && m.status == Failed && m.retryCount >= cfg.maxRetries
    && "next_retry_at" in m.headers
    && var due := cfg.parseTime(m.headers["next_retry_at"]);
       due.Some? && now > due.value
  }

  predicate PastDeadline(cfg: Config, m: Message, now: nat) {
    m.status == Delivered && m.deliveredAt.Some? && now > m.deliveredAt.value + cfg.ackDeadline
  }
}
