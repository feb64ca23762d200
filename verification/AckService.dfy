// The acknowledgment service: every operation is a sequence of AckSystem steps, chosen as the
// source chooses it.  The clock is read once per operation.

module AckService {
  import opened AckOutcomes
  import opened AckPolicy
  import opened AckRepository
  import opened AckRuns
  import opened AckSweep
  import opened AckSystem
  import opened Messages
  import opened Options

  datatype Error = InvalidRequest | NotFound | NotOwner | StoreFailed | QueryFailed | NotDLQ | NoOriginalTopic

  datatype Result<T> = Ok(value: T) | Err(error: Error)

  datatype AckRequest = AckRequest(
    messageID: string, consumerID: string, success: bool, processingTime: int, reason: Option<string>)

  datatype NackRequest = NackRequest(
    messageID: string, consumerID: string, reason: string, retry: bool, retryDelay: int)

  datatype Response = Response(
    messageID: string, status: string, retryCount: int, nextRetryAt: Option<int>, dlqTopic: string,
    processedAt: int)

  function ResponseTo(cfg: Config, m: Message, step: Step): Response
    requires step.Requeue? || step.Move? || step.Fail?
  {
    match step
    case Requeue(id, _, custom, now) =>
      Response(id, "requeued", m.retryCount + 1,
               Some(now + RetryDelay(cfg, custom, m.retryCount + 1, now)), "", now)
    case Move(id, _, _, now) => Response(id, "dlq", m.retryCount, None, DLQTopic(cfg, m.topic), now)
    case Fail(id, _, now) => Response(id, "failed", m.retryCount, None, "", now)
  }

  // The answer reports what has become of the message.
  predicate Answers(cfg: Config, m: Message, n: Message, r: Response, now: nat) {
    && r.messageID == m.id && r.retryCount == n.retryCount && r.processedAt == now
    && r.status == (if n.status == Pending then "requeued" else if n.status == DLQ then "dlq" else "failed")
    && r.dlqTopic == (if n.status == DLQ then cfg.dlqPrefix + m.topic else "")
    && (r.nextRetryAt.Some? <==> n.status == Pending)
    && (r.nextRetryAt.Some? ==> Reads(n.headers, "next_retry_at", cfg.formatTime(r.nextRetryAt.value)))
  }

  const DEFAULT_REASON := "processing failed"

  function ReasonOf(req: AckRequest): string {
    if req.reason.Some? then req.reason.value else DEFAULT_REASON
  }

  /* The header loops */

  method EnrichDLQMessage(cfg: Config, m: Message, id: string, reason: string, now: nat) returns (d: Message)
    ensures d == DLQCopy(cfg, m, id, reason, now)
  {
    var h: Headers := map[];
    var left := m.headers.Keys;
    while left != {}
      invariant left <= m.headers.Keys && h == map k | k in m.headers.Keys - left :: m.headers[k]
      decreases left
    {
      var k :| k in left;
      h := h[k := m.headers[k]];
      left := left - {k};
    }
    assert h == m.headers;
    h := h["dlq_reason" := reason];
    h := h["dlq_timestamp" := cfg.formatTime(now)];
    h := h["original_topic" := m.topic];
    h := h["original_message_id" := m.id];
    h := h["original_retry_count" := cfg.formatInt(m.retryCount)];
    h := h["original_created_at" := cfg.formatTime(m.createdAt)];
    if m.consumerID != "" {
      h := h["original_consumer_id" := m.consumerID];
    }
    if m.consumerGroup != "" {
      h := h["original_consumer_group" := m.consumerGroup];
    }
    if m.deliveredAt.Some? {
      h := h["original_delivered_at" := cfg.formatTime(m.deliveredAt.value)];
    }
    d := Message(id, DLQTopic(cfg, m.topic), m.partition, 0, m.key, m.payload, h, High, AtMostOnce, DLQ,
                 0, 0, "", "", now, Some(now + DLQ_TTL), None, None, false, "");
  }

  method CarryHeaders(h: Headers) returns (r: Headers)
    ensures r == CarriedHeaders(h)
    ensures forall k :: k in r <==> k in h && !("dlq_" <= k) && !("original_" <= k)
    ensures forall k :: k in r ==> r[k] == h[k]
  {
    r := map[];
    var left := h.Keys;
    while left != {}
      invariant left <= h.Keys && r == map k | k in h.Keys - left && Carried(k) :: h[k]
      decreases left
    {
      var k :| k in left;
      if !HasPrefix(k, "dlq_") && !HasPrefix(k, "original_") {
        r := r[k := h[k]];
      }
      left := left - {k};
    }
    assert CarriedHeaders(h) == map k | k in h.Keys - left && Carried(k) :: h[k];
  }

  // The new message and its headers.
  method BuildReprocessed(cfg: Config, d: Message, copy: string, now: nat) returns (n: Message)
    requires "original_topic" in d.headers
    ensures n == Reprocessed(cfg, d, copy, now)
  {
    var h := CarryHeaders(d.headers);
    h := h["reprocessed_from_dlq" := "true"];
    h := h["reprocessed_at" := cfg.formatTime(now)];
    h := h["original_dlq_message_id" := d.id];
    if "dlq_reason" in d.headers {
      h := h["original_dlq_reason" := d.headers["dlq_reason"]];
    }
    n := Message(copy, d.headers["original_topic"], d.partition, 0, d.key, d.payload, h, Normal, AtLeastOnce,
                 Pending, 0, cfg.maxRetries, "", "", now, None, None, None, false, "");
  }

  class Service {
    const cfg: Config
    const repo: Repository
    var stats: Stats

    constructor (cfg: Config, repo: Repository)
      requires Fenced(System(repo.messages, Stats(0, 0, 0, 0, 0, [])))
      ensures Valid() && this.cfg == cfg && this.repo == repo
      ensures View() == System(repo.messages, Stats(0, 0, 0, 0, 0, []))
    {
      this.cfg, this.repo, stats := cfg, repo, Stats(0, 0, 0, 0, 0, []);
    }

    ghost function View(): System
      reads this, repo
    {
      System(repo.messages, stats)
    }

    ghost predicate Valid()
      reads this, repo
    {
      Fenced(View())
    }

    // The system went through exactly these steps.
    twostate predicate Follows(steps: seq<Step>)
      reads this, repo
    {
      Legal(cfg, old(View()), steps) && View() == Run(cfg, old(View()), steps)
    }

    // A stored message that a consumer holds or that has been delivered.
    ghost predicate InHand(m: Message)
      reads this, repo
    {
      m.id in repo.messages && repo.messages[m.id] == m && Held(m)
    }

    method RequeueMessageForRetry(m: Message, reason: string, custom: int, now: nat)
      returns (r: Result<Response>, ghost steps: seq<Step>)
      requires Valid() && InHand(m) && ShouldRetry(cfg, m, m.retryCount + 1)
      modifies this, repo
      ensures Valid() && Follows(steps) && (repo.reliable ==> r.Ok?)
      ensures r.Ok? ==> steps == [Requeue(m.id, reason, custom, now)] && r.value == ResponseTo(cfg, m, steps[0])
      ensures r.Err? ==> r == Err(StoreFailed) && steps == []
    {
      steps := [];
      var n := m;
      n := n.(retryCount := n.retryCount + 1);
      n := n.(status := Pending, consumerID := "", deliveredAt := None, ackedAt := None);
      var at := now + RetryDelay(cfg, custom, n.retryCount, now);
      n := n.(headers := n.headers["retry_count" := cfg.formatInt(n.retryCount)]);
      n := n.(headers := n.headers["retry_reason" := reason]);
      n := n.(headers := n.headers["next_retry_at" := cfg.formatTime(at)]);
      assert n == Requeued(cfg, m, reason, custom, now);
      hide Requeued, RetryDelay, Fenced, Settles;
      var ok := repo.Put(n);
      if !ok { return Err(StoreFailed), steps; }
      stats := stats.(requeued := stats.requeued + 1);
      steps := [Requeue(m.id, reason, custom, now)];
      OneStep(cfg, old(View()), steps[0]);
      r := Ok(Response(n.id, "requeued", n.retryCount, Some(at), "", now));
    }

    method MarkMessageFailed(m: Message, reason: string, now: nat)
      returns (r: Result<Response>, ghost steps: seq<Step>)
      requires Valid() && InHand(m) && !ShouldMoveToDLQ(cfg, m)
      modifies this, repo
      ensures Valid() && Follows(steps) && (repo.reliable ==> r.Ok?)
      ensures r.Ok? ==> steps == [Fail(m.id, reason, now)] && r.value == ResponseTo(cfg, m, steps[0])
      ensures r.Err? ==> r == Err(StoreFailed) && steps == []
    {
      steps := [];
      var n := m.(status := Failed, consumerID := "");
      n := n.(headers := n.headers["failure_reason" := reason]);
      n := n.(headers := n.headers["failed_at" := cfg.formatTime(now)]);
      n := n.(headers := n.headers["final_retry_count" := cfg.formatInt(n.retryCount)]);
      assert n == MarkedFailed(cfg, m, reason, now);
      hide MarkedFailed;
      var ok := repo.Put(n);
      if !ok { return Err(StoreFailed), steps; }
      steps := [Fail(m.id, reason, now)];
      OneStep(cfg, old(View()), steps[0]);
      r := Ok(Response(n.id, "failed", n.retryCount, None, "", now));
    }

    method MoveMessageToDLQ(m: Message, reason: string, now: nat)
      returns (r: Result<Response>, ghost steps: seq<Step>)
      requires Valid() && InHand(m) && ShouldMoveToDLQ(cfg, m)
      modifies this, repo
      ensures Valid() && Follows(steps) && (repo.reliable ==> r.Ok?)
      ensures r.Ok? ==>
        && |steps| == 1 && steps[0].Move? && steps[0] == Move(m.id, steps[0].copy, reason, now)
        && r.value == ResponseTo(cfg, m, steps[0])
      ensures r.Err? ==> r == Err(StoreFailed) && HalfMoved(steps, m.id, DLQTopic(cfg, m.topic), reason, now)
    {
      var dlqTopic := DLQTopic(cfg, m.topic);
      var ok;
      ok, steps := StoreCopyAndMark(m, dlqTopic, reason, now);
      if !ok { return Err(StoreFailed), steps; }
      hide Enabled, Apply, Legal, Run, Fenced;
      ghost var copy, t := steps[0].copy, View();
      assert steps == [AdminMove(m.id, copy, dlqTopic, reason, now)];
      MoveIsCountedMove(cfg, old(View()), m, steps[0].copy, reason, now);
      stats := stats.(dlq := stats.dlq + 1);
      steps := [Move(m.id, steps[0].copy, reason, now)];
      r := Ok(Response(m.id, "dlq", m.retryCount, None, dlqTopic, now));
      assert View() == t.(stats := t.stats.(dlq := t.stats.dlq + 1));
    }

    // The part MoveToDLQ and moveMessageToDLQ share: store the copy, then the original.
    method StoreCopyAndMark(m: Message, dlqTopic: string, reason: string, now: nat)
      returns (ok: bool, ghost steps: seq<Step>)
      requires Valid() && m.id in repo.messages && repo.messages[m.id] == m
      modifies repo
      ensures Valid() && Follows(steps) && (repo.reliable ==> ok)
      ensures ok ==>
        |steps| == 1 && steps[0].AdminMove? && steps[0] == AdminMove(m.id, steps[0].copy, dlqTopic, reason, now)
      ensures !ok ==> HalfMoved(steps, m.id, dlqTopic, reason, now)
    {
      steps := [];
      var copy := NewId(repo.messages.Keys);
      CopyThenMark(cfg, View(), m, copy, dlqTopic, reason, now);
      var d := EnrichDLQMessage(cfg, m, copy, reason, now);
      d := d.(topic := dlqTopic);
      ok := repo.Put(d);
      if !ok { return; }
      var n := m.(status := DLQ, consumerID := "");
      n := n.(headers := n.headers["dlq_moved_at" := cfg.formatTime(now)]);
      n := n.(headers := n.headers["dlq_topic" := dlqTopic]);
      n := n.(headers := n.headers["dlq_message_id" := copy]);
      n := n.(headers := n.headers["dlq_reason" := reason]);
      assert n == MarkedDLQ(cfg, m, dlqTopic, copy, reason, now);
      hide *;
      ok := repo.Put(n);
      if ok {
        steps := [AdminMove(m.id, copy, dlqTopic, reason, now)];
      } else {
        steps := [Orphan(m.id, copy, dlqTopic, reason, now)];
      }
    }

    // The branch every failed delivery takes: a failed ack, a nack or an expiry.
    method Settle(m: Message, retry: bool, reason: string, custom: int, now: nat)
      returns (r: Result<Response>, ghost steps: seq<Step>)
      requires Valid() && InHand(m)
      modifies this, repo
      ensures Valid() && Follows(steps) && (repo.reliable ==> r.Ok?)
      ensures r.Ok? ==>
        && |steps| == 1 && Settles(cfg, m, retry, reason, custom, now, steps[0])
        && r.value == ResponseTo(cfg, m, steps[0])
      ensures r.Ok? ==>
        && Settlement(cfg, old(View()), View(), m.id, retry, reason, custom, now)
        && Answers(cfg, m, repo.messages[m.id], r.value, now)
      ensures r.Err? ==> r == Err(StoreFailed) && HalfMoved(steps, m.id, DLQTopic(cfg, m.topic), reason, now)
    {
      hide Settlement, Answers, ResponseTo, ShouldRetry, ShouldMoveToDLQ, Legal, Run, Fenced;
      if retry && ShouldRetry(cfg, m, m.retryCount + 1) {
        r, steps := RequeueMessageForRetry(m, reason, custom, now);
      } else if ShouldMoveToDLQ(cfg, m) {
        r, steps := MoveMessageToDLQ(m, reason, now);
      } else {
        r, steps := MarkMessageFailed(m, reason, now);
      }
      if r.Ok? {
        RunIsSettlement(cfg, old(View()), m, retry, reason, custom, now, steps);
      }
    }

    // An ack is refused unless it names the message's consumer; a successful one acknowledges
    // the message, a failed one settles it.
    method ProcessAcknowledgment(req: AckRequest, now: nat)
      returns (r: Result<Response>, ghost steps: seq<Step>)
      requires Valid()
      modifies this, repo
      ensures Valid() && Follows(steps) && (repo.reliable ==> r != Err(StoreFailed))
      ensures var s, id := old(View()).store, req.messageID;
        if id == "" || req.consumerID == "" then r == Err(InvalidRequest) && steps == []
        else if id !in s then r == Err(NotFound) && steps == []
        else if s[id].consumerID != req.consumerID then r == Err(NotOwner) && steps == []
        else if r.Err? then
          r == Err(StoreFailed) &&
          if req.success then steps == [NoteAck(req.processingTime)]
          else HalfMoved(steps, id, DLQTopic(cfg, s[id].topic), ReasonOf(req), now)
        else if req.success then
          steps == [NoteAck(req.processingTime), StoreAck(id, now)]
          && r == Ok(Response(id, "acknowledged", 0, None, "", now))
        else
          |steps| == 1
          && Settles(cfg, s[id], true, ReasonOf(req), 0, now, steps[0])
          && r == Ok(ResponseTo(cfg, s[id], steps[0]))
      // a successful ack acknowledges the message and counts it, a failed one settles it
      ensures r.Ok? && req.success ==>
        && repo.messages == old(repo.messages)[req.messageID :=
             old(repo.messages)[req.messageID].(status := Acknowledged, ackedAt := Some(now))]
        && stats == old(stats).(acknowledged := old(stats.acknowledged) + 1, times := stats.times)
      ensures r.Ok? && !req.success ==>
        var reason := if req.reason.Some? then req.reason.value else "processing failed";
        && Settlement(cfg, old(View()), View(), req.messageID, true, reason, 0, now)
        && Answers(cfg, old(repo.messages)[req.messageID], repo.messages[req.messageID], r.value, now)
      // a refusal changes nothing; the ack of a message that cannot be stored is counted
      ensures r.Err? && r.error != StoreFailed ==> View() == old(View())
      ensures r.Err? && req.success ==> repo.messages == old(repo.messages)
      ensures r == Err(StoreFailed) && req.success ==> stats.acknowledged == old(stats.acknowledged) + 1
      // fencing: between deliveries no consumer can touch the message
      ensures
        && req.messageID in old(View()).store
        && old(View()).store[req.messageID].status in {Pending, Failed, DLQ}
        ==> r.Err? && View() == old(View())
    {
      steps := [];
      hide Settlement, Answers;
      if req.messageID == "" || req.consumerID == "" { return Err(InvalidRequest), steps; }
      if req.messageID !in repo.messages { return Err(NotFound), steps; }
      var m := repo.messages[req.messageID];
      if m.consumerID != req.consumerID { return Err(NotOwner), steps; }
      if req.success {
        ghost var s := View();
        stats := stats.(acknowledged := stats.acknowledged + 1, times := Recorded(stats.times, req.processingTime));
        steps := [NoteAck(req.processingTime)];
        OneStep(cfg, s, steps[0]);
        var ok := repo.Put(m.(status := Acknowledged, ackedAt := Some(now)));
        if !ok { return Err(StoreFailed), steps; }
        OneStep(cfg, Run(cfg, s, steps), StoreAck(m.id, now));
        RunConcat(cfg, s, steps, [StoreAck(m.id, now)]);
        steps := steps + [StoreAck(m.id, now)];
        return Ok(Response(m.id, "acknowledged", 0, None, "", now)), steps;
      }
      var reason := if req.reason.Some? then req.reason.value else DEFAULT_REASON;
      r, steps := Settle(m, true, reason, 0, now);
    }

    // A nack is refused unless it names the message's consumer; otherwise it settles the
    // message, retrying only if it asks for that.
    method ProcessNegativeAcknowledgment(req: NackRequest, now: nat)
      returns (r: Result<Response>, ghost steps: seq<Step>)
      requires Valid()
      modifies this, repo
      ensures Valid() && Follows(steps) && (repo.reliable ==> r != Err(StoreFailed))
      ensures var s, id := old(View()).store, req.messageID;
        if id == "" || req.consumerID == "" then r == Err(InvalidRequest) && steps == []
        else if id !in s then r == Err(NotFound) && steps == []
        else if s[id].consumerID != req.consumerID then r == Err(NotOwner) && steps == []
        else if r.Err? then r == Err(StoreFailed) && HalfMoved(steps, id, DLQTopic(cfg, s[id].topic), req.reason, now)
        else
          |steps| == 1 && Settles(cfg, s[id], req.retry, req.reason, req.retryDelay, now, steps[0])
          && r == Ok(ResponseTo(cfg, s[id], steps[0]))
      ensures r.Ok? ==>
        && Settlement(cfg, old(View()), View(), req.messageID, req.retry, req.reason, req.retryDelay, now)
        && Answers(cfg, old(repo.messages)[req.messageID], repo.messages[req.messageID], r.value, now)
      ensures r.Err? && r.error != StoreFailed ==> View() == old(View())
      // fencing: between deliveries no consumer can touch the message
      ensures
        && req.messageID in old(View()).store
        && old(View()).store[req.messageID].status in {Pending, Failed, DLQ}
        ==> r.Err? && View() == old(View())
    {
      steps := [];
      hide Settlement, Answers;
      if req.messageID == "" || req.consumerID == "" { return Err(InvalidRequest), steps; }
      if req.messageID !in repo.messages { return Err(NotFound), steps; }
      var m := repo.messages[req.messageID];
      if m.consumerID != req.consumerID { return Err(NotOwner), steps; }
      r, steps := Settle(m, req.retry, req.reason, req.retryDelay, now);
    }

    // The expiry sweep settles every delivered message that is past its deadline.  The report
    // counts what took effect; what the report misses is still past its deadline, and nothing
    // else is.
    method CheckExpiredAcknowledgments(now: nat)
      returns (r: Result<Report>, ghost steps: seq<Step>)
      requires Valid()
      modifies this, repo
      ensures Valid() && Follows(steps) && (repo.reliable ==> r.Ok?)
      ensures r.Err? ==> r == Err(QueryFailed) && steps == []
      ensures r.Ok? ==> SweepResult(cfg, now, old(View()), View(), r.value)
      ensures ExpiredIds(cfg, now, old(View())) == {} ==> steps == [] && View() == old(View())
      ensures r.Ok? && repo.reliable ==> Reported(r.value) == ExpiredIds(cfg, now, old(View()))
      // every entry is of a message past its deadline that was settled; if no store fails they
      // are all such messages
      ensures r.Ok? ==> forall e :: e in r.value.expired ==> Describes(cfg, now, old(View()), View(), e)
      ensures r.Ok? && repo.reliable ==> forall id :: id in old(repo.messages) ==>
        var m := old(repo.messages)[id];
        (m.status == Delivered && m.deliveredAt.Some? && now > m.deliveredAt.value + cfg.ackDeadline)
        <==> (exists e :: e in r.value.expired && e.messageID == id)
    {
      steps := [];
      ghost var s := View();
      var ok, list := repo.GetUnacknowledged(cfg, now);
      if !ok { return Err(QueryFailed), steps; }
      var report := Report(0, 0, 0, now, []);
      ghost var missed, origin := {}, map[];
      hide Enabled, Apply, Legal, Run, Fenced, Sweeping, SweepResult, Unacknowledged, ExpiredIds, Reported;
      SweepStart(cfg, now, s, list);
      for i := 0 to |list|
        invariant Valid() && Sweeping(cfg, now, s, View(), list, i, steps, report, missed, origin)
        invariant ExpiredIds(cfg, now, s) == {} ==> steps == []
        invariant repo.reliable ==> missed == {}
      {
        var m := list[i];
        SweepNext(cfg, now, s, View(), list, i, steps, report, missed, origin);
        if m.deliveredAt.None? { continue; }
        if now > m.deliveredAt.value + cfg.ackDeadline {
          report, steps, missed, origin := ExpireOne(m, report, now, s, list, i, steps, missed, origin);
        }
      }
      SweepEnd(cfg, now, s, View(), list, steps, report, missed, origin);
      SweepReports(cfg, now, s, View(), report);
      r := Ok(report);
    }

    // The body of the sweep for a message past its deadline: an error leaves the report alone.
    method ExpireOne(m: Message, before: Report, now: nat,
                     ghost s: System, ghost list: seq<Message>, ghost i: nat, ghost done: seq<Step>,
                     ghost missed: set<string>, ghost origin: map<string, string>)
      returns (report: Report, ghost steps: seq<Step>, ghost missing: set<string>, ghost origins: map<string, string>)
      requires Valid() && Sweeping(cfg, now, s, View(), list, i, done, before, missed, origin)
      requires i < |list| && m == list[i] && PastDeadline(cfg, m, now)
      modifies this, repo
      ensures Valid() && Sweeping(cfg, now, s, View(), list, i + 1, steps, report, missing, origins)
      ensures repo.reliable ==> missing == missed
    {
      hide Enabled, Apply, Legal, Run, Fenced, Sweeping, Settles, Held, ShouldRetry, ShouldMoveToDLQ;
      hide ResponseTo, ActionOf, HalfMoved, CopyIn, WithCopy, Settlement, Answers;
      ghost var t := View();
      report := before;
      SweepNext(cfg, now, s, t, list, i, done, before, missed, origin);
      var result, more := Settle(m, true, EXPIRY_REASON, 0, now);
      if result.Err? {
        SweepError(cfg, now, s, t, list, i, done, before, missed, origin, more);
        steps, missing, origins := done + more, missed + {m.id}, WithCopy(origin, m.id, CopyIn(more));
        return;
      }
      var status := result.value.status;
      StatusIsAction(cfg, m, now, more[0]);
      SweepTake(cfg, now, s, t, list, i, done, before, missed, origin, more);
      if status == "requeued" {
        report := report.(requeuedCount := report.requeuedCount + 1);
      } else if status == "dlq" {
        report := report.(dlqCount := report.dlqCount + 1);
      }
      var info := ExpiredInfo(m.id, m.topic, m.consumerID, m.deliveredAt.value, cfg.ackDeadline, status);
      report := report.(expired := report.expired + [info], expiredCount := report.expiredCount + 1);
      stats := stats.(expired := stats.expired + 1);
      steps, missing, origins := done + more + [NoteExpired], missed, WithCopy(origin, m.id, CopyIn(more));
    }

    // One tick of the retry worker: failed messages with exhausted retries and a retry time in
    // the past become pending again, nothing else changes.
    method RetryTick(now: nat) returns (r: Result<()>, ghost steps: seq<Step>)
      requires Valid()
      modifies repo
      ensures Valid() && Follows(steps) && (repo.reliable ==> r.Ok?)
      ensures r.Err? ==> r == Err(QueryFailed) && steps == []
      ensures exists reset :: reset <= DueIds(cfg, now, old(View())) && ResetIn(old(View()), View(), reset)
      ensures repo.reliable ==> ResetIn(old(View()), View(), DueIds(cfg, now, old(View())))
      ensures stats == old(stats) && Ticked(cfg, old(repo.messages), repo.messages, repo.reliable, now)
    {
      steps := [];
      ghost var s := View();
      var ok, list := repo.GetFailedMessages(cfg.maxRetries);
      hide Enabled, Apply, Legal, Run, Fenced, Ticking, ResetIn;
      TickStart(cfg, now, s);
      hide Ticked, DueIds;
      NoTick(cfg, now, s);
      if !ok { return Err(QueryFailed), steps; }
      ghost var reset, missed := {}, {};
      for i := 0 to |list|
        invariant Valid() && Ticking(cfg, now, s, View(), list, i, steps, reset, missed)
        invariant repo.reliable ==> missed == {}
      {
        var m := list[i];
        TickNext(cfg, now, s, View(), list, i, steps, reset, missed);
        if "next_retry_at" in m.headers {
          var due := cfg.parseTime(m.headers["next_retry_at"]);
          if due.Some? && now > due.value {
            TickReset(cfg, now, s, View(), list, i, steps, reset, missed);
            TickMiss(cfg, now, s, View(), list, i, steps, reset, missed);
            var n := m.(status := Pending);
            n := n.(consumerID := "");
            n := n.(deliveredAt := None);
            var stored := repo.Put(n);
            if stored {
              steps, reset := steps + [WorkerReset(m.id, now)], reset + {m.id};
            } else {
              missed := missed + {m.id};
            }
          }
        }
      }
      TickEnd(cfg, now, s, View(), list, steps, reset, missed);
      ResetIsTick(cfg, now, s, View(), reset);
      r := Ok(());
    }

    // The administrator's requeue counts as a retry but heeds no limit.
    method RequeueMessage(id: string, reason: string, custom: int, now: nat)
      returns (r: Result<()>, ghost steps: seq<Step>)
      requires Valid()
      modifies repo
      ensures Valid() && Follows(steps) && (repo.reliable ==> r != Err(StoreFailed))
      ensures if id !in old(repo.messages) then r == Err(NotFound) && steps == []
              else if r.Err? then r == Err(StoreFailed) && steps == []
              else steps == [AdminRequeue(id, reason, custom, now)]
      ensures r.Err? ==> View() == old(View())
      ensures r.Ok? ==>
        && stats == old(stats) && id in old(repo.messages) && id in repo.messages
        && repo.messages == old(repo.messages)[id := repo.messages[id]]
        && IsRequeued(cfg, old(repo.messages)[id], repo.messages[id], reason, custom, now)
    {
      steps := [];
      if id !in repo.messages { return Err(NotFound), steps; }
      var m := repo.messages[id];
      m := m.(retryCount := m.retryCount + 1);
      m := m.(status := Pending, consumerID := "", deliveredAt := None, ackedAt := None);
      var at := now + RetryDelay(cfg, custom, m.retryCount, now);
      m := m.(headers := m.headers["retry_count" := cfg.formatInt(m.retryCount)]);
      m := m.(headers := m.headers["retry_reason" := reason]);
      m := m.(headers := m.headers["next_retry_at" := cfg.formatTime(at)]);
      assert m == Requeued(cfg, repo.messages[id], reason, custom, now);
      hide Requeued, IsRequeued;
      var ok := repo.Put(m);
      if !ok { return Err(StoreFailed), steps; }
      steps := [AdminRequeue(id, reason, custom, now)];
      OneStep(cfg, old(View()), steps[0]);
      RequeuedIs(cfg, old(repo.messages)[id], reason, custom, now);
      r := Ok(());
    }

    // The administrator's move goes to the given topic, or to the default one if none is given.
    method MoveToDLQ(id: string, reason: string, topic: string, now: nat)
      returns (r: Result<()>, ghost steps: seq<Step>)
      requires Valid()
      modifies repo
      ensures Valid() && Follows(steps) && (repo.reliable ==> r != Err(StoreFailed))
      ensures
        if id !in old(repo.messages) then r == Err(NotFound) && steps == []
        else
          var to := if topic == "" then DLQTopic(cfg, old(repo.messages)[id].topic) else topic;
          if r.Err? then r == Err(StoreFailed) && HalfMoved(steps, id, to, reason, now)
          else |steps| == 1 && steps[0].AdminMove? && steps[0] == AdminMove(id, steps[0].copy, to, reason, now)
      ensures r.Ok? ==>
        && stats == old(stats)
        && MovedTo(cfg, old(repo.messages), repo.messages, id,
                   if topic == "" then cfg.dlqPrefix + old(repo.messages)[id].topic else topic, reason, now)
    {
      steps := [];
      hide MovedTo;
      if id !in repo.messages { return Err(NotFound), steps; }
      var m := repo.messages[id];
      var dlqTopic := topic;
      if dlqTopic == "" {
        dlqTopic := DLQTopic(cfg, m.topic);
      }
      var ok;
      ok, steps := StoreCopyAndMark(m, dlqTopic, reason, now);
      r := if ok then Ok(()) else Err(StoreFailed);
      if ok { RunIsMove(cfg, old(View()), steps); }
    }

    // Reprocessing stores a new pending message on the original topic; the mark on the
    // dead-letter copy may fail without failing the call.
    method ReprocessDLQMessage(id: string, now: nat)
      returns (r: Result<()>, ghost steps: seq<Step>)
      requires Valid()
      modifies repo
      ensures Valid() && Follows(steps) && (repo.reliable ==> r != Err(StoreFailed))
      ensures var s := old(repo.messages);
        if id !in s then r == Err(NotFound) && steps == []
        else if s[id].status != DLQ then r == Err(NotDLQ) && steps == []
        else if "original_topic" !in s[id].headers then r == Err(NoOriginalTopic) && steps == []
        else if r.Err? then r == Err(StoreFailed) && steps == []
        else
          && |steps| == 1 && steps[0].Reprocess?
          && steps[0] == Reprocess(id, steps[0].copy, now, steps[0].marked)
          && (repo.reliable ==> steps[0].marked)
      ensures r.Err? ==> View() == old(View())
      ensures r.Ok? ==>
        && stats == old(stats)
        && ReprocessedAs(cfg, old(repo.messages), repo.messages, id, steps[0].copy, steps[0].marked, now)
    {
      steps := [];
      if id !in repo.messages { return Err(NotFound), steps; }
      var d := repo.messages[id];
      if d.status != DLQ { return Err(NotDLQ), steps; }
      if "original_topic" !in d.headers { return Err(NoOriginalTopic), steps; }
      var copy := NewId(repo.messages.Keys);
      var n := BuildReprocessed(cfg, d, copy, now);
      hide Reprocessed;
      var ok := repo.Put(n);
      if !ok { return Err(StoreFailed), steps; }
      d := d.(headers := d.headers["reprocessed" := "true"]);
      d := d.(headers := d.headers["reprocessed_at" := cfg.formatTime(now)]);
      d := d.(headers := d.headers["reprocessed_message_id" := copy]);
      assert d == MarkedReprocessed(cfg, old(repo.messages)[id], copy, now);
      hide MarkedReprocessed, ReprocessedAs;
      ghost var stored := repo.messages;
      var marked := repo.Put(d);
      assert stored == stored[id := stored[id]];
      steps := [Reprocess(id, copy, now, marked)];
      OneStep(cfg, old(View()), steps[0]);
      ReprocessIs(cfg, old(View()), steps[0]);
      r := Ok(());
    }
  }

  lemma RunIsMove(cfg: Config, s: System, steps: seq<Step>)
    requires Fenced(s) && |steps| == 1 && steps[0].AdminMove? && Legal(cfg, s, steps)
    ensures var move := steps[0];
      MovedTo(cfg, s.store, Run(cfg, s, steps).store, move.id, move.topic, move.reason, move.now)
  {
    assert steps == [steps[0]] && Enabled(cfg, s, steps[0]);
    AdminMoveIs(cfg, s, steps[0]);
    OneStep(cfg, s, steps[0]);
  }

  lemma RunIsSettlement(cfg: Config, s: System, m: Message, retry: bool, reason: string, custom: int, now: nat,
                        steps: seq<Step>)
    requires Fenced(s) && m.id in s.store && s.store[m.id] == m && Legal(cfg, s, steps)
    requires |steps| == 1 && Settles(cfg, m, retry, reason, custom, now, steps[0])
    ensures var t := Run(cfg, s, steps);
      && Settlement(cfg, s, t, m.id, retry, reason, custom, now)
      && Answers(cfg, m, t.store[m.id], ResponseTo(cfg, m, steps[0]), now)
  {
    assert steps == [steps[0]] && Enabled(cfg, s, steps[0]);
    StepIsSettlement(cfg, s, m, retry, reason, custom, now, steps[0]);
    OneStep(cfg, s, steps[0]);
    hide Settlement, Fenced, DLQHeaders, Held;
    StepAnswers(cfg, s, m, retry, reason, custom, now, steps[0]);
  }

  lemma StepAnswers(cfg: Config, s: System, m: Message, retry: bool, reason: string, custom: int, now: nat, step: Step)
    requires Fenced(s) && m.id in s.store && s.store[m.id] == m && Enabled(cfg, s, step)
    requires Settles(cfg, m, retry, reason, custom, now, step)
    ensures m.id in Apply(cfg, s, step).store
    ensures Answers(cfg, m, Apply(cfg, s, step).store[m.id], ResponseTo(cfg, m, step), now)
  {
    FencedId(s, m.id);
    hide Fenced, DLQHeaders, Held, RetryDelay, ShouldRetry, ShouldMoveToDLQ;
  }

  lemma StatusIsAction(cfg: Config, m: Message, now: nat, step: Step)
    requires Settles(cfg, m, true, EXPIRY_REASON, 0, now, step)
    ensures ResponseTo(cfg, m, step).status == ActionOf(step)
  {
  }

  // Storing the copy alone is an orphan step; storing the marked original after it, a move.
  lemma CopyThenMark(cfg: Config, s: System, m: Message, copy: string, topic: string, reason: string, now: nat)
    requires Fenced(s) && m.id in s.store && s.store[m.id] == m && Fresh(s, copy)
    ensures var d := CopyTo(cfg, m, copy, topic, reason, now);
      var one := System(s.store[copy := d], s.stats);
      var both := System(one.store[m.id := MarkedDLQ(cfg, m, topic, copy, reason, now)], s.stats);
      && d.id == copy && MarkedDLQ(cfg, m, topic, copy, reason, now).id == m.id
      && Legal(cfg, s, [Orphan(m.id, copy, topic, reason, now)])
      && Run(cfg, s, [Orphan(m.id, copy, topic, reason, now)]) == one && Fenced(one)
      && Legal(cfg, s, [AdminMove(m.id, copy, topic, reason, now)])
      && Run(cfg, s, [AdminMove(m.id, copy, topic, reason, now)]) == both && Fenced(both)
    ensures Legal(cfg, s, []) && Run(cfg, s, []) == s
  {
    OneStep(cfg, s, Orphan(m.id, copy, topic, reason, now));
    OneStep(cfg, s, AdminMove(m.id, copy, topic, reason, now));
  }

  // An automatic move is an administrator's move to the default topic that is also counted.
  lemma MoveIsCountedMove(cfg: Config, s: System, m: Message, copy: string, reason: string, now: nat)
    requires Fenced(s) && m.id in s.store && s.store[m.id] == m && Held(m) && ShouldMoveToDLQ(cfg, m)
    requires Legal(cfg, s, [AdminMove(m.id, copy, DLQTopic(cfg, m.topic), reason, now)])
    ensures Legal(cfg, s, [Move(m.id, copy, reason, now)])
    ensures var t := Run(cfg, s, [AdminMove(m.id, copy, DLQTopic(cfg, m.topic), reason, now)]);
      && Run(cfg, s, [Move(m.id, copy, reason, now)]) == t.(stats := t.stats.(dlq := t.stats.dlq + 1))
      && Fenced(Run(cfg, s, [Move(m.id, copy, reason, now)]))
  {
    OneStep(cfg, s, AdminMove(m.id, copy, DLQTopic(cfg, m.topic), reason, now));
    OneStep(cfg, s, Move(m.id, copy, reason, now));
    assert CopyTo(cfg, m, copy, DLQTopic(cfg, m.topic), reason, now) == DLQCopy(cfg, m, copy, reason, now);
  }
}
