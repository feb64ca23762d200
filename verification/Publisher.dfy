// Publishing one message, and publishing a batch.  A draw is the id and the clock reading a
// call takes for one message.

module Publisher {
  import opened Messages
  import opened Options
  import opened PartitionHash
  import AckPolicy
  import AckSystem

  datatype Config = Config(
    maxBatch: int, maxRetries: int, defaultPartitions: int, compressionType: string,
    compress: seq<Byte> -> Option<seq<Byte>>, bytesOf: string -> seq<Byte>)

  datatype Topic = Topic(partitions: int, messageCount: int, bytesIn: int)

  datatype Request = Request(
    topic: string, key: seq<Byte>, payload: seq<Byte>, headers: Headers, priority: Priority,
    deliveryMode: DeliveryMode, ttl: Option<int>, partition: Option<int>)

  datatype Input = Input(
    key: seq<Byte>, payload: seq<Byte>, headers: Headers, priority: Priority,
    deliveryMode: DeliveryMode, ttl: Option<int>)

  datatype Draw = Draw(id: string, now: int)

  datatype Response = Response(
    messageID: string, topic: string, partition: int, offset: int, timestamp: int, compressed: bool)

  datatype BatchResponse = BatchResponse(
    published: int, failed: int, messageIDs: seq<string>, responses: seq<Response>, errors: seq<nat>)

  datatype Error = InvalidRequest | EmptyBatch | BatchTooLarge | TopicFailed | StoreFailed

  datatype Result<T> = Ok(value: T) | Err(error: Error)

  datatype State = State(messages: map<string, Message>, topics: map<string, Topic>)

  /* What is stored */

  // A request's priority and delivery mode are replaced when they are Go's zero values, which
  // are the lowest priority and at-most-once delivery.
  function MessageFor(cfg: Config, req: Request, partitions: int, d: Draw): Message
    requires 0 < partitions
  {
    var packed := Packed(cfg, req.payload);
    Message(d.id, req.topic, PartitionFor(req.partition, req.key, cfg.bytesOf(d.id), partitions), 0,
            req.key, if packed.Some? then packed.value else req.payload, req.headers,
            if req.priority == Low then Normal else req.priority,
            if req.deliveryMode == AtMostOnce then AtLeastOnce else req.deliveryMode,
            Pending, 0, cfg.maxRetries, "", "", d.now,
            if req.ttl.Some? then Some(d.now + req.ttl.value) else None, None, None,
            packed.Some?, if packed.Some? then cfg.compressionType else "")
  }

  function Packed(cfg: Config, payload: seq<Byte>): Option<seq<Byte>> {
    if cfg.compressionType != "none" && |payload| > 1024 then cfg.compress(payload) else None
  }

  function ResponseTo(m: Message): Response {
    Response(m.id, m.topic, m.partition, m.offset, m.createdAt, m.compressed)
  }

  function ResponsesTo(batch: seq<Message>): (rs: seq<Response>)
    ensures |rs| == |batch| && forall k :: 0 <= k < |rs| ==> rs[k] == ResponseTo(batch[k])
  {
    if batch == [] then [] else ResponsesTo(batch[..|batch| - 1]) + [ResponseTo(batch[|batch| - 1])]
  }

  function IdsOf(batch: seq<Message>): (ids: seq<string>)
    ensures |ids| == |batch| && forall k :: 0 <= k < |ids| ==> ids[k] == batch[k].id
  {
    if batch == [] then [] else IdsOf(batch[..|batch| - 1]) + [batch[|batch| - 1].id]
  }

  predicate Accepts(cfg: Config, req: Request) {
    req.topic != "" && 0 < |req.payload| <= cfg.maxBatch * 1024
  }

  ghost predicate WellFormed(cfg: Config, s: State) {
    && 0 < cfg.defaultPartitions < TWO31
    && forall t :: t in s.topics ==> 0 < s.topics[t].partitions < TWO31
  }

  function WithTopic(cfg: Config, s: State, topic: string): State {
    if topic in s.topics then s else s.(topics := s.topics[topic := Topic(cfg.defaultPartitions, 0, 0)])
  }

  function Counted(t: Topic, messages: int, bytes: int): Topic {
    t.(messageCount := t.messageCount + messages, bytesIn := t.bytesIn + bytes)
  }

  // The state after Publish has accepted a request.
  function Published(cfg: Config, s: State, req: Request, d: Draw): State
    requires WellFormed(cfg, s)
  {
    var s1 := WithTopic(cfg, s, req.topic);
    var t := s1.topics[req.topic];
    State(s1.messages[d.id := MessageFor(cfg, req, t.partitions, d)],
          s1.topics[req.topic := Counted(t, 1, |req.payload|)])
  }

  /* Batches */

  function RequestOf(topic: string, i: Input): Request {
    Request(topic, i.key, i.payload, i.headers, i.priority, i.deliveryMode, i.ttl, None)
  }

  // The messages of the valid inputs, in order.
  function Accepted(cfg: Config, topic: string, partitions: int, inputs: seq<Input>, draws: seq<Draw>): seq<Message>
    requires |inputs| == |draws| && 0 < partitions
  {
    if inputs == [] then []
    else
      var n := |inputs| - 1;
      Accepted(cfg, topic, partitions, inputs[..n], draws[..n])
      + (if inputs[n].payload == [] then [] else [MessageFor(cfg, RequestOf(topic, inputs[n]), partitions, draws[n])])
  }

  function Rejected(inputs: seq<Input>): seq<nat> {
    if inputs == [] then []
    else
      var n := |inputs| - 1;
      Rejected(inputs[..n]) + (if inputs[n].payload == [] then [n] else [])
  }

  function Bytes(inputs: seq<Input>): nat {
    if inputs == [] then 0 else Bytes(inputs[..|inputs| - 1]) + |inputs[|inputs| - 1].payload|
  }

  function Stored(messages: map<string, Message>, batch: seq<Message>): map<string, Message> {
    if batch == [] then messages
    else Stored(messages, batch[..|batch| - 1])[batch[|batch| - 1].id := batch[|batch| - 1]]
  }

  // The state after PublishBatch.
  function BatchPublished(cfg: Config, s: State, topic: string, inputs: seq<Input>, draws: seq<Draw>): State
    requires WellFormed(cfg, s) && |inputs| == |draws|
  {
    var s1 := WithTopic(cfg, s, topic);
    var t := s1.topics[topic];
    var batch := Accepted(cfg, topic, t.partitions, inputs, draws);
    State(Stored(s1.messages, batch), s1.topics[topic := Counted(t, |batch|, Bytes(inputs))])
  }

  // The state after giving the inputs with a payload to Publish one at a time.
  ghost function OneByOne(cfg: Config, s: State, topic: string, inputs: seq<Input>, draws: seq<Draw>): (t: State)
    requires WellFormed(cfg, s) && |inputs| == |draws|
    ensures WellFormed(cfg, t)
  {
    if inputs == [] then s
    else
      var n := |inputs| - 1;
      var before := OneByOne(cfg, s, topic, inputs[..n], draws[..n]);
      var req := RequestOf(topic, inputs[n]);
      if inputs[n].payload != [] && Accepts(cfg, req) then Published(cfg, before, req, draws[n]) else before
  }

  // Publish would accept every input the batch accepts.
  predicate AllAcceptable(cfg: Config, topic: string, inputs: seq<Input>) {
    forall i :: 0 <= i < |inputs| && inputs[i].payload != [] ==> Accepts(cfg, RequestOf(topic, inputs[i]))
  }

  // A batch leaves the messages and the topic counters exactly as publishing its inputs one
  // by one does, apart from creating a missing topic even when no input is valid, if and only
  // if Publish accepts all its inputs that have a payload.
  lemma BatchRefinesSingle(cfg: Config, s: State, topic: string, inputs: seq<Input>, draws: seq<Draw>)
    requires WellFormed(cfg, s) && |inputs| == |draws|
    ensures BatchPublished(cfg, s, topic, inputs, draws)
         == WithTopic(cfg, OneByOne(cfg, s, topic, inputs, draws), topic)
      <==> AllAcceptable(cfg, topic, inputs)
  {
    hide MessageFor, BatchPublished, OneByOne, Accepts, Accepted;
    if AllAcceptable(cfg, topic, inputs) {
      BatchIsOneByOne(cfg, s, topic, inputs, draws);
    } else {
      BatchState(cfg, s, topic, inputs, draws);
      CountsDiffer(cfg, s, topic, inputs, draws);
    }
  }

  // An input whose payload Publish rejects as too large, and one without a topic: a batch
  // accepts both.
  const SMALL := Input([], [0], map[], Normal, AtLeastOnce, None)

  function Oversized(cfg: Config): Input
    requires 1 <= cfg.maxBatch
  {
    SMALL.(payload := seq(cfg.maxBatch * 1024 + 1, _ => 0))
  }

  lemma OversizedPayloadInBatch(cfg: Config, s: State, topic: string, d: Draw)
    requires WellFormed(cfg, s) && 1 <= cfg.maxBatch
    ensures OneByOne(cfg, s, topic, [Oversized(cfg)], [d]) == s
    ensures MessagesIn(BatchPublished(cfg, s, topic, [Oversized(cfg)], [d]), topic) == MessagesIn(s, topic) + 1
  {
    BatchOfOne(cfg, s, topic, Oversized(cfg), d);
  }

  lemma EmptyTopicInBatch(cfg: Config, s: State, d: Draw)
    requires WellFormed(cfg, s)
    ensures OneByOne(cfg, s, "", [SMALL], [d]) == s
    ensures MessagesIn(BatchPublished(cfg, s, "", [SMALL], [d]), "") == MessagesIn(s, "") + 1
  {
    BatchOfOne(cfg, s, "", SMALL, d);
  }

  function MessagesIn(s: State, topic: string): int {
    if topic in s.topics then s.topics[topic].messageCount else 0
  }

  // A batch of one input that Publish refuses.
  lemma BatchOfOne(cfg: Config, s: State, topic: string, i: Input, d: Draw)
    requires WellFormed(cfg, s) && i.payload != [] && !Accepts(cfg, RequestOf(topic, i))
    ensures OneByOne(cfg, s, topic, [i], [d]) == s
    ensures MessagesIn(BatchPublished(cfg, s, topic, [i], [d]), topic) == MessagesIn(s, topic) + 1
  {
    hide MessageFor, Accepts;
    var t := WithTopic(cfg, s, topic).topics[topic];
    assert |Accepted(cfg, topic, t.partitions, [i], [d])| == 1;
  }

  lemma {:induction false} BatchIsOneByOne(cfg: Config, s: State, topic: string, inputs: seq<Input>, draws: seq<Draw>)
    requires WellFormed(cfg, s) && |inputs| == |draws| && AllAcceptable(cfg, topic, inputs)
    ensures BatchPublished(cfg, s, topic, inputs, draws)
         == WithTopic(cfg, OneByOne(cfg, s, topic, inputs, draws), topic)
    decreases |inputs|
  {
    hide MessageFor, Accepts;
    if inputs != [] {
      var n := |inputs| - 1;
      assert forall i :: 0 <= i < n ==> inputs[..n][i] == inputs[i];
      BatchIsOneByOne(cfg, s, topic, inputs[..n], draws[..n]);
      BatchStep(cfg, s, topic, inputs, draws);
    } else {
      var s1 := WithTopic(cfg, s, topic);
      assert s1.topics[topic := Counted(s1.topics[topic], 0, 0)] == s1.topics;
    }
  }

  lemma PublishedCounts(cfg: Config, s: State, req: Request, d: Draw)
    requires WellFormed(cfg, s)
    ensures var t := Published(cfg, s, req, d);
      && req.topic in t.topics
      && t.topics[req.topic].messageCount == WithTopic(cfg, s, req.topic).topics[req.topic].messageCount + 1
  {
    hide MessageFor;
  }

  // The topic counts every message of a batch, but only the inputs Publish accepts.
  lemma {:induction false} CountsDiffer(cfg: Config, s: State, topic: string, inputs: seq<Input>, draws: seq<Draw>)
    requires WellFormed(cfg, s) && |inputs| == |draws|
    ensures var count := WithTopic(cfg, s, topic).topics[topic].messageCount;
      var single := WithTopic(cfg, OneByOne(cfg, s, topic, inputs, draws), topic).topics[topic].messageCount;
      var batch := Accepted(cfg, topic, WithTopic(cfg, s, topic).topics[topic].partitions, inputs, draws);
      single <= count + |batch| && (!AllAcceptable(cfg, topic, inputs) ==> single < count + |batch|)
    decreases |inputs|
  {
    hide MessageFor, Accepts, Published;
    if inputs != [] {
      var n := |inputs| - 1;
      CountsDiffer(cfg, s, topic, inputs[..n], draws[..n]);
      PublishedCounts(cfg, OneByOne(cfg, s, topic, inputs[..n], draws[..n]), RequestOf(topic, inputs[n]), draws[n]);
      if !AllAcceptable(cfg, topic, inputs) && AllAcceptable(cfg, topic, inputs[..n]) {
        assert forall i :: 0 <= i < n ==> inputs[..n][i] == inputs[i];
      }
    }
  }

  // One more input: the batch grows as if it had been published last.
  lemma BatchStep(cfg: Config, s: State, topic: string, inputs: seq<Input>, draws: seq<Draw>)
    requires WellFormed(cfg, s) && |inputs| == |draws| && inputs != []
    ensures var n := |inputs| - 1;
      var before := BatchPublished(cfg, s, topic, inputs[..n], draws[..n]);
      && WellFormed(cfg, before) && topic in before.topics
      && BatchPublished(cfg, s, topic, inputs, draws) ==
           if inputs[n].payload == [] then before
           else Published(cfg, before, RequestOf(topic, inputs[n]), draws[n])
  {
    hide MessageFor, Stored, Bytes, Accepted;
    var n := |inputs| - 1;
    var s1 := WithTopic(cfg, s, topic);
    var t := s1.topics[topic];
    var batch := Accepted(cfg, topic, t.partitions, inputs[..n], draws[..n]);
    var m := MessageFor(cfg, RequestOf(topic, inputs[n]), t.partitions, draws[n]);
    LastInput(cfg, topic, t.partitions, inputs, draws);
    StoredStep(s1.messages, batch, m);
    MessageIsDrawn(cfg, RequestOf(topic, inputs[n]), t.partitions, draws[n]);
    var done, all := Counted(t, |batch|, Bytes(inputs[..n])), Counted(t, |batch| + 1, Bytes(inputs));
    assert s1.topics[topic := done][topic := all] == s1.topics[topic := all];
    if inputs[n].payload != [] {
      var before := BatchPublished(cfg, s, topic, inputs[..n], draws[..n]);
      assert before.topics[topic] == done && WithTopic(cfg, before, topic) == before;
      assert Counted(done, 1, |inputs[n].payload|) == all;
    }
  }

  lemma StoredStep(messages: map<string, Message>, batch: seq<Message>, m: Message)
    ensures Stored(messages, batch + [m]) == Stored(messages, batch)[m.id := m]
  {
    assert (batch + [m])[..|batch|] == batch;
  }

  lemma LastInput(cfg: Config, topic: string, partitions: int, inputs: seq<Input>, draws: seq<Draw>)
    requires |inputs| == |draws| && inputs != [] && 0 < partitions
    ensures var n := |inputs| - 1;
      var before := Accepted(cfg, topic, partitions, inputs[..n], draws[..n]);
      && Accepted(cfg, topic, partitions, inputs, draws) ==
           (if inputs[n].payload == [] then before
            else before + [MessageFor(cfg, RequestOf(topic, inputs[n]), partitions, draws[n])])
      && Bytes(inputs) == Bytes(inputs[..n]) + |inputs[n].payload|
  {
    hide MessageFor;
  }

  lemma MessageIsDrawn(cfg: Config, req: Request, partitions: int, d: Draw)
    requires 0 < partitions
    ensures MessageFor(cfg, req, partitions, d).id == d.id
  {
  }

  // What a receiver reads, given the inverse of the compressor.
  function Unpacked(unpack: seq<Byte> -> seq<Byte>, m: Message): seq<Byte> {
    if m.compressed then unpack(m.payload) else m.payload
  }

  // Message m is what the request asks for, stored under the draw's id: pending, with the
  // request's content, defaults in place of zero values, an exact time to live, and the payload
  // compressed where the configuration asks for it and the compressor succeeds.
  predicate CarriesRequest(cfg: Config, req: Request, partitions: int, d: Draw, m: Message)
    requires 0 < partitions
  {
    && m.id == d.id && m.createdAt == d.now && m.topic == req.topic && m.key == req.key && m.headers == req.headers
    && m.status == Pending && m.retryCount == 0 && m.maxRetries == cfg.maxRetries && m.offset == 0
    && m.consumerID == m.consumerGroup == "" && m.deliveredAt == m.ackedAt == None
    && m.priority == (if req.priority == Low then Normal else req.priority)
    && m.deliveryMode == (if req.deliveryMode == AtMostOnce then AtLeastOnce else req.deliveryMode)
    && (m.expiresAt.Some? <==> req.ttl.Some?)
    && (m.expiresAt.Some? ==> m.expiresAt.value - m.createdAt == req.ttl.value)
    && (m.compressed <==> cfg.compressionType != "none" && |req.payload| > 1024 && cfg.compress(req.payload).Some?)
    && m.compressionType == (if m.compressed then cfg.compressionType else "")
    && (if m.compressed then Some(m.payload) == cfg.compress(req.payload) else m.payload == req.payload)
    && PartitionHeeds(req, cfg.bytesOf(d.id), partitions, m.partition)
  }

  // The partition asked for, or else the absolute hash of the key, or of the id without one,
  // modulo the partition count.
  predicate PartitionHeeds(req: Request, id: seq<Byte>, partitions: int, p: int)
    requires 0 < partitions
  {
    if req.partition.Some? then p == req.partition.value
    else
      var v := Wrap64(Weighted(if req.key != [] then req.key else id));
      v != -TWO63 ==> p == (if v >= 0 then v else -v) % partitions
  }

  // So a receiver with the inverse of the compressor reads the payload back, neither the lowest
  // priority nor at-most-once delivery occurs, and the partition is in range unless the caller
  // named a wrong one or the hash misses.
  lemma MessageCarriesRequest(cfg: Config, unpack: seq<Byte> -> seq<Byte>, req: Request, partitions: int, d: Draw)
    requires 0 < partitions < TWO31
    requires forall p :: cfg.compress(p).Some? ==> unpack(cfg.compress(p).value) == p
    ensures var m := MessageFor(cfg, req, partitions, d);
      && CarriesRequest(cfg, req, partitions, d, m)
      && Unpacked(unpack, m) == req.payload && m.priority != Low && m.deliveryMode != AtMostOnce
      && (0 <= m.partition < partitions <==>
            if req.partition.Some? then 0 <= req.partition.value < partitions
            else !Misses(if req.key != [] then req.key else cfg.bytesOf(d.id), partitions))
  {
    PartitionInRange(if req.key != [] then req.key else cfg.bytesOf(d.id), partitions);
    MessageCarries(cfg, req, partitions, d);
    hide HashedPartition, Misses, PartitionHeeds;
  }

  lemma MessageCarries(cfg: Config, req: Request, partitions: int, d: Draw)
    requires 0 < partitions < TWO31
    ensures CarriesRequest(cfg, req, partitions, d, MessageFor(cfg, req, partitions, d))
  {
    PartitionIsAbsoluteResidue(if req.key != [] then req.key else cfg.bytesOf(d.id), partitions);
    hide HashedPartition, Weighted, Wrap64;
  }

  /* What a caller of the service gets */

  function TopicBefore(cfg: Config, s: State, topic: string): Topic {
    if topic in s.topics then s.topics[topic] else Topic(cfg.defaultPartitions, 0, 0)
  }

  // The response repeats the stored message.
  predicate Echoes(m: Message, r: Response) {
    && r.messageID == m.id && r.topic == m.topic && r.partition == m.partition && r.offset == m.offset
    && r.timestamp == m.createdAt && r.compressed == m.compressed
  }

  // One message has been published: it is stored, its topic, made if missing, counts it and
  // its original size, and nothing else has changed.
  ghost predicate Posted(cfg: Config, s: State, t: State, req: Request, d: Draw, r: Response)
    requires WellFormed(cfg, s)
  {
    var was := TopicBefore(cfg, s, req.topic);
    && d.id in t.messages && t.messages == s.messages[d.id := t.messages[d.id]]
    && CarriesRequest(cfg, req, was.partitions, d, t.messages[d.id]) && Echoes(t.messages[d.id], r)
    && t.topics == s.topics[req.topic :=
         Topic(was.partitions, was.messageCount + 1, was.bytesIn + |req.payload|)]
  }

  lemma PublishedIsPosted(cfg: Config, s: State, req: Request, d: Draw)
    requires WellFormed(cfg, s)
    ensures var t := Published(cfg, s, req, d);
      d.id in t.messages && Posted(cfg, s, t, req, d, ResponseTo(t.messages[d.id]))
  {
    MessageCarries(cfg, req, TopicBefore(cfg, s, req.topic).partitions, d);
    hide MessageFor, CarriesRequest;
    MessageIsDrawn(cfg, req, TopicBefore(cfg, s, req.topic).partitions, d);
  }

  // The positions of the inputs with a payload, in order.
  function ValidAt(inputs: seq<Input>): seq<nat> {
    if inputs == [] then []
    else
      var n := |inputs| - 1;
      ValidAt(inputs[..n]) + (if inputs[n].payload == [] then [] else [n])
  }

  // Exactly the positions of the inputs with a payload, or of the others, in order.
  predicate Positions(at: seq<nat>, inputs: seq<Input>, valid: bool) {
    && (forall j, k :: 0 <= j < k < |at| ==> at[j] < at[k])
    && (forall k :: 0 <= k < |at| ==> at[k] < |inputs| && (inputs[at[k]].payload != [] <==> valid))
    && (forall i :: 0 <= i < |inputs| && (inputs[i].payload != [] <==> valid) ==> i in at)
  }

  lemma PositionsTake(at: seq<nat>, inputs: seq<Input>, valid: bool)
    requires inputs != [] && Positions(at, inputs[..|inputs| - 1], valid)
    requires inputs[|inputs| - 1].payload != [] <==> valid
    ensures Positions(at + [|inputs| - 1], inputs, valid)
  {
    var n := |inputs| - 1;
    var more := at + [n];
    forall i | 0 <= i < |inputs| && (inputs[i].payload != [] <==> valid) ensures i in more {
      if i < n { assert inputs[..n][i] == inputs[i]; } else { assert more[|at|] == n; }
    }
  }

  lemma PositionsSkip(at: seq<nat>, inputs: seq<Input>, valid: bool)
    requires inputs != [] && Positions(at, inputs[..|inputs| - 1], valid)
    requires inputs[|inputs| - 1].payload != [] <==> !valid
    ensures Positions(at, inputs, valid)
  {
    var n := |inputs| - 1;
    forall i | 0 <= i < |inputs| && (inputs[i].payload != [] <==> valid) ensures i in at {
      assert inputs[..n][i] == inputs[i];
    }
  }

  lemma ValidRejected(inputs: seq<Input>)
    ensures inputs == [] ==> ValidAt(inputs) == [] && Rejected(inputs) == []
    ensures inputs != [] ==>
      var n := |inputs| - 1;
      var at, rejects := ValidAt(inputs[..n]), Rejected(inputs[..n]);
      if inputs[n].payload == [] then ValidAt(inputs) == at && Rejected(inputs) == rejects + [n]
      else ValidAt(inputs) == at + [n] && Rejected(inputs) == rejects
  {
  }

  lemma {:induction false} PositionsAre(inputs: seq<Input>)
    ensures Positions(ValidAt(inputs), inputs, true) && Positions(Rejected(inputs), inputs, false)
    ensures |ValidAt(inputs)| + |Rejected(inputs)| == |inputs|
    decreases |inputs|
  {
    ValidRejected(inputs);
    hide ValidAt, Rejected;
    if inputs != [] {
      hide Positions;
      var n := |inputs| - 1;
      var at, rejects := ValidAt(inputs[..n]), Rejected(inputs[..n]);
      PositionsAre(inputs[..n]);
      if inputs[n].payload == [] {
        PositionsSkip(at, inputs, true);
        PositionsTake(rejects, inputs, false);
      } else {
        PositionsTake(at, inputs, true);
        PositionsSkip(rejects, inputs, false);
      }
    }
  }

  predicate DistinctDraws(draws: seq<Draw>) {
    forall i, j :: 0 <= i < j < |draws| ==> draws[i].id != draws[j].id
  }

  // The k-th id and response of the answer belong to the message of the k-th valid input, the
  // errors are the other inputs in order, and the topic counts messages and bytes.
  ghost predicate BatchPosted(cfg: Config, s: State, t: State, topic: string, inputs: seq<Input>, draws: seq<Draw>,
                              r: BatchResponse)
    requires WellFormed(cfg, s) && |draws| == |inputs|
  {
    var at, was := ValidAt(inputs), TopicBefore(cfg, s, topic);
    && Positions(at, inputs, true) && Positions(r.errors, inputs, false)
    && r.published == |at| == |r.messageIDs| == |r.responses| && r.failed == |inputs| - |at| == |r.errors|
    && (forall k :: 0 <= k < |at| ==> BatchMessage(cfg, s, t, topic, inputs, draws, r, k, at[k]))
    && t.topics == s.topics[topic := Topic(was.partitions, was.messageCount + |at|, was.bytesIn + Bytes(inputs))]
    && (forall id :: id in s.messages && (forall k :: 0 <= k < |draws| ==> draws[k].id != id) ==>
          id in t.messages && t.messages[id] == s.messages[id])
  }

  // The k-th answer is about the stored message of the input at position i.
  ghost predicate BatchMessage(cfg: Config, s: State, t: State, topic: string, inputs: seq<Input>, draws: seq<Draw>,
                               r: BatchResponse, k: nat, i: nat)
    requires WellFormed(cfg, s)
  {
    && i < |inputs| == |draws| && k < |r.messageIDs| && k < |r.responses|
    && var input, d := inputs[i], draws[i];
       var req := Request(topic, input.key, input.payload, input.headers, input.priority, input.deliveryMode,
                          input.ttl, None);
       && r.messageIDs[k] == d.id && d.id in t.messages && Echoes(t.messages[d.id], r.responses[k])
       && CarriesRequest(cfg, req, TopicBefore(cfg, s, topic).partitions, d, t.messages[d.id])
  }

  // Every published message enters the acknowledgment system as it requires: pending and
  // unassigned.
  lemma PublishedIsEnabled(cfg: Config, ack: AckPolicy.Config, s: AckSystem.System,
                           req: Request, partitions: int, d: Draw)
    requires 0 < partitions && AckSystem.Fresh(s, d.id)
    ensures AckSystem.Enabled(ack, s, AckSystem.Publish(MessageFor(cfg, req, partitions, d)))
  {
  }

  // The answer to a batch: one response and one id per valid input, one error per other input.
  predicate AnswersBatch(cfg: Config, s: State, topic: string, inputs: seq<Input>, draws: seq<Draw>, r: BatchResponse)
    requires WellFormed(cfg, s) && |draws| == |inputs|
  {
    var batch := Accepted(cfg, topic, WithTopic(cfg, s, topic).topics[topic].partitions, inputs, draws);
    && r.responses == ResponsesTo(batch) && r.messageIDs == IdsOf(batch) && r.published == |batch|
    && r.errors == Rejected(inputs) && r.failed == |r.errors| && r.published + r.failed == |inputs|
  }

  // The messages are those of the inputs at these positions.
  predicate MessagesAt(cfg: Config, topic: string, partitions: int, inputs: seq<Input>, draws: seq<Draw>,
                       batch: seq<Message>, at: seq<nat>)
    requires |inputs| == |draws| && 0 < partitions
  {
    && |batch| == |at|
    && forall k :: 0 <= k < |at| ==>
         at[k] < |inputs| && batch[k] == MessageFor(cfg, RequestOf(topic, inputs[at[k]]), partitions, draws[at[k]])
  }

  lemma {:induction false} AcceptedAre(cfg: Config, topic: string, partitions: int,
                                       inputs: seq<Input>, draws: seq<Draw>)
    requires |inputs| == |draws| && 0 < partitions
    ensures MessagesAt(cfg, topic, partitions, inputs, draws,
                       Accepted(cfg, topic, partitions, inputs, draws), ValidAt(inputs))
    decreases |inputs|
  {
    if inputs != [] {
      var n := |inputs| - 1;
      AcceptedAre(cfg, topic, partitions, inputs[..n], draws[..n]);
      MessagesStep(cfg, topic, partitions, inputs, draws,
                   Accepted(cfg, topic, partitions, inputs[..n], draws[..n]), ValidAt(inputs[..n]));
      hide MessagesAt, MessageFor;
      LastInput(cfg, topic, partitions, inputs, draws);
      assert ValidAt(inputs[..n]) + [] == ValidAt(inputs[..n]);
    }
  }

  lemma MessagesStep(cfg: Config, topic: string, partitions: int, inputs: seq<Input>, draws: seq<Draw>,
                     batch: seq<Message>, at: seq<nat>)
    requires |inputs| == |draws| && 0 < partitions && inputs != []
    requires MessagesAt(cfg, topic, partitions, inputs[..|inputs| - 1], draws[..|inputs| - 1], batch, at)
    ensures MessagesAt(cfg, topic, partitions, inputs, draws, batch, at)
    ensures var n := |inputs| - 1;
      MessagesAt(cfg, topic, partitions, inputs, draws,
                 batch + [MessageFor(cfg, RequestOf(topic, inputs[n]), partitions, draws[n])], at + [n])
  {
    hide MessageFor;
  }

  ghost predicate DistinctIds(batch: seq<Message>) {
    forall j, k :: 0 <= j < k < |batch| ==> batch[j].id != batch[k].id
  }

  lemma {:induction false} StoredKeeps(messages: map<string, Message>, batch: seq<Message>, id: string)
    requires id in messages && forall k :: 0 <= k < |batch| ==> batch[k].id != id
    ensures id in Stored(messages, batch) && Stored(messages, batch)[id] == messages[id]
    decreases |batch|
  {
    if batch != [] { StoredKeeps(messages, batch[..|batch| - 1], id); }
  }

  lemma {:induction false} StoredHas(messages: map<string, Message>, batch: seq<Message>, k: nat)
    requires DistinctIds(batch) && k < |batch|
    ensures batch[k].id in Stored(messages, batch) && Stored(messages, batch)[batch[k].id] == batch[k]
    decreases |batch|
  {
    if k < |batch| - 1 { StoredHas(messages, batch[..|batch| - 1], k); }
  }

  // The batch of a state and an answer, in the terms of the inputs.
  lemma BatchIsPosted(cfg: Config, s: State, topic: string, inputs: seq<Input>, draws: seq<Draw>, r: BatchResponse)
    requires WellFormed(cfg, s) && |draws| == |inputs| && DistinctDraws(draws)
    requires AnswersBatch(cfg, s, topic, inputs, draws, r)
    ensures BatchPosted(cfg, s, BatchPublished(cfg, s, topic, inputs, draws), topic, inputs, draws, r)
  {
    var t, at := BatchPublished(cfg, s, topic, inputs, draws), ValidAt(inputs);
    hide *;
    PositionsAre(inputs);
    BatchCounts(cfg, s, topic, inputs, draws, r);
    BatchTopics(cfg, s, topic, inputs, draws);
    forall k | 0 <= k < |at| ensures BatchMessage(cfg, s, t, topic, inputs, draws, r, k, at[k]) {
      BatchMessageIs(cfg, s, topic, inputs, draws, r, k);
    }
    forall id | id in s.messages && forall k :: 0 <= k < |draws| ==> draws[k].id != id
      ensures id in t.messages && t.messages[id] == s.messages[id]
    {
      BatchKeeps(cfg, s, topic, inputs, draws, id);
    }
    PostedIs(cfg, s, t, topic, inputs, draws, r);
  }

  lemma PostedIs(cfg: Config, s: State, t: State, topic: string, inputs: seq<Input>, draws: seq<Draw>,
                 r: BatchResponse)
    requires WellFormed(cfg, s) && |draws| == |inputs|
    requires Positions(ValidAt(inputs), inputs, true) && Positions(r.errors, inputs, false)
    requires var at, was := ValidAt(inputs), TopicBefore(cfg, s, topic);
      && r.published == |at| == |r.messageIDs| == |r.responses| && r.failed == |inputs| - |at| == |r.errors|
      && t.topics
           == s.topics[topic := Topic(was.partitions, was.messageCount + |at|, was.bytesIn + Bytes(inputs))]
      && forall k :: 0 <= k < |at| ==> BatchMessage(cfg, s, t, topic, inputs, draws, r, k, at[k])
    requires forall id :: id in s.messages && (forall k :: 0 <= k < |draws| ==> draws[k].id != id) ==>
      id in t.messages && t.messages[id] == s.messages[id]
    ensures BatchPosted(cfg, s, t, topic, inputs, draws, r)
  {
    hide Bytes, ValidAt, Positions, BatchMessage, TopicBefore, WellFormed;
  }

  lemma BatchCounts(cfg: Config, s: State, topic: string, inputs: seq<Input>, draws: seq<Draw>, r: BatchResponse)
    requires WellFormed(cfg, s) && |draws| == |inputs| && AnswersBatch(cfg, s, topic, inputs, draws, r)
    ensures var at := ValidAt(inputs);
      && r.errors == Rejected(inputs)
      && r.published == |at| == |r.messageIDs| == |r.responses| && r.failed == |inputs| - |at| == |r.errors|
  {
    AcceptedAre(cfg, topic, TopicBefore(cfg, s, topic).partitions, inputs, draws);
    hide MessageFor, Accepted, ValidAt, Rejected;
  }

  lemma BatchTopics(cfg: Config, s: State, topic: string, inputs: seq<Input>, draws: seq<Draw>)
    requires WellFormed(cfg, s) && |draws| == |inputs|
    ensures var at, was := ValidAt(inputs), TopicBefore(cfg, s, topic);
      BatchPublished(cfg, s, topic, inputs, draws).topics
        == s.topics[topic := Topic(was.partitions, was.messageCount + |at|, was.bytesIn + Bytes(inputs))]
  {
    var was, at := TopicBefore(cfg, s, topic), ValidAt(inputs);
    var now := Topic(was.partitions, was.messageCount + |at|, was.bytesIn + Bytes(inputs));
    SomePartitions(cfg, s, topic);
    hide Accepted, Stored, Bytes, ValidAt, WellFormed;
    AcceptedCount(cfg, topic, was.partitions, inputs, draws);
    assert BatchPublished(cfg, s, topic, inputs, draws).topics == WithTopic(cfg, s, topic).topics[topic := now];
    hide BatchPublished;
    if topic !in s.topics { Override(s.topics, topic, was, now); }
  }

  lemma SomePartitions(cfg: Config, s: State, topic: string)
    requires WellFormed(cfg, s)
    ensures 0 < TopicBefore(cfg, s, topic).partitions < TWO31
  {
  }

  lemma AcceptedCount(cfg: Config, topic: string, partitions: int, inputs: seq<Input>, draws: seq<Draw>)
    requires |inputs| == |draws| && 0 < partitions
    ensures |Accepted(cfg, topic, partitions, inputs, draws)| == |ValidAt(inputs)|
  {
    AcceptedAre(cfg, topic, partitions, inputs, draws);
  }

  lemma Override(m: map<string, Topic>, k: string, v: Topic, w: Topic)
    ensures m[k := v][k := w] == m[k := w]
  {
  }

  lemma BatchKeeps(cfg: Config, s: State, topic: string, inputs: seq<Input>, draws: seq<Draw>, id: string)
    requires WellFormed(cfg, s) && |draws| == |inputs|
    requires id in s.messages && forall k :: 0 <= k < |draws| ==> draws[k].id != id
    ensures var t := BatchPublished(cfg, s, topic, inputs, draws); id in t.messages && t.messages[id] == s.messages[id]
  {
    var p, at := TopicBefore(cfg, s, topic).partitions, ValidAt(inputs);
    var batch := Accepted(cfg, topic, p, inputs, draws);
    AcceptedAre(cfg, topic, p, inputs, draws);
    hide MessageFor, Accepted, Stored, Bytes, ValidAt;
    forall k | 0 <= k < |batch| ensures batch[k].id != id {
      MessageIsDrawn(cfg, RequestOf(topic, inputs[at[k]]), p, draws[at[k]]);
    }
    StoredKeeps(s.messages, batch, id);
  }

  lemma DistinctBatch(cfg: Config, topic: string, partitions: int, inputs: seq<Input>, draws: seq<Draw>,
                      batch: seq<Message>, at: seq<nat>)
    requires |inputs| == |draws| && 0 < partitions && DistinctDraws(draws) && Positions(at, inputs, true)
    requires MessagesAt(cfg, topic, partitions, inputs, draws, batch, at)
    ensures DistinctIds(batch)
  {
    hide MessageFor;
    forall j | 0 <= j < |at| ensures batch[j].id == draws[at[j]].id {
      MessageIsDrawn(cfg, RequestOf(topic, inputs[at[j]]), partitions, draws[at[j]]);
    }
  }

  lemma BatchMessageIs(cfg: Config, s: State, topic: string, inputs: seq<Input>, draws: seq<Draw>, r: BatchResponse,
                       k: nat)
    requires WellFormed(cfg, s) && |draws| == |inputs| && DistinctDraws(draws) && k < |ValidAt(inputs)|
    requires AnswersBatch(cfg, s, topic, inputs, draws, r)
    ensures BatchMessage(cfg, s, BatchPublished(cfg, s, topic, inputs, draws), topic, inputs, draws, r, k,
                         ValidAt(inputs)[k])
  {
    var p, at := TopicBefore(cfg, s, topic).partitions, ValidAt(inputs);
    var batch := Accepted(cfg, topic, p, inputs, draws);
    AcceptedAre(cfg, topic, p, inputs, draws);
    PositionsAre(inputs);
    DistinctBatch(cfg, topic, p, inputs, draws, batch, at);
    hide MessageFor, CarriesRequest, Accepted, Stored, Bytes, ValidAt, Rejected;
    hide Positions, DistinctDraws, DistinctIds;
    MessageIsDrawn(cfg, RequestOf(topic, inputs[at[k]]), p, draws[at[k]]);
    StoredHas(s.messages, batch, k);
    MessageCarries(cfg, RequestOf(topic, inputs[at[k]]), p, draws[at[k]]);
  }

  class Service {
    const cfg: Config
    const reliable: bool  // no call on a repository fails
    var state: State

    ghost predicate Valid()
      reads this
    {
      WellFormed(cfg, state)
    }

    constructor (cfg: Config, reliable: bool)
      requires 0 < cfg.defaultPartitions < TWO31
      ensures Valid() && this.cfg == cfg && this.reliable == reliable && state == State(map[], map[])
    {
      this.cfg, this.reliable, state := cfg, reliable, State(map[], map[]);
    }

    // An accepted request is stored and counted, a rejected one leaves no trace; a failure of
    // the repositories leaves at most the topic created.
    method Publish(req: Request, d: Draw) returns (r: Result<Response>)
      requires Valid()
      modifies this
      ensures Valid()
      ensures r == Err(InvalidRequest) <==>
        req.topic == "" || req.payload == [] || |req.payload| > cfg.maxBatch * 1024
      ensures reliable ==> r != Err(StoreFailed) && r != Err(TopicFailed)
      ensures r.Ok? ==>
        && state == Published(cfg, old(state), req, d)
        && d.id in state.messages && r.value == ResponseTo(state.messages[d.id])
      ensures r.Ok? ==> Posted(cfg, old(state), state, req, d, r.value)
      ensures r == Err(InvalidRequest) ==> state == old(state)
      ensures r == Err(StoreFailed) ==> state == WithTopic(cfg, old(state), req.topic)
      ensures r == Err(TopicFailed) ==> state in {old(state), WithTopic(cfg, old(state), req.topic)}
      ensures r.Ok? || r.error in {InvalidRequest, TopicFailed, StoreFailed}
    {
      if req.topic == "" || |req.payload| == 0 || |req.payload| > cfg.maxBatch * 1024 {
        return Err(InvalidRequest);
      }
      var found := EnsureTopicExists(req.topic);
      if !found { return Err(TopicFailed); }
      var t := state.topics[req.topic];
      var m := CreateMessage(cfg, req, t.partitions, d);
      var up: bool := *;
      if !up && !reliable { return Err(StoreFailed); }
      state := state.(messages := state.messages[m.id := m]);
      t := t.(messageCount := t.messageCount + 1);
      t := t.(bytesIn := t.bytesIn + |req.payload|);
      state := state.(topics := state.topics[req.topic := t]);
      r := Ok(Response(m.id, m.topic, m.partition, m.offset, m.createdAt, m.compressed));
      PublishedIsPosted(cfg, old(state), req, d);
    }

    // Inputs without a payload are reported and skipped; the others are stored together, and
    // the responses and message ids list them in order.
    method PublishBatch(topic: string, inputs: seq<Input>, draws: seq<Draw>) returns (r: Result<BatchResponse>)
      requires Valid() && |draws| == |inputs|
      modifies this
      ensures Valid() && (reliable ==> r != Err(StoreFailed) && r != Err(TopicFailed))
      ensures |inputs| == 0 <==> r == Err(EmptyBatch)
      ensures 0 < |inputs| && |inputs| > cfg.maxBatch <==> r == Err(BatchTooLarge)
      ensures r.Ok? || r.error in {EmptyBatch, BatchTooLarge, TopicFailed, StoreFailed}
      ensures r == Err(EmptyBatch) || r == Err(BatchTooLarge) ==> state == old(state)
      ensures r == Err(StoreFailed) ==> state == WithTopic(cfg, old(state), topic)
      ensures r == Err(TopicFailed) ==> state in {old(state), WithTopic(cfg, old(state), topic)}
      ensures r.Ok? ==>
        && state == BatchPublished(cfg, old(state), topic, inputs, draws)
        && AnswersBatch(cfg, old(state), topic, inputs, draws, r.value)
      ensures r.Ok? && DistinctDraws(draws) ==> BatchPosted(cfg, old(state), state, topic, inputs, draws, r.value)
    {
      if |inputs| == 0 { return Err(EmptyBatch); }
      if |inputs| > cfg.maxBatch { return Err(BatchTooLarge); }
      hide Accepted, Rejected, Bytes, Stored, ResponsesTo, IdsOf, MessageFor;
      var found := EnsureTopicExists(topic);
      if !found { return Err(TopicFailed); }
      var t := state.topics[topic];
      var batch, responses, errors, published, failed, totalBytesIn := Prepare(cfg, topic, t.partitions, inputs, draws);
      var messageIDs := CollectIds(batch, responses);
      r := Ok(BatchResponse(published, failed, messageIDs, responses, errors));
      assert AnswersBatch(cfg, old(state), topic, inputs, draws, r.value);
      BatchState(cfg, old(state), topic, inputs, draws);
      if DistinctDraws(draws) { BatchIsPosted(cfg, old(state), topic, inputs, draws, r.value); }
      hide AnswersBatch, BatchPublished, WithTopic, BatchPosted;
      if |batch| > 0 {
        var ok := Commit(topic, batch, totalBytesIn);
        if !ok { r := Err(StoreFailed); }
      }
    }

    // Stores a batch and counts it, all or nothing.
    method Commit(topic: string, batch: seq<Message>, bytes: int) returns (ok: bool)
      requires Valid() && topic in state.topics
      modifies this
      ensures Valid() && (reliable ==> ok)
      ensures state == if !ok then old(state) else
        State(Stored(old(state).messages, batch),
              old(state).topics[topic := Counted(old(state).topics[topic], |batch|, bytes)])
    {
      var up: bool := *;
      ok := up || reliable;
      if !ok { return; }
      var stored := StoreBatch(state.messages, batch);
      var t := state.topics[topic];
      t := t.(messageCount := t.messageCount + |batch|);
      t := t.(bytesIn := t.bytesIn + bytes);
      state := State(stored, state.topics[topic := t]);
    }

    // A missing topic is created and read back.  Creation is also tried when the first read
    // fails, and is then refused because the topic exists.
    method EnsureTopicExists(topic: string) returns (ok: bool)
      requires Valid()
      modifies this
      ensures Valid() && (reliable ==> ok)
      ensures ok ==> state == WithTopic(cfg, old(state), topic) && topic in state.topics
      ensures ok && topic !in old(state).topics ==>
        state == old(state).(topics := old(state).topics[topic := Topic(cfg.defaultPartitions, 0, 0)])
      ensures topic in old(state).topics ==> state == old(state)
      ensures !ok ==> state in {old(state), WithTopic(cfg, old(state), topic)}
    {
      var read: bool, created: bool, readAgain: bool := *, *, *;
      if topic in state.topics {
        return read || reliable;
      }
      if !created && !reliable { return false; }
      state := state.(topics := state.topics[topic := Topic(cfg.defaultPartitions, 0, 0)]);
      ok := readAgain || reliable;
    }
  }

  // The loop of PublishBatch: sorts the inputs into messages with responses, and rejects.
  method Prepare(cfg: Config, topic: string, partitions: int, inputs: seq<Input>, draws: seq<Draw>)
    returns (batch: seq<Message>, responses: seq<Response>, errors: seq<nat>,
             published: int, failed: int, totalBytesIn: int)
    requires 0 < partitions < TWO31 && |draws| == |inputs|
    ensures batch == Accepted(cfg, topic, partitions, inputs, draws)
    ensures published == |batch| && responses == ResponsesTo(batch)
    ensures errors == Rejected(inputs) && failed == |errors| == |inputs| - published
    ensures totalBytesIn == Bytes(inputs)
  {
    batch, responses, errors := [], [], [];
    published, failed, totalBytesIn := 0, 0, 0;
    hide *;
    PrepareStart(cfg, topic, partitions, inputs, draws);
    for i := 0 to |inputs|
      invariant Prepared(cfg, topic, partitions, inputs, draws, i, batch, errors)
      invariant responses == ResponsesTo(batch) && published == |batch| && failed == |errors|
      invariant totalBytesIn == Bytes(inputs[..i])
    {
      PrepareStep(cfg, topic, partitions, inputs, draws, i, batch, errors);
      if |inputs[i].payload| == 0 {
        errors := errors + [i];
        failed := failed + 1;
        continue;
      }
      var m := CreateMessage(cfg, RequestOf(topic, inputs[i]), partitions, draws[i]);
      ResponsesStep(batch, m);
      batch := batch + [m];
      responses := responses + [Response(m.id, m.topic, m.partition, m.offset, m.createdAt, m.compressed)];
      totalBytesIn := totalBytesIn + |inputs[i].payload|;
      published := published + 1;
    }
    PrepareEnd(cfg, topic, partitions, inputs, draws, batch, errors);
  }

  // The first i inputs have been sorted into messages and rejects.
  ghost predicate Prepared(cfg: Config, topic: string, partitions: int, inputs: seq<Input>, draws: seq<Draw>, i: nat,
                           batch: seq<Message>, errors: seq<nat>)
    requires 0 < partitions && i <= |inputs| == |draws|
  {
    && batch == Accepted(cfg, topic, partitions, inputs[..i], draws[..i])
    && errors == Rejected(inputs[..i]) && |batch| + |errors| == i
  }

  lemma PrepareStart(cfg: Config, topic: string, partitions: int, inputs: seq<Input>, draws: seq<Draw>)
    requires 0 < partitions && |inputs| == |draws|
    ensures Prepared(cfg, topic, partitions, inputs, draws, 0, [], [])
    ensures ResponsesTo([]) == [] && Bytes(inputs[..0]) == 0
  {
  }

  lemma PrepareEnd(cfg: Config, topic: string, partitions: int, inputs: seq<Input>, draws: seq<Draw>,
                   batch: seq<Message>, errors: seq<nat>)
    requires 0 < partitions && |inputs| == |draws|
    requires Prepared(cfg, topic, partitions, inputs, draws, |inputs|, batch, errors)
    ensures batch == Accepted(cfg, topic, partitions, inputs, draws) && errors == Rejected(inputs)
    ensures |batch| + |errors| == |inputs| && Bytes(inputs[..|inputs|]) == Bytes(inputs)
  {
    hide MessageFor, Accepted, Rejected, Bytes;
    assert inputs[..|inputs|] == inputs && draws[..|draws|] == draws;
  }

  lemma PrepareStep(cfg: Config, topic: string, partitions: int, inputs: seq<Input>, draws: seq<Draw>, i: nat,
                    batch: seq<Message>, errors: seq<nat>)
    requires 0 < partitions && i < |inputs| == |draws|
    requires Prepared(cfg, topic, partitions, inputs, draws, i, batch, errors)
    ensures inputs[i].payload == [] ==> Prepared(cfg, topic, partitions, inputs, draws, i + 1, batch, errors + [i])
    ensures inputs[i].payload != [] ==>
      var m := MessageFor(cfg, RequestOf(topic, inputs[i]), partitions, draws[i]);
      Prepared(cfg, topic, partitions, inputs, draws, i + 1, batch + [m], errors)
    ensures Bytes(inputs[..i + 1]) == Bytes(inputs[..i]) + |inputs[i].payload|
  {
    hide MessageFor, Accepted, Rejected, Bytes;
    PrefixStep(cfg, topic, partitions, inputs, draws, i);
  }

  lemma ResponsesStep(batch: seq<Message>, m: Message)
    ensures ResponsesTo(batch + [m]) == ResponsesTo(batch)
         + [Response(m.id, m.topic, m.partition, m.offset, m.createdAt, m.compressed)]
  {
  }

  method CollectIds(ghost batch: seq<Message>, responses: seq<Response>) returns (ids: seq<string>)
    requires responses == ResponsesTo(batch)
    ensures ids == IdsOf(batch)
  {
    ids := [];
    for i := 0 to |responses|
      invariant |ids| == i && forall k :: 0 <= k < i ==> ids[k] == batch[k].id
    {
      ids := ids + [responses[i].messageID];
    }
  }

  lemma PrefixStep(cfg: Config, topic: string, partitions: int, inputs: seq<Input>, draws: seq<Draw>, i: nat)
    requires 0 < partitions && |draws| == |inputs| && i < |inputs|
    ensures Accepted(cfg, topic, partitions, inputs[..i + 1], draws[..i + 1])
         == Accepted(cfg, topic, partitions, inputs[..i], draws[..i])
            + (if inputs[i].payload == [] then []
               else [MessageFor(cfg, RequestOf(topic, inputs[i]), partitions, draws[i])])
    ensures Rejected(inputs[..i + 1]) == Rejected(inputs[..i]) + (if inputs[i].payload == [] then [i] else [])
    ensures Bytes(inputs[..i + 1]) == Bytes(inputs[..i]) + |inputs[i].payload|
  {
    hide MessageFor;
    assert inputs[..i + 1][..i] == inputs[..i] && draws[..i + 1][..i] == draws[..i];
  }

  // What PublishBatch leaves behind, in terms of the messages it has prepared.
  lemma BatchState(cfg: Config, s: State, topic: string, inputs: seq<Input>, draws: seq<Draw>)
    requires WellFormed(cfg, s) && |draws| == |inputs|
    ensures var s1 := WithTopic(cfg, s, topic);
      && WellFormed(cfg, s1) && topic in s1.topics
      && var t := s1.topics[topic];
         var batch := Accepted(cfg, topic, t.partitions, inputs, draws);
         var after := BatchPublished(cfg, s, topic, inputs, draws);
         && after == State(Stored(s1.messages, batch), s1.topics[topic := Counted(t, |batch|, Bytes(inputs))])
         && WellFormed(cfg, after) && (batch == [] ==> after == s1)
  {
    hide Accepted, Bytes, MessageFor;
    var s1 := WithTopic(cfg, s, topic);
    var t := s1.topics[topic];
    if Accepted(cfg, topic, t.partitions, inputs, draws) == [] {
      NothingAccepted(cfg, topic, t.partitions, inputs, draws);
      assert s1.topics[topic := Counted(t, 0, 0)] == s1.topics;
    }
  }

  lemma {:induction false} NothingAccepted(cfg: Config, topic: string, partitions: int,
                                           inputs: seq<Input>, draws: seq<Draw>)
    requires |inputs| == |draws| && 0 < partitions && Accepted(cfg, topic, partitions, inputs, draws) == []
    ensures Bytes(inputs) == 0
    decreases |inputs|
  {
    if inputs != [] {
      var n := |inputs| - 1;
      NothingAccepted(cfg, topic, partitions, inputs[..n], draws[..n]);
    }
  }

  method StoreBatch(messages: map<string, Message>, batch: seq<Message>) returns (stored: map<string, Message>)
    ensures stored == Stored(messages, batch)
  {
    stored := messages;
    for i := 0 to |batch|
      invariant stored == Stored(messages, batch[..i])
    {
      assert batch[..i + 1][..i] == batch[..i];
      stored := stored[batch[i].id := batch[i]];
    }
    assert batch[..|batch|] == batch;
  }

  method CreateMessage(cfg: Config, req: Request, partitions: int, d: Draw) returns (m: Message)
    requires 0 < partitions < TWO31
    ensures m == MessageFor(cfg, req, partitions, d)
  {
    var priority, mode := req.priority, req.deliveryMode;
    if priority == Low {
      priority := Normal;
    }
    if mode == AtMostOnce {
      mode := AtLeastOnce;
    }
    var expiry: Option<int> := None;
    if req.ttl.Some? {
      expiry := Some(d.now + req.ttl.value);
    }
    var p := ChoosePartition(req.partition, req.key, cfg.bytesOf(d.id), partitions);
    m := Message(d.id, req.topic, p, 0, req.key, req.payload, req.headers, priority, mode, Pending, 0, cfg.maxRetries,
                 "", "", d.now, expiry, None, None, false, "");
    if cfg.compressionType != "none" && |req.payload| > 1024 {
      var packed := cfg.compress(req.payload);
      if packed.Some? {
        m := m.(payload := packed.value, compressed := true, compressionType := cfg.compressionType);
      }
    }
  }

  /* Sizes for people */

  function Pow1024(n: nat): nat {
    if n == 0 then 1 else 1024 * Pow1024(n - 1)
  }

  // The unit loop of formatBytes: for every 64-bit size the divisor is the power of 1024 just
  // below it, and the unit index stays within "KMGTPE".
  method UnitOf(bytes: int) returns (div: nat, exp: nat)
    requires 1024 <= bytes < TWO63
    ensures exp <= 5 && div == Pow1024(exp + 1) && div <= bytes < 1024 * div
  {
    div, exp := 1024, 0;
    var n := bytes / 1024;
    FirstUnit(bytes);
    while n >= 1024
      invariant div == Pow1024(exp + 1) && n >= 1 && Brackets(div, n, bytes)
      decreases n
    {
      UnitStep(div, n, bytes);
      hide Brackets;
      div := div * 1024;
      exp := exp + 1;
      n := n / 1024;
    }
    UnitEnd(div, n, bytes);
    if exp > 5 {
      UnitGrows(7, exp + 1);
      SevenUnits();
    }
  }

  // The size counts n whole units of `div` bytes, and a remainder.
  ghost predicate Brackets(div: nat, n: nat, bytes: int) {
    div * n <= bytes < div * (n + 1)
  }

  lemma FirstUnit(bytes: int)
    requires bytes >= 1024
    ensures Brackets(1024, bytes / 1024, bytes) && Pow1024(1) == 1024
  {
  }

  lemma UnitStep(div: nat, n: nat, bytes: int)
    requires Brackets(div, n, bytes)
    ensures Brackets(div * 1024, n / 1024, bytes)
  {
    var q := n / 1024;
    Times(div, 1024 * q, n);
    Times(div, n + 1, 1024 * (q + 1));
    assert div * (1024 * q) == (div * 1024) * q;
    assert div * (1024 * (q + 1)) == (div * 1024) * (q + 1);
  }

  lemma UnitEnd(div: nat, n: nat, bytes: int)
    requires 1 <= n < 1024 && Brackets(div, n, bytes)
    ensures div <= bytes < 1024 * div
  {
    Times(div, 1, n);
    Times(div, n + 1, 1024);
  }

  lemma Times(x: nat, a: nat, b: nat)
    requires a <= b
    ensures x * a <= x * b
  {
  }

  lemma {:induction false} UnitGrows(a: nat, b: nat)
    requires a <= b
    ensures Pow1024(a) <= Pow1024(b)
    decreases b - a
  {
    if a < b { UnitGrows(a + 1, b); }
  }

  lemma SevenUnits()
    ensures Pow1024(7) > TWO63
  {
    assert Pow1024(3) == 1024 * 1024 * 1024;
    assert Pow1024(5) == 1024 * 1024 * Pow1024(3);
    assert Pow1024(7) == 1024 * 1024 * Pow1024(5);
  }
}
