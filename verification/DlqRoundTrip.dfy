// From a message to its dead-letter copy and back: what reprocessing restores, over any
// number of cycles.

module DlqRoundTrip {
  import opened AckPolicy
  import opened AckRuns
  import opened AckSystem
  import opened Messages
  import Publisher

  // The parameters of one dead-letter move and the reprocessing that follows it.
  datatype Trip = Trip(copy: string, topic: string, reason: string, movedAt: nat, id: string, reprocessedAt: nat)

  function Copied(cfg: Config, m: Message, trip: Trip): Message {
    CopyTo(cfg, m, trip.copy, trip.topic, trip.reason, trip.movedAt)
  }

  function Cycle(cfg: Config, m: Message, trip: Trip): Message {
    Names(cfg, m, trip.reason, trip.movedAt);
    Reprocessed(cfg, Copied(cfg, m, trip), trip.id, trip.reprocessedAt)
  }

  lemma Names(cfg: Config, m: Message, reason: string, now: nat)
    ensures var h := DLQHeaders(cfg, m, reason, now);
      && "original_topic" in h && h["original_topic"] == m.topic
      && "dlq_reason" in h && h["dlq_reason"] == reason
  {
    DLQHeadersName(cfg, m, reason, now);
  }

  // Reprocessing always writes these two headers and adds the next two.
  const OVERWRITTEN: set<string> := {"reprocessed_from_dlq", "reprocessed_at"}
  const ADDED: set<string> := {"original_dlq_message_id", "original_dlq_reason"}

  function CarriedKeys(h: Headers): set<string> {
    set k | k in h && Carried(k)
  }

  // Which of the names the service writes survive reprocessing.
  lemma ServiceNames()
    ensures !Carried("dlq_reason") && !Carried("dlq_timestamp")
    ensures !Carried("original_topic") && !Carried("original_message_id") && !Carried("original_retry_count")
    ensures !Carried("original_created_at") && !Carried("original_consumer_id")
    ensures !Carried("original_consumer_group") && !Carried("original_delivered_at")
    ensures !Carried("original_dlq_message_id") && !Carried("original_dlq_reason")
    ensures Carried("reprocessed_from_dlq") && Carried("reprocessed_at")
  {
    assert "dlq_" == "dlq_reason"[..4] == "dlq_timestamp"[..4];
    assert "original_" == "original_topic"[..9] == "original_message_id"[..9] == "original_retry_count"[..9];
    assert "original_" == "original_created_at"[..9] == "original_consumer_id"[..9] == "original_consumer_group"[..9];
    assert "original_" == "original_delivered_at"[..9] == "original_dlq_message_id"[..9] == "original_dlq_reason"[..9];
    assert "reprocessed_at"[0] == 'r' && "reprocessed_from_dlq"[0] == 'r' && "dlq_"[0] == 'd' && "original_"[0] == 'o';
  }

  // Moving to the dead-letter queue adds only headers that reprocessing drops.
  lemma CopyCarries(cfg: Config, m: Message, reason: string, now: nat)
    ensures CarriedHeaders(DLQHeaders(cfg, m, reason, now)) == CarriedHeaders(m.headers)
  {
    ServiceNames();
    hide Carried;
  }

  predicate SamePayload(m: Message, n: Message) {
    n.topic == m.topic && n.key == m.key && n.payload == m.payload && n.partition == m.partition
  }

  predicate KeepsCarried(m: Message, n: Message) {
    forall k :: k in m.headers && Carried(k) && k !in OVERWRITTEN ==> k in n.headers && n.headers[k] == m.headers[k]
  }

  // Reprocessing the copy of a message, whatever topic the copy went to, gives a pending,
  // unassigned message with the original topic, key, payload and partition and every carried
  // header but two; its other headers are the four that reprocessing writes.
  lemma RoundTrip(cfg: Config, m: Message, trip: Trip)
    ensures var n := Cycle(cfg, m, trip);
      && n.id == trip.id && n.status == Pending && n.consumerID == "" && n.retryCount == 0
      && SamePayload(m, n) && KeepsCarried(m, n)
      && n.headers.Keys == CarriedKeys(m.headers) + OVERWRITTEN + ADDED
      && n.headers["original_dlq_message_id"] == trip.copy && n.headers["original_dlq_reason"] == trip.reason
      && CarriedKeys(n.headers) == CarriedKeys(m.headers) + OVERWRITTEN
  {
    hide Carried, DLQHeaders;
    ServiceNames();
    Names(cfg, m, trip.reason, trip.movedAt);
    CopyCarries(cfg, m, trip.reason, trip.movedAt);
    var h := CarriedHeaders(m.headers);
    assert h.Keys == CarriedKeys(m.headers);
    assert ReprocessedHeaders(cfg, Copied(cfg, m, trip), trip.reprocessedAt)
        == h["reprocessed_from_dlq" := "true"]
            ["reprocessed_at" := cfg.formatTime(trip.reprocessedAt)]
            ["original_dlq_message_id" := trip.copy]
            ["original_dlq_reason" := trip.reason];
  }

  // The compression flags do not make the trip, although the payload bytes do: what a receiver
  // reads survives exactly if the message was not compressed, or if unpacking leaves its bytes
  // as they are.
  lemma RoundTripKeepsCompression(cfg: Config, m: Message, trip: Trip, unpack: seq<Byte> -> seq<Byte>)
    ensures Publisher.Unpacked(unpack, Cycle(cfg, m, trip)) == Publisher.Unpacked(unpack, m)
      <==> !m.compressed || unpack(m.payload) == m.payload
    ensures var n := Cycle(cfg, m, trip);
      (n.compressed == m.compressed && n.compressionType == m.compressionType)
      <==> !m.compressed && m.compressionType == ""
  {
  }

  function Cycles(cfg: Config, m: Message, trips: seq<Trip>): Message {
    if trips == [] then m else Cycle(cfg, Cycles(cfg, m, trips[..|trips| - 1]), trips[|trips| - 1])
  }

  // Any number of cycles restores the message, and its header names are fixed after the first.
  lemma {:induction false} ManyTrips(cfg: Config, m: Message, trips: seq<Trip>)
    requires trips != []
    ensures var n := Cycles(cfg, m, trips);
      && n.status == Pending && SamePayload(m, n) && KeepsCarried(m, n)
      && n.headers.Keys == CarriedKeys(m.headers) + OVERWRITTEN + ADDED
      && CarriedKeys(n.headers) == CarriedKeys(m.headers) + OVERWRITTEN
    decreases |trips|
  {
    hide Cycle, Carried;
    var before := Cycles(cfg, m, trips[..|trips| - 1]);
    RoundTrip(cfg, before, trips[|trips| - 1]);
    if |trips| > 1 {
      ManyTrips(cfg, m, trips[..|trips| - 1]);
    } else {
      assert trips[..|trips| - 1] == [];
    }
  }

  // However much later the copy is reprocessed, and whatever happened to it and to the
  // original in between, the new message is what the original was.
  lemma LateReprocessing(cfg: Config, s: System, move: Step, between: seq<Step>, back: Step)
    requires Fenced(s) && (move.Move? || move.AdminMove?) && Enabled(cfg, s, move)
    requires Legal(cfg, Apply(cfg, s, move), between)
    requires back.Reprocess? && back.id == move.copy && Enabled(cfg, Run(cfg, Apply(cfg, s, move), between), back)
    ensures var m, u := s.store[move.id], Apply(cfg, Run(cfg, Apply(cfg, s, move), between), back);
      && back.copy in u.store
      && u.store[back.copy].status == Pending && u.store[back.copy].consumerID == ""
      && SamePayload(m, u.store[back.copy])
  {
    hide DLQHeaders, ReprocessedHeaders, ShouldMoveToDLQ, RetryDelay;
    var m, t := s.store[move.id], Apply(cfg, s, move);
    Names(cfg, m, move.reason, move.now);
    EveryRunKeepsContent(cfg, t, between, move.copy);
  }
}
