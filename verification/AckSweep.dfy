// The expiry sweep: how one failed delivery is settled, and what the loop over the
// unacknowledged messages keeps.

module AckSweep {
  import opened AckOutcomes
  import opened AckPolicy
  import opened AckRepository
  import opened AckRuns
  import opened AckSystem
  import opened Messages
  import opened Options

  // A failed settlement leaves nothing behind or, at worst, the message's dead-letter copy.
  predicate HalfMoved(steps: seq<Step>, id: string, topic: string, reason: string, now: nat) {
    steps == [] || (|steps| == 1 && steps[0].Orphan? && steps[0] == Orphan(id, steps[0].copy, topic, reason, now))
  }

  // The dead-letter copy that settling a message has stored, if any.
  function CopyIn(steps: seq<Step>): Option<string> {
    if steps != [] && (steps[0].Move? || steps[0].Orphan?) then Some(steps[0].copy) else None
  }

  function OptionSet(c: Option<string>): set<string> {
    if c.Some? then {c.value} else {}
  }

  lemma OneStep(cfg: Config, s: System, step: Step)
    requires Fenced(s) && Enabled(cfg, s, step)
    ensures Legal(cfg, s, [step]) && Run(cfg, s, [step]) == Apply(cfg, s, step)
    ensures Fenced(Apply(cfg, s, step))
  {
    hide Apply, Enabled, Fenced;
    StepKeepsFence(cfg, s, step);
    assert [step][1..] == [];
  }

  /* The report */

  datatype ExpiredInfo = ExpiredInfo(
    messageID: string, topic: string, consumerID: string, deliveredAt: int, ackDeadline: int, action: string)

  datatype Report = Report(
    expiredCount: int, requeuedCount: int, dlqCount: int, processedAt: int, expired: seq<ExpiredInfo>)

  const EXPIRY_REASON := "ack timeout"

  function ActionOf(step: Step): string {
    if step.Requeue? then "requeued" else if step.Move? then "dlq" else "failed"
  }

  function StatusAfter(action: string): Status {
    if action == "requeued" then Pending else if action == "dlq" then DLQ else Failed
  }

  function CountOf(expired: seq<ExpiredInfo>, action: string): nat {
    if expired == [] then 0
    else CountOf(expired[..|expired| - 1], action) + (if expired[|expired| - 1].action == action then 1 else 0)
  }

  function Reported(r: Report): set<string> {
    set e | e in r.expired :: e.messageID
  }

  function ExpiredIds(cfg: Config, now: nat, s: System): set<string> {
    set id | id in s.store && PastDeadline(cfg, s.store[id], now)
  }

  // An entry of the report describes a message that was delivered and past its deadline, and
  // names the way it was settled.
  ghost predicate Describes(cfg: Config, now: nat, s: System, t: System, e: ExpiredInfo) {
    && e.messageID in s.store && e.messageID in t.store
    && var m, n := s.store[e.messageID], t.store[e.messageID];
       && m.status == Delivered && m.deliveredAt.Some? && now > m.deliveredAt.value + cfg.ackDeadline
       && e == ExpiredInfo(m.id, m.topic, m.consumerID, m.deliveredAt.value, cfg.ackDeadline, e.action)
       && SettledAs(cfg, s.store, t.store, e.messageID, true, "ack timeout", 0, now)
       && n.status in {Pending, DLQ, Failed}
       && e.action == if n.status == Pending then "requeued" else if n.status == DLQ then "dlq" else "failed"
  }

  // The report of a sweep from s to t, and the counters that went with it.
  ghost predicate Accounts(cfg: Config, now: nat, s: System, t: System, r: Report) {
    && (forall e :: e in r.expired ==> Describes(cfg, now, s, t, e))
    && (forall i, j :: 0 <= i < j < |r.expired| ==> r.expired[i].messageID != r.expired[j].messageID)
    && r.processedAt == now && Tallied(s.stats, t.stats, r)
  }

  predicate Tallied(before: Stats, after: Stats, r: Report) {
    && r.expiredCount == |r.expired|
    && r.requeuedCount == CountOf(r.expired, "requeued")
    && r.dlqCount == CountOf(r.expired, "dlq")
    && r.expiredCount == r.requeuedCount + r.dlqCount + CountOf(r.expired, "failed")
    && after == before.(requeued := before.requeued + r.requeuedCount,
                        dlq := before.dlq + r.dlqCount, expired := before.expired + r.expiredCount)
  }

  // Only reported messages changed, and every message past its deadline afterwards was so
  // before and is not reported.
  ghost predicate Settled(cfg: Config, now: nat, s: System, t: System, r: Report) {
    && (forall id :: id in s.store ==> id in t.store)
    && (forall id :: id in s.store && id !in Reported(r) ==> t.store[id] == s.store[id])
    && (forall id :: id in ExpiredIds(cfg, now, t) ==> id in s.store && id !in Reported(r))
  }

  // The messages a sweep has added: `origin` maps each new id to the expired message whose
  // dead-letter copy it is, no two to the same.  Of the reported messages exactly those moved
  // have a copy; any other copy belongs to a message whose own store failed.
  ghost predicate Copies(cfg: Config, now: nat, s: System, t: System, r: Report, origin: map<string, string>) {
    CopiesStored(cfg, now, s, t, origin) && CopiesReported(r, origin.Values) && Injective(origin)
  }

  ghost predicate CopiesStored(cfg: Config, now: nat, s: System, t: System, origin: map<string, string>) {
    && t.store.Keys == s.store.Keys + origin.Keys && origin.Keys !! s.store.Keys
    && forall c :: c in origin ==>
         && origin[c] in ExpiredIds(cfg, now, s) && origin[c] in s.store
         && t.store[c] == DLQCopy(cfg, s.store[origin[c]], c, EXPIRY_REASON, now)
  }

  predicate CopiesReported(r: Report, copied: set<string>) {
    forall e :: e in r.expired ==> (e.action == "dlq" <==> e.messageID in copied)
  }

  ghost predicate Injective(m: map<string, string>) {
    forall a, b :: a in m && b in m && m[a] == m[b] ==> a == b
  }

  ghost predicate SweepResult(cfg: Config, now: nat, s: System, t: System, r: Report) {
    && Accounts(cfg, now, s, t, r)
    && Settled(cfg, now, s, t, r)
    && Reported(r) <= ExpiredIds(cfg, now, s)
    && ExpiredIds(cfg, now, t) == ExpiredIds(cfg, now, s) - Reported(r)
    && exists origin :: Copies(cfg, now, s, t, r, origin)
  }

  // A sweep in which nothing failed leaves no message past its deadline, and a second sweep
  // at the same time changes nothing and reports nothing.
  lemma ErrorFreeSweepIsIdempotent(cfg: Config, now: nat, s: System, t: System, r: Report, u: System, q: Report)
    requires SweepResult(cfg, now, s, t, r) && Reported(r) == ExpiredIds(cfg, now, s)
    requires SweepResult(cfg, now, t, u, q)
    ensures ExpiredIds(cfg, now, t) == {}
    ensures u == t && q == Report(0, 0, 0, now, [])
  {
    hide Accounts, Settled, Copies, ExpiredIds, Reported;
    var origin :| Copies(cfg, now, t, u, q, origin);
    NothingReported(cfg, now, t, u, q);
    NothingCopied(cfg, now, t, u, q, origin);
  }

  lemma NothingReported(cfg: Config, now: nat, s: System, t: System, r: Report)
    requires Accounts(cfg, now, s, t, r) && Reported(r) == {}
    ensures r == Report(0, 0, 0, now, []) && t.stats == s.stats
  {
    hide Describes;
    if r.expired != [] {
      EntriesAreReported(r);
    }
  }

  lemma NothingCopied(cfg: Config, now: nat, s: System, t: System, r: Report, origin: map<string, string>)
    requires Copies(cfg, now, s, t, r, origin) && Settled(cfg, now, s, t, r)
    requires ExpiredIds(cfg, now, s) == {} && Reported(r) == {}
    ensures t.store == s.store
  {
    hide Reported, DLQCopy, PastDeadline;
    assert origin == map[];
  }

  lemma EntriesAreReported(r: Report)
    requires r.expired != []
    ensures Reported(r) != {}
  {
    assert r.expired[0].messageID in Reported(r);
  }

  // The entries with this action have as many ids as the report counts.
  function IdsWith(expired: seq<ExpiredInfo>, action: string): set<string> {
    set e | e in expired && e.action == action :: e.messageID
  }

  lemma {:induction false} CountIsIds(expired: seq<ExpiredInfo>, action: string)
    requires forall i, j :: 0 <= i < j < |expired| ==> expired[i].messageID != expired[j].messageID
    ensures CountOf(expired, action) == |IdsWith(expired, action)|
    decreases |expired|
  {
    if expired != [] {
      var n := |expired| - 1;
      CountIsIds(expired[..n], action);
      LastId(expired, action);
      hide IdsWith;
    }
  }

  lemma LastId(expired: seq<ExpiredInfo>, action: string)
    requires expired != []
    requires forall i, j :: 0 <= i < j < |expired| ==> expired[i].messageID != expired[j].messageID
    ensures var n := |expired| - 1;
      var before := IdsWith(expired[..n], action);
      && expired[n].messageID !in before
      && IdsWith(expired, action) == if expired[n].action == action then before + {expired[n].messageID} else before
  {
    assert expired == expired[..|expired| - 1] + [expired[|expired| - 1]];
  }

  lemma {:induction false} ValuesSize(m: map<string, string>)
    requires Injective(m)
    ensures |m.Values| == |m|
    decreases |m|
  {
    if m == map[] {
      assert m.Values == {};
    } else {
      var k :| k in m;
      WithoutValue(m, k);
      hide Injective;
      ValuesSize(m - {k});
    }
  }

  lemma WithoutValue(m: map<string, string>, k: string)
    requires Injective(m) && k in m
    ensures Injective(m - {k}) && m[k] !in (m - {k}).Values && m.Values == (m - {k}).Values + {m[k]}
    ensures |m - {k}| == |m| - 1
  {
    assert m == (m - {k})[k := m[k]];
    WithCopyValues(m - {k}, m[k], k);
  }

  // Exactly the messages moved have a copy if nothing failed.
  lemma CopiesAreMoved(cfg: Config, now: nat, s: System, t: System, r: Report, origin: map<string, string>)
    requires Copies(cfg, now, s, t, r, origin) && Reported(r) == ExpiredIds(cfg, now, s)
    ensures origin.Values == IdsWith(r.expired, "dlq")
  {
    hide DLQCopy, PastDeadline;
  }

  lemma CopiesAreCounted(cfg: Config, now: nat, s: System, t: System, r: Report, origin: map<string, string>)
    requires Copies(cfg, now, s, t, r, origin)
    ensures |t.store| == |s.store| + |origin|
  {
    hide ExpiredIds, DLQCopy;
    assert |origin.Keys| == |origin|;
    assert |t.store.Keys| == |t.store| && |s.store.Keys| == |s.store|;
  }

  lemma Distinctness(cfg: Config, now: nat, s: System, t: System, r: Report, origin: map<string, string>)
    requires Copies(cfg, now, s, t, r, origin)
    ensures Injective(origin)
  {
  }

  // If nothing failed, the store has grown by exactly the copies the report counts.
  lemma ErrorFreeSweepGrowth(cfg: Config, now: nat, s: System, t: System, r: Report)
    requires SweepResult(cfg, now, s, t, r) && Reported(r) == ExpiredIds(cfg, now, s)
    ensures |t.store| == |s.store| + r.dlqCount
  {
    hide Settled, Copies, ExpiredIds, Reported, Describes;
    var origin :| Copies(cfg, now, s, t, r, origin);
    CopiesAreMoved(cfg, now, s, t, r, origin);
    CopiesAreCounted(cfg, now, s, t, r, origin);
    CountIsIds(r.expired, "dlq");
    Distinctness(cfg, now, s, t, r, origin);
    ValuesSize(origin);
  }

  /* The loop */

  ghost predicate Sweeping(cfg: Config, now: nat, s: System, t: System, list: seq<Message>, i: nat,
                           steps: seq<Step>, r: Report, missed: set<string>, origin: map<string, string>) {
    && Fenced(s) && Unacknowledged(cfg, now, s.store, list) && i <= |list|
    && Legal(cfg, s, steps) && t == Run(cfg, s, steps)
    && Accounts(cfg, now, s, t, r) && Settled(cfg, now, s, t, r) && Copies(cfg, now, s, t, r, origin)
    // messages still to be visited are not reported; visited ones that expired are reported or missed
    && (forall k :: i <= k < |list| ==> list[k].id !in Reported(r) && list[k].id !in origin.Values)
    && (forall k :: 0 <= k < i && PastDeadline(cfg, list[k], now) ==> list[k].id in Reported(r) + missed)
  }

  lemma SweepStart(cfg: Config, now: nat, s: System, list: seq<Message>)
    requires Fenced(s) && Unacknowledged(cfg, now, s.store, list)
    ensures Sweeping(cfg, now, s, s, list, 0, [], Report(0, 0, 0, now, []), {}, map[])
  {
    var none: map<string, string> := map[];
    assert none.Values == {};
    assert Copies(cfg, now, s, s, Report(0, 0, 0, now, []), none);
  }

  // The next message is still stored as it was read.
  lemma SweepNext(cfg: Config, now: nat, s: System, t: System, list: seq<Message>, i: nat,
                  steps: seq<Step>, r: Report, missed: set<string>, origin: map<string, string>)
    requires Sweeping(cfg, now, s, t, list, i, steps, r, missed, origin) && i < |list|
    ensures var m := list[i];
      && m.id in s.store && s.store[m.id] == m && m.id in t.store && t.store[m.id] == m
      && m.status == Delivered && Held(m) && Fenced(t) && m.id !in Reported(r) && m.id !in origin.Values
      && (PastDeadline(cfg, m, now) ==> m.id in ExpiredIds(cfg, now, s)) && s.store.Keys <= t.store.Keys
      && (PastDeadline(cfg, m, now) <==> m.deliveredAt.Some? && now > m.deliveredAt.value + cfg.ackDeadline)
      && (!PastDeadline(cfg, m, now) ==> Sweeping(cfg, now, s, t, list, i + 1, steps, r, missed, origin))
  {
    hide Accounts, Copies;
    assert list[i] in list;
    EveryRunIsFenced(cfg, s, steps);
  }

  // A failed settlement changes no message and no counter; it adds at most a dead-letter copy.
  lemma OrphansOnlyAdd(cfg: Config, s: System, m: Message, reason: string, now: nat, steps: seq<Step>)
    requires m.id in s.store && s.store[m.id] == m
    requires Legal(cfg, s, steps) && HalfMoved(steps, m.id, DLQTopic(cfg, m.topic), reason, now)
    ensures var t, c := Run(cfg, s, steps), CopyIn(steps);
      && t.stats == s.stats && AddsCopy(cfg, s, t, m, reason, now, c)
      && t.store[m.id] == m
  {
    hide DLQHeaders;
    if steps != [] {
      assert Run(cfg, s, steps) == Apply(cfg, s, steps[0]) by { assert steps[1..] == []; }
    }
  }

  // From s to t no message but m has changed, and none was added but its copy.
  ghost predicate AddsCopy(cfg: Config, s: System, t: System, m: Message, reason: string, now: nat, c: Option<string>) {
    && t.store.Keys == s.store.Keys + OptionSet(c)
    && (forall id :: id in s.store && id != m.id ==> t.store[id] == s.store[id])
    && (c.Some? ==> c.value !in s.store && t.store[c.value] == DLQCopy(cfg, m, c.value, reason, now))
  }

  // The counters after a message has been settled, and after an expiry has been counted.
  function SettledStats(stats: Stats, action: string): Stats {
    if action == "requeued" then stats.(requeued := stats.requeued + 1)
    else if action == "dlq" then stats.(dlq := stats.dlq + 1)
    else stats
  }

  function ExpiryCounted(stats: Stats): Stats {
    stats.(expired := stats.expired + 1)
  }

  function WithExpiry(s: System): System {
    s.(stats := ExpiryCounted(s.stats))
  }

  // Settling one message changes that message, adds at most one dead-letter copy, and counts.
  lemma SettleEffect(cfg: Config, s: System, m: Message, reason: string, now: nat, step: Step)
    requires Fenced(s) && m.id in s.store && s.store[m.id] == m
    requires Settles(cfg, m, true, reason, 0, now, step) && Enabled(cfg, s, step)
    ensures var t := Apply(cfg, s, step);
      && AddsCopy(cfg, s, t, m, reason, now, CopyIn([step])) && (CopyIn([step]).Some? <==> ActionOf(step) == "dlq")
      && t.store[m.id].status == StatusAfter(ActionOf(step))
      && t.stats == SettledStats(s.stats, ActionOf(step))
  {
    hide DLQHeaders, RetryDelay, ShouldRetry, ShouldMoveToDLQ, Held, Fenced;
    FencedId(s, m.id);
  }

  // The copies of a sweep once one more message has been settled, or has failed to be.
  lemma CopiesKept(cfg: Config, now: nat, s: System, t: System, u: System, r: Report, q: Report,
                   origin: map<string, string>, m: Message, c: Option<string>)
    requires Copies(cfg, now, s, t, r, origin) && AddsCopy(cfg, t, u, m, EXPIRY_REASON, now, c)
    requires m.id in ExpiredIds(cfg, now, s) && s.store[m.id] == m && m.id !in origin.Values
    requires forall e :: e in q.expired ==>
      if e.messageID == m.id then e.action == "dlq" <==> c.Some? else e in r.expired
    ensures Copies(cfg, now, s, u, q, WithCopy(origin, m.id, c))
  {
    hide CopiesStored, AddsCopy, Injective, PastDeadline;
    CopiesStillStored(cfg, now, s, t, u, origin, m, c);
    if c.Some? {
      assert c.value !in origin by { NotYetCopied(cfg, now, s, t, u, origin, m, c); }
      WithCopyValues(origin, m.id, c.value);
    }
  }

  lemma NotYetCopied(cfg: Config, now: nat, s: System, t: System, u: System,
                     origin: map<string, string>, m: Message, c: Option<string>)
    requires CopiesStored(cfg, now, s, t, origin) && AddsCopy(cfg, t, u, m, EXPIRY_REASON, now, c) && c.Some?
    ensures c.value !in origin
  {
  }

  lemma CopiesStillStored(cfg: Config, now: nat, s: System, t: System, u: System,
                          origin: map<string, string>, m: Message, c: Option<string>)
    requires CopiesStored(cfg, now, s, t, origin) && AddsCopy(cfg, t, u, m, EXPIRY_REASON, now, c)
    requires m.id in ExpiredIds(cfg, now, s) && m.id in s.store && s.store[m.id] == m
    ensures CopiesStored(cfg, now, s, u, WithCopy(origin, m.id, c))
  {
    hide DLQCopy, ExpiredIds;
    var more := WithCopy(origin, m.id, c);
    forall x | x in more
      ensures more[x] in ExpiredIds(cfg, now, s) && more[x] in s.store && x in u.store
      ensures u.store[x] == DLQCopy(cfg, s.store[more[x]], x, EXPIRY_REASON, now)
    {
      assert x in origin ==> t.store[x] == u.store[x];
    }
  }

  lemma WithCopyValues(origin: map<string, string>, id: string, c: string)
    requires c !in origin
    ensures origin[c := id].Values == origin.Values + {id}
    ensures Injective(origin) && id !in origin.Values ==> Injective(origin[c := id])
  {
    var more := origin[c := id];
    assert more[c] == id;
    forall v | v in origin.Values ensures v in more.Values {
      var a :| a in origin && origin[a] == v;
      assert more[a] == v;
    }
    forall v | v in more.Values ensures v in origin.Values + {id} {
      var a :| a in more && more[a] == v;
      assert a != c ==> origin[a] == v;
    }
  }

  function WithCopy(origin: map<string, string>, id: string, c: Option<string>): map<string, string> {
    if c.Some? then origin[c.value := id] else origin
  }

  lemma AccountsKept(cfg: Config, now: nat, s: System, t: System, u: System, r: Report)
    requires Accounts(cfg, now, s, t, r) && u.stats == t.stats
    requires forall id :: id in t.store ==> id in u.store && u.store[id] == t.store[id]
    ensures Accounts(cfg, now, s, u, r)
  {
    hide CountOf, Tallied;
    forall e | e in r.expired ensures Describes(cfg, now, s, u, e) {
      hide IsRequeued, IsMoved, IsCopy, IsFailed;
    }
  }

  // From t to u only the messages in `changed`, which `q` reports and `r` does not, changed
  // and are no longer delivered; new messages are dead-letter copies.
  lemma SettledKept(cfg: Config, now: nat, s: System, t: System, u: System, r: Report, q: Report, changed: set<string>)
    requires Settled(cfg, now, s, t, r) && Reported(q) == Reported(r) + changed && changed <= t.store.Keys
    requires forall id :: id in t.store ==> id in u.store && (id !in changed ==> u.store[id] == t.store[id])
    requires forall id :: id in u.store && (id in changed || id !in t.store) ==> u.store[id].status != Delivered
    ensures Settled(cfg, now, s, u, q)
  {
    hide Reported;
  }

  lemma SweepError(cfg: Config, now: nat, s: System, t: System, list: seq<Message>, i: nat,
                   steps: seq<Step>, r: Report, missed: set<string>, origin: map<string, string>, more: seq<Step>)
    requires Sweeping(cfg, now, s, t, list, i, steps, r, missed, origin)
    requires i < |list| && PastDeadline(cfg, list[i], now)
    requires Legal(cfg, t, more) && HalfMoved(more, list[i].id, DLQTopic(cfg, list[i].topic), EXPIRY_REASON, now)
    ensures Sweeping(cfg, now, s, Run(cfg, t, more), list, i + 1, steps + more, r, missed + {list[i].id},
                     WithCopy(origin, list[i].id, CopyIn(more)))
  {
    hide Legal, Run, Fenced, Accounts, Settled, Unacknowledged, Reported, PastDeadline, HalfMoved, Copies, ExpiredIds;
    var m, c, u := list[i], CopyIn(more), Run(cfg, t, more);
    SweepNext(cfg, now, s, t, list, i, steps, r, missed, origin);
    OrphansOnlyAdd(cfg, t, m, EXPIRY_REASON, now, more);
    RunConcat(cfg, s, steps, more);
    DistinctIds(cfg, now, s, list);
    assert forall id :: id in t.store ==> id in u.store && u.store[id] == t.store[id];
    AccountsKept(cfg, now, s, t, u, r);
    SettledKept(cfg, now, s, t, u, r, r, {});
    NotReported(r, m.id);
    CopiesKept(cfg, now, s, t, u, r, r, origin, m, c);
  }

  lemma NotReported(r: Report, id: string)
    requires id !in Reported(r)
    ensures forall e :: e in r.expired ==> e.messageID != id
  {
  }

  function Added(r: Report, e: ExpiredInfo): Report {
    r.(expired := r.expired + [e], expiredCount := r.expiredCount + 1,
       requeuedCount := r.requeuedCount + (if e.action == "requeued" then 1 else 0),
       dlqCount := r.dlqCount + (if e.action == "dlq" then 1 else 0))
  }

  lemma AddedCounts(expired: seq<ExpiredInfo>, e: ExpiredInfo, action: string)
    ensures CountOf(expired + [e], action) == CountOf(expired, action) + (if e.action == action then 1 else 0)
  {
    assert (expired + [e])[..|expired|] == expired;
  }

  lemma EntryKept(cfg: Config, now: nat, s: System, t: System, u: System, e: ExpiredInfo, f: ExpiredInfo)
    requires Describes(cfg, now, s, t, f) && f.messageID != e.messageID && e.messageID in s.store
    requires forall id :: id in t.store && id != e.messageID ==> id in u.store && u.store[id] == t.store[id]
    ensures Describes(cfg, now, s, u, f)
  {
    hide IsRequeued, IsMoved, IsCopy, IsFailed;
  }

  lemma AddedAccounts(cfg: Config, now: nat, s: System, t: System, u: System, r: Report, e: ExpiredInfo)
    requires Accounts(cfg, now, s, t, r) && Describes(cfg, now, s, u, e) && e.messageID !in Reported(r)
    requires forall id :: id in t.store && id != e.messageID ==> id in u.store && u.store[id] == t.store[id]
    requires u.stats == ExpiryCounted(SettledStats(t.stats, e.action))
    ensures Accounts(cfg, now, s, u, Added(r, e))
  {
    AddedTally(s.stats, t.stats, r, e);
    hide Describes, Tallied;
    forall f | f in r.expired ensures Describes(cfg, now, s, u, f) && f.messageID != e.messageID {
      assert f.messageID in Reported(r);
      EntryKept(cfg, now, s, t, u, e, f);
    }
    assert forall k :: 0 <= k < |r.expired| ==> r.expired[k] in r.expired;
  }

  lemma AddedTally(before: Stats, after: Stats, r: Report, e: ExpiredInfo)
    requires Tallied(before, after, r) && e.action in {"requeued", "dlq", "failed"}
    ensures Tallied(before, ExpiryCounted(SettledStats(after, e.action)), Added(r, e))
  {
    AddedCounts(r.expired, e, "requeued");
    AddedCounts(r.expired, e, "dlq");
    AddedCounts(r.expired, e, "failed");
    hide CountOf;
  }

  // Settling one message and counting its expiry, appended to a run that has reached t.
  lemma TakeSteps(cfg: Config, now: nat, s: System, t: System, steps: seq<Step>, more: seq<Step>, m: Message)
    requires Legal(cfg, s, steps) && t == Run(cfg, s, steps) && Fenced(t)
    requires m.id in t.store && t.store[m.id] == m
    requires Legal(cfg, t, more) && |more| == 1 && Settles(cfg, m, true, EXPIRY_REASON, 0, now, more[0])
    ensures var v := WithExpiry(Run(cfg, t, more));
      && Legal(cfg, s, steps + more + [NoteExpired]) && v == Run(cfg, s, steps + more + [NoteExpired]) && Fenced(v)
      && m.id in v.store && v.store[m.id].status == StatusAfter(ActionOf(more[0])) != Delivered
      && AddsCopy(cfg, t, v, m, EXPIRY_REASON, now, CopyIn(more))
      && (CopyIn(more).Some? <==> ActionOf(more[0]) == "dlq")
      && SettledAs(cfg, t.store, v.store, m.id, true, "ack timeout", 0, now)
      && v.stats == ExpiryCounted(SettledStats(t.stats, ActionOf(more[0])))
  {
    SettleRun(cfg, t, m, now, more);
    var u := Run(cfg, t, more);
    hide Legal, Run, Fenced, Settles, AddsCopy, CopyIn, ActionOf, StatusAfter, SettledAs;
    RunConcat(cfg, s, steps, more);
    CountExpiry(cfg, u);
    RunConcat(cfg, s, steps + more, [NoteExpired]);
    SameStore(cfg, t, u, WithExpiry(u), m, now, CopyIn(more));
  }

  // Settling one message, as the run of its one step.
  lemma SettleRun(cfg: Config, t: System, m: Message, now: nat, more: seq<Step>)
    requires Fenced(t) && m.id in t.store && t.store[m.id] == m
    requires Legal(cfg, t, more) && |more| == 1 && Settles(cfg, m, true, EXPIRY_REASON, 0, now, more[0])
    ensures var u := Run(cfg, t, more);
      && Fenced(u) && AddsCopy(cfg, t, u, m, EXPIRY_REASON, now, CopyIn(more))
      && (CopyIn(more).Some? <==> ActionOf(more[0]) == "dlq")
      && m.id in u.store && SettledAs(cfg, t.store, u.store, m.id, true, "ack timeout", 0, now)
      && u.store[m.id].status == StatusAfter(ActionOf(more[0])) != Delivered
      && u.stats == SettledStats(t.stats, ActionOf(more[0]))
  {
    assert more == [more[0]] && Enabled(cfg, t, more[0]);
    StepIsSettlement(cfg, t, m, true, EXPIRY_REASON, 0, now, more[0]);
    hide Settles, Apply, Enabled, AddsCopy, SettledAs;
    OneStep(cfg, t, more[0]);
    SettleEffect(cfg, t, m, EXPIRY_REASON, now, more[0]);
    Kept(cfg, t, Apply(cfg, t, more[0]), m, EXPIRY_REASON, now, CopyIn(more));
  }

  lemma Kept(cfg: Config, s: System, t: System, m: Message, reason: string, now: nat, c: Option<string>)
    requires AddsCopy(cfg, s, t, m, reason, now, c)
    ensures forall id :: id in s.store ==> id in t.store
  {
  }

  lemma SameStore(cfg: Config, s: System, t: System, u: System, m: Message, now: nat, c: Option<string>)
    requires AddsCopy(cfg, s, t, m, EXPIRY_REASON, now, c) && u.store == t.store
    ensures AddsCopy(cfg, s, u, m, EXPIRY_REASON, now, c)
  {
  }

  lemma CountExpiry(cfg: Config, u: System)
    requires Fenced(u)
    ensures Legal(cfg, u, [NoteExpired])
    ensures Run(cfg, u, [NoteExpired]) == WithExpiry(u)
    ensures Fenced(Run(cfg, u, [NoteExpired]))
  {
    OneStep(cfg, u, NoteExpired);
  }

  lemma SweepTake(cfg: Config, now: nat, s: System, t: System, list: seq<Message>, i: nat,
                  steps: seq<Step>, r: Report, missed: set<string>, origin: map<string, string>, more: seq<Step>)
    requires Sweeping(cfg, now, s, t, list, i, steps, r, missed, origin)
    requires i < |list| && PastDeadline(cfg, list[i], now)
    requires Legal(cfg, t, more) && |more| == 1 && Settles(cfg, list[i], true, EXPIRY_REASON, 0, now, more[0])
    ensures var m, v := list[i], WithExpiry(Run(cfg, t, more));
      var e := ExpiredInfo(m.id, m.topic, m.consumerID, m.deliveredAt.value, cfg.ackDeadline, ActionOf(more[0]));
      Fenced(v) && Sweeping(cfg, now, s, v, list, i + 1, steps + more + [NoteExpired], Added(r, e), missed,
                            WithCopy(origin, m.id, CopyIn(more)))
  {
    hide Legal, Run, Fenced, Settles, Accounts, Settled, Unacknowledged, Reported;
    hide Held, Copies, ExpiredIds, SettledAs;
    var m := list[i];
    var e := ExpiredInfo(m.id, m.topic, m.consumerID, m.deliveredAt.value, cfg.ackDeadline, ActionOf(more[0]));
    SweepNext(cfg, now, s, t, list, i, steps, r, missed, origin);
    TakeSteps(cfg, now, s, t, steps, more, m);
    var v := WithExpiry(Run(cfg, t, more));
    assert e.action == ActionOf(more[0]);
    SettledEarlier(cfg, s.store, t.store, v.store, m.id, now);
    assert Describes(cfg, now, s, v, e);
    hide ActionOf, Describes, PastDeadline, CopyIn;
    NotReported(r, m.id);
    CopiesKept(cfg, now, s, t, v, r, Added(r, e), origin, m, CopyIn(more));
    hide Added;
    AddedAccounts(cfg, now, s, t, v, r, e);
    AddedReported(r, e);
    SettledKept(cfg, now, s, t, v, r, Added(r, e), {m.id});
    DistinctIds(cfg, now, s, list);
  }

  // Settled with respect to an earlier store that has the same message and no more others.
  lemma SettledEarlier(cfg: Config, before: Store, between: Store, after: Store, id: string, now: nat)
    requires id in before && id in between && id in after && before[id] == between[id]
    requires before.Keys <= between.Keys
    requires SettledAs(cfg, between, after, id, true, "ack timeout", 0, now)
    ensures SettledAs(cfg, before, after, id, true, "ack timeout", 0, now)
  {
    hide IsRequeued, IsMoved, IsCopy, IsFailed;
  }

  lemma AddedReported(r: Report, e: ExpiredInfo)
    ensures Reported(Added(r, e)) == Reported(r) + {e.messageID}
  {
  }

  lemma DistinctIds(cfg: Config, now: nat, s: System, list: seq<Message>)
    requires Unacknowledged(cfg, now, s.store, list)
    ensures forall i, j :: 0 <= i < j < |list| ==> list[i].id != list[j].id
  {
    forall i, j | 0 <= i < j < |list| ensures list[i].id != list[j].id {
      assert list[i] in list && list[j] in list;
    }
  }

  lemma SweepEnd(cfg: Config, now: nat, s: System, t: System, list: seq<Message>,
                 steps: seq<Step>, r: Report, missed: set<string>, origin: map<string, string>)
    requires Sweeping(cfg, now, s, t, list, |list|, steps, r, missed, origin)
    ensures Legal(cfg, s, steps) && t == Run(cfg, s, steps) && (steps == [] ==> t == s)
    ensures SweepResult(cfg, now, s, t, r)
    ensures missed == {} ==> Reported(r) == ExpiredIds(cfg, now, s)
  {
    hide Legal, Fenced, Accounts, Copies;
    ReportedIds(cfg, now, s, t, r);
    forall id | id in ExpiredIds(cfg, now, s) ensures id in Reported(r) + missed {
      var k :| 0 <= k < |list| && list[k] == s.store[id];
      FencedId(s, id);
    }
  }

  // The report in the terms of the messages.
  lemma SweepReports(cfg: Config, now: nat, s: System, t: System, r: Report)
    requires SweepResult(cfg, now, s, t, r)
    ensures forall e :: e in r.expired ==> Describes(cfg, now, s, t, e)
    ensures Reported(r) == ExpiredIds(cfg, now, s) ==> forall id :: id in s.store ==>
      var m := s.store[id];
      (m.status == Delivered && m.deliveredAt.Some? && now > m.deliveredAt.value + cfg.ackDeadline)
      <==> (exists e :: e in r.expired && e.messageID == id)
  {
    hide Describes, Settled, Copies, Tallied;
    if Reported(r) == ExpiredIds(cfg, now, s) {
      forall id | id in s.store
        ensures PastDeadline(cfg, s.store[id], now) <==> exists e :: e in r.expired && e.messageID == id
      {
        assert id in ExpiredIds(cfg, now, s) <==> id in Reported(r);
      }
    }
  }

  lemma ReportedIds(cfg: Config, now: nat, s: System, t: System, r: Report)
    requires Accounts(cfg, now, s, t, r)
    ensures Reported(r) <= ExpiredIds(cfg, now, s)
  {
    hide CountOf, SettledAs;
  }

  /* The retry worker */

  function DueIds(cfg: Config, now: nat, s: System): set<string> {
    set id | id in s.store && DueForReset(cfg, s.store[id], now)
  }

  // Exactly the messages in `reset` were reset.
  ghost predicate ResetIn(s: System, t: System, reset: set<string>) {
    && t.stats == s.stats && t.store.Keys == s.store.Keys
    && forall id :: id in s.store ==> t.store[id] == if id in reset then Reset(s.store[id]) else s.store[id]
  }

  lemma ResetIsTick(cfg: Config, now: nat, s: System, t: System, reset: set<string>)
    requires ResetIn(s, t, reset) && reset <= DueIds(cfg, now, s)
    ensures Ticked(cfg, s.store, t.store, reset == DueIds(cfg, now, s), now)
  {
  }

  lemma NoTick(cfg: Config, now: nat, s: System)
    ensures Ticked(cfg, s.store, s.store, false, now)
  {
  }

  ghost predicate Ticking(cfg: Config, now: nat, s: System, t: System, list: seq<Message>, i: nat,
                          steps: seq<Step>, reset: set<string>, missed: set<string>) {
    && Fenced(s) && Selected(s.store, list, Exhausted(cfg.maxRetries)) && i <= |list|
    && Legal(cfg, s, steps) && t == Run(cfg, s, steps)
    && ResetIn(s, t, reset) && reset <= DueIds(cfg, now, s)
    && (forall k :: i <= k < |list| ==> list[k].id !in reset)
    && (forall k :: 0 <= k < i && DueForReset(cfg, list[k], now) ==> list[k].id in reset + missed)
  }

  lemma TickStart(cfg: Config, now: nat, s: System)
    requires Fenced(s)
    ensures Legal(cfg, s, []) && Run(cfg, s, []) == s && ResetIn(s, s, {})
    ensures forall list :: Selected(s.store, list, Exhausted(cfg.maxRetries)) ==>
      Ticking(cfg, now, s, s, list, 0, [], {}, {})
  {
  }

  lemma TickNext(cfg: Config, now: nat, s: System, t: System, list: seq<Message>, i: nat,
                 steps: seq<Step>, reset: set<string>, missed: set<string>)
    requires Ticking(cfg, now, s, t, list, i, steps, reset, missed) && i < |list|
    ensures var m := list[i];
      && m.id in t.store && t.store[m.id] == m && m.id != ""
      && m.status == Failed && m.retryCount >= cfg.maxRetries
      && (!DueForReset(cfg, m, now) ==> Ticking(cfg, now, s, t, list, i + 1, steps, reset, missed))
  {
    hide Legal, Run, DueForReset;
    assert list[i] in list;
  }

  // A due message whose store failed is missed, and is left as it is.
  lemma TickMiss(cfg: Config, now: nat, s: System, t: System, list: seq<Message>, i: nat,
                 steps: seq<Step>, reset: set<string>, missed: set<string>)
    requires Ticking(cfg, now, s, t, list, i, steps, reset, missed) && i < |list|
    ensures Ticking(cfg, now, s, t, list, i + 1, steps, reset, missed + {list[i].id})
  {
    hide Legal, Run, Fenced, ResetIn, DueForReset, Selected;
  }

  lemma ResetStep(cfg: Config, now: nat, s: System, t: System, steps: seq<Step>, m: Message)
    requires Fenced(s) && Legal(cfg, s, steps) && t == Run(cfg, s, steps)
    requires m.id in t.store && t.store[m.id] == m && DueForReset(cfg, m, now)
    ensures var u := t.(store := t.store[m.id := Reset(m)]);
      Fenced(u) && Legal(cfg, s, steps + [WorkerReset(m.id, now)]) && Run(cfg, s, steps + [WorkerReset(m.id, now)]) == u
  {
    hide DueForReset, Reset;
    EveryRunIsFenced(cfg, s, steps);
    OneStep(cfg, t, WorkerReset(m.id, now));
    assert Apply(cfg, t, WorkerReset(m.id, now)) == t.(store := t.store[m.id := Reset(m)]);
    hide Legal, Run, Fenced, Apply, Enabled;
    RunConcat(cfg, s, steps, [WorkerReset(m.id, now)]);
  }

  lemma SelectedIds(s: System, list: seq<Message>, q: Query)
    requires Fenced(s) && Selected(s.store, list, q)
    ensures forall i, j :: 0 <= i < j < |list| ==> list[i].id != list[j].id
    ensures forall i :: 0 <= i < |list| ==> list[i].id in s.store && s.store[list[i].id] == list[i]
  {
    forall i | 0 <= i < |list| ensures list[i].id in s.store && s.store[list[i].id] == list[i] {
      assert list[i] in list;
    }
  }

  lemma TickReset(cfg: Config, now: nat, s: System, t: System, list: seq<Message>, i: nat,
                  steps: seq<Step>, reset: set<string>, missed: set<string>)
    requires Ticking(cfg, now, s, t, list, i, steps, reset, missed) && i < |list| && DueForReset(cfg, list[i], now)
    ensures var id, u := list[i].id, t.(store := t.store[list[i].id := Reset(list[i])]);
      Fenced(u) && Ticking(cfg, now, s, u, list, i + 1, steps + [WorkerReset(id, now)], reset + {id}, missed)
  {
    hide Legal, Run, Fenced, DueForReset, Reset, Selected;
    TickNext(cfg, now, s, t, list, i, steps, reset, missed);
    SelectedIds(s, list, Exhausted(cfg.maxRetries));
    ResetStep(cfg, now, s, t, steps, list[i]);
  }

  lemma TickEnd(cfg: Config, now: nat, s: System, t: System, list: seq<Message>,
                steps: seq<Step>, reset: set<string>, missed: set<string>)
    requires Ticking(cfg, now, s, t, list, |list|, steps, reset, missed)
    ensures Legal(cfg, s, steps) && t == Run(cfg, s, steps)
    ensures reset <= DueIds(cfg, now, s) && ResetIn(s, t, reset)
    ensures missed == {} ==> reset == DueIds(cfg, now, s)
  {
    hide Legal, Run, ResetIn;
    forall id | id in DueIds(cfg, now, s) ensures id in reset + missed {
      assert s.store[id] in list;
      var k :| 0 <= k < |list| && list[k] == s.store[id];
      FencedId(s, id);
    }
  }
}
