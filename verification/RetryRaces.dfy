// How often a message is requeued automatically when reads and writes interleave: an exact
// account of the retry count, and exactly when the bound of the atomic service survives.

module RetryRaces {
  import opened AckPolicy
  import opened AckRacing
  import opened AckRuns
  import opened AckSystem
  import opened Messages
  import opened Options

  /* The account of the retry count */

  // The access writes back a version of the message that was read.
  predicate Writes(a: Access, id: string) {
    (a.Retry? || a.AdminRetry? || a.Update?) && a.m.id == id
  }

  function CountAt(s: Racing, id: string): int {
    if id in s.store then s.store[id].retryCount else 0
  }

  // By how much the version written back is behind the stored one.
  function SetBack(s: Racing, a: Access, id: string): int {
    if Writes(a, id) then CountAt(s, id) - a.m.retryCount else 0
  }

  function One(b: bool): nat {
    if b then 1 else 0
  }

  predicate IsRetry(a: Access, id: string) {
    a.Retry? && a.m.id == id
  }

  predicate IsAdminRetry(a: Access, id: string) {
    a.AdminRetry? && a.m.id == id
  }

  // Automatic requeues of the message, administrator's requeues, and the sum of the set-backs,
  // among the first n accesses.
  function Retries(accesses: seq<Access>, id: string, n: nat): nat
    requires n <= |accesses|
  {
    if n == 0 then 0 else Retries(accesses, id, n - 1) + One(IsRetry(accesses[n - 1], id))
  }

  function AdminRetries(accesses: seq<Access>, id: string, n: nat): nat
    requires n <= |accesses|
  {
    if n == 0 then 0 else AdminRetries(accesses, id, n - 1) + One(IsAdminRetry(accesses[n - 1], id))
  }

  function SetBacks(states: seq<Racing>, accesses: seq<Access>, id: string, n: nat): int
    requires n <= |accesses| < |states|
  {
    if n == 0 then 0
    else SetBacks(states, accesses, id, n - 1) + SetBack(states[n - 1], accesses[n - 1], id)
  }

  ghost predicate Known(s: Racing, id: string) {
    RacingFenced(s) && id in s.store
  }

  lemma StepAccount(cfg: Config, s: Racing, a: Access, t: Racing, id: string)
    requires Known(s, id) && RacingNext(cfg, s, a, t)
    ensures Known(t, id)
    ensures CountAt(s, id) + One(IsRetry(a, id)) + One(IsAdminRetry(a, id)) == CountAt(t, id) + SetBack(s, a, id)
  {
    RacingStepIsFenced(cfg, s, a, t);
    hide RetryDelay, Allowed, Changed, Possible, NewMessage;
    if a.Update? { ChangedKeeps(cfg, a.m, a.change); }
  }

  lemma TraceLength(cfg: Config, states: seq<Racing>, accesses: seq<Access>)
    requires Trace(cfg, states, accesses)
    ensures |states| == |accesses| + 1
  {
  }

  lemma NoAccess(states: seq<Racing>, accesses: seq<Access>, id: string)
    requires |accesses| < |states|
    ensures Retries(accesses, id, 0) == AdminRetries(accesses, id, 0) == SetBacks(states, accesses, id, 0) == 0
  {
  }

  // The last of the first n accesses, and what it adds to the sums.
  lemma LastAccess(cfg: Config, states: seq<Racing>, accesses: seq<Access>, id: string, n: nat)
    requires Trace(cfg, states, accesses) && 0 < n < |states|
    ensures var s, a, t := states[n - 1], accesses[n - 1], states[n];
      && RacingNext(cfg, s, a, t)
      && Retries(accesses, id, n) == Retries(accesses, id, n - 1) + One(IsRetry(a, id))
      && AdminRetries(accesses, id, n) == AdminRetries(accesses, id, n - 1) + One(IsAdminRetry(a, id))
      && SetBacks(states, accesses, id, n) == SetBacks(states, accesses, id, n - 1) + SetBack(s, a, id)
  {
    hide RacingNext, SetBack, IsRetry, IsAdminRetry;
  }

  // In every interleaving each requeue, automatic or not, adds one to the count, and only
  // writing back an older version takes anything away: by exactly the difference.
  lemma {:induction false} EveryRetryIsAccounted(cfg: Config, states: seq<Racing>, accesses: seq<Access>,
                                                 id: string, n: nat)
    requires Trace(cfg, states, accesses) && Known(states[0], id) && n < |states|
    ensures Known(states[n], id)
    ensures CountAt(states[0], id) + Retries(accesses, id, n) + AdminRetries(accesses, id, n)
         == CountAt(states[n], id) + SetBacks(states, accesses, id, n)
  {
    hide *;
    TraceLength(cfg, states, accesses);
    NoAccess(states, accesses, id);
    if n > 0 {
      EveryRetryIsAccounted(cfg, states, accesses, id, n - 1);
      LastAccess(cfg, states, accesses, id, n);
      StepAccount(cfg, states[n - 1], accesses[n - 1], states[n], id);
    }
  }

  /* One access and the remaining retries */

  // The message's limit is the same in every version.
  ghost predicate LimitIs(cfg: Config, s: Racing, id: string, limit: int) {
    && Known(s, id) && RetryLimit(cfg, s.store[id]) == limit
    && forall m :: m in s.seen && m.id == id ==> RetryLimit(cfg, m) == limit
  }

  function BudgetAt(cfg: Config, s: Racing, id: string): nat {
    if id in s.store then Budget(cfg, s.store[id]) else 0
  }

  // The access gives retries back: it writes an older version that has some left, even after
  // an administrator's requeue has taken one.
  predicate Regains(cfg: Config, s: Racing, a: Access, id: string) {
    && Writes(a, id)
    && var kept := a.m.retryCount + (if a.AdminRetry? then 1 else 0);
       kept < CountAt(s, id) && kept < RetryLimit(cfg, a.m)
  }

  // An automatic requeue is paid for by the remaining retries, and no other access increases
  // them, exactly unless the access regains some.
  lemma StepSpendsUnlessRegained(cfg: Config, s: Racing, a: Access, t: Racing, id: string, limit: int)
    requires LimitIs(cfg, s, id, limit) && RacingNext(cfg, s, a, t)
    ensures LimitIs(cfg, t, id, limit)
    ensures One(IsRetry(a, id)) + BudgetAt(cfg, t, id) <= BudgetAt(cfg, s, id)
       <==> !Regains(cfg, s, a, id)
  {
    RacingStepIsFenced(cfg, s, a, t);
    hide RetryDelay, Allowed, Changed, Possible, NewMessage;
    if a.Update? { ChangedKeeps(cfg, a.m, a.change); }
  }

  // So the bound of the atomic service holds in every interleaving in which nothing is regained.
  lemma {:induction false} RacingRetriesAreBounded(cfg: Config, states: seq<Racing>, accesses: seq<Access>,
                                                   id: string, limit: int, n: nat)
    requires Trace(cfg, states, accesses) && LimitIs(cfg, states[0], id, limit) && n < |states|
    requires forall i :: 0 <= i < n ==> !Regains(cfg, states[i], accesses[i], id)
    ensures LimitIs(cfg, states[n], id, limit)
    ensures Retries(accesses, id, n) + BudgetAt(cfg, states[n], id) <= BudgetAt(cfg, states[0], id)
  {
    hide *;
    TraceLength(cfg, states, accesses);
    NoAccess(states, accesses, id);
    if n > 0 {
      RacingRetriesAreBounded(cfg, states, accesses, id, limit, n - 1);
      LastAccess(cfg, states, accesses, id, n);
      StepSpendsUnlessRegained(cfg, states[n - 1], accesses[n - 1], states[n], id, limit);
    }
  }

  /* When every interleaving keeps the bound */

  predicate HasRetryLeft(cfg: Config, m: Message) {
    ShouldRetry(cfg, m, m.retryCount + 1)
  }

  // Neither the stored version of the message nor any that was read has a retry left.
  ghost predicate Spent(cfg: Config, s: Racing, id: string) {
    && Known(s, id) && !HasRetryLeft(cfg, s.store[id])
    && forall m :: m in s.seen && m.id == id ==> !HasRetryLeft(cfg, m)
  }

  lemma SpentStaysSpent(cfg: Config, s: Racing, a: Access, t: Racing, id: string)
    requires Spent(cfg, s, id) && RacingNext(cfg, s, a, t)
    ensures Spent(cfg, t, id) && One(IsRetry(a, id)) == 0
  {
    RacingStepIsFenced(cfg, s, a, t);
    hide RetryDelay, Allowed, Changed, Possible, NewMessage;
    if a.Update? { ChangedKeeps(cfg, a.m, a.change); }
  }

  lemma {:induction false} SpentIsNeverRetried(cfg: Config, states: seq<Racing>, accesses: seq<Access>,
                                               id: string, n: nat)
    requires Trace(cfg, states, accesses) && Spent(cfg, states[0], id) && n < |states|
    ensures Spent(cfg, states[n], id) && Retries(accesses, id, n) == 0
  {
    hide *;
    TraceLength(cfg, states, accesses);
    NoAccess(states, accesses, id);
    if n > 0 {
      SpentIsNeverRetried(cfg, states, accesses, id, n - 1);
      LastAccess(cfg, states, accesses, id, n);
      SpentStaysSpent(cfg, states[n - 1], accesses[n - 1], states[n], id);
    }
  }

  // From a state in which some version m of the message has a retry left, any number of
  // requeues: m is delivered, k operations read it, and then all of them requeue it.
  function DeliveredVersion(m: Message): Message {
    m.(status := Delivered, deliveredAt := Some(0), consumerID := "c", consumerGroup := "")
  }

  function StormAccesses(id: string, m: Message, k: nat): (accesses: seq<Access>)
    ensures |accesses| == 2 + 2 * k
  {
    [Read(id), Update(m, Change.Deliver("c", "", 0))]
    + seq(k, _ => Read(id)) + seq(k, _ => Retry(DeliveredVersion(m), "", 0, 0))
  }

  function StormStates(cfg: Config, s: Racing, id: string, m: Message, k: nat): (states: seq<Racing>)
    requires id in s.store
    ensures |states| == 3 + 2 * k
  {
    var read := s.(seen := s.seen + {s.store[id]});
    var delivered := Put(read, DeliveredVersion(m));
    var known := delivered.(seen := delivered.seen + {DeliveredVersion(m)});
    [s, read, delivered] + seq(k, _ => known) + seq(k, _ => Put(known, Requeued(cfg, DeliveredVersion(m), "", 0, 0)))
  }

  lemma StormIsTrace(cfg: Config, s: Racing, id: string, m: Message, k: nat)
    requires Known(s, id) && (m == s.store[id] || (m in s.seen && m.id == id)) && HasRetryLeft(cfg, m)
    ensures Trace(cfg, StormStates(cfg, s, id, m, k), StormAccesses(id, m, k))
  {
    hide RetryDelay;
    var states, accesses := StormStates(cfg, s, id, m, k), StormAccesses(id, m, k);
    var d := DeliveredVersion(m);
    var read := s.(seen := s.seen + {s.store[id]});
    var delivered := Put(read, d);
    var known := delivered.(seen := delivered.seen + {d});
    assert known.seen + {d} == known.seen;
    var n := Requeued(cfg, d, "", 0, 0);
    assert Put(Put(known, n), n) == Put(known, n);
    forall i | 0 <= i < |accesses| ensures RacingNext(cfg, states[i], accesses[i], states[i + 1]) {
    }
  }

  lemma {:induction false} StormCounts(id: string, m: Message, k: nat, n: nat)
    requires m.id == id && n <= 2 + 2 * k
    ensures Retries(StormAccesses(id, m, k), id, n) == if n <= 2 + k then 0 else n - 2 - k
  {
    if n > 0 { StormCounts(id, m, k, n - 1); }
  }

  // The bound of the atomic service: at most as many automatic requeues as remain.
  ghost predicate BoundHolds(cfg: Config, s: Racing, id: string) {
    && id in s.store
    && var m := s.store[id];
       var limit := if m.maxRetries > 0 then m.maxRetries else cfg.maxRetries;
       forall states, accesses :: Trace(cfg, states, accesses) && states[0] == s ==>
         Retries(accesses, id, |accesses|) <= if m.retryCount < limit then limit - m.retryCount else 0
  }

  // Every interleaving keeps the bound exactly if no version of the message has a retry left;
  // when nothing has been read yet, exactly if the guard of the requeue refuses the message.
  lemma BoundHoldsExactlyIfSpent(cfg: Config, s: Racing, id: string)
    requires Known(s, id)
    ensures BoundHolds(cfg, s, id) <==> Spent(cfg, s, id)
    ensures s.seen == {} ==> (BoundHolds(cfg, s, id) <==> !ShouldRetry(cfg, s.store[id], s.store[id].retryCount + 1))
  {
    hide RacingNext, RacingFenced;
    if Spent(cfg, s, id) {
      forall states, accesses | Trace(cfg, states, accesses) && states[0] == s
        ensures Retries(accesses, id, |accesses|) == 0
      {
        TraceLength(cfg, states, accesses);
        SpentIsNeverRetried(cfg, states, accesses, id, |accesses|);
      }
    } else {
      var m :| (m == s.store[id] || (m in s.seen && m.id == id)) && HasRetryLeft(cfg, m);
      ManyRetries(cfg, s, id, m, BudgetAt(cfg, s, id) + 1);
    }
  }

  // Any number of automatic requeues from one version with a retry left.
  lemma ManyRetries(cfg: Config, s: Racing, id: string, m: Message, k: nat)
    requires Known(s, id) && (m == s.store[id] || (m in s.seen && m.id == id)) && HasRetryLeft(cfg, m)
    ensures var states, accesses := StormStates(cfg, s, id, m, k), StormAccesses(id, m, k);
      Trace(cfg, states, accesses) && states[0] == s && Retries(accesses, id, |accesses|) == k
  {
    assert m.id == id;
    hide RacingFenced, Trace;
    StormIsTrace(cfg, s, id, m, k);
    StormCounts(id, m, k, 2 + 2 * k);
  }

  // Two operations read a message with one retry left before either writes: both requeue it,
  // and its count says one.
  lemma OneRetrySpentTwice(cfg: Config, id: string, topic: string, consumer: string)
    returns (states: seq<Racing>, accesses: seq<Access>)
    requires id != "" && consumer != ""
    ensures Trace(cfg, states, accesses) && RacingFenced(states[0]) && id in states[0].store
    ensures BudgetAt(cfg, states[0], id) == 1 && states[0].seen == {}
    ensures |accesses| == 4 && accesses[0].Read? && accesses[1].Read? && accesses[2].Retry? && accesses[3].Retry?
    ensures Retries(accesses, id, 4) == 2 && SetBacks(states, accesses, id, 4) == 1 && CountAt(states[4], id) == 1
  {
    hide RetryDelay;
    var m := Message(id, topic, 0, 0, [], [0], map[], Normal, AtLeastOnce, Delivered, 0, 1,
                     "", consumer, 0, None, Some(0), None, false, "");
    var n := Requeued(cfg, m, "", 0, 0);
    var s0 := Racing(map[id := m], {});
    var s1 := s0.(seen := {m});
    var s2 := Put(s1, n);
    states, accesses := [s0, s1, s1, s2, s2], [Read(id), Read(id), Retry(m, "", 0, 0), Retry(m, "", 0, 0)];
    assert s1.seen + {m} == s1.seen;
    assert Put(s2, n) == s2;
    CountFour(accesses, id);
    EveryRetryIsAccounted(cfg, states, accesses, id, 4);
  }

  lemma CountFour(accesses: seq<Access>, id: string)
    requires |accesses| == 4
    requires accesses[0].Read? && accesses[1].Read? && accesses[2].Retry? && accesses[3].Retry?
    requires accesses[2].m.id == accesses[3].m.id == id
    ensures Retries(accesses, id, 4) == 2 && AdminRetries(accesses, id, 4) == 0
  {
    assert Retries(accesses, id, 1) == 0 && AdminRetries(accesses, id, 1) == 0;
    assert Retries(accesses, id, 2) == 0 && AdminRetries(accesses, id, 2) == 0;
    assert Retries(accesses, id, 3) == 1 && AdminRetries(accesses, id, 3) == 0;
  }
}
