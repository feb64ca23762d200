// The message repository port as the acknowledgment service uses it: messages by id, a Store
// that may fail, and queries over all topics.

module AckRepository {
  import opened AckPolicy
  import opened AckSystem
  import opened Enumerations
  import opened Messages
  import opened Options

  class Repository {
    var messages: Store
    const reliable: bool  // no call on this repository fails

    constructor (reliable: bool)
      ensures messages == map[] && this.reliable == reliable
    {
      messages := map[];
      this.reliable := reliable;
    }

    method Put(m: Message) returns (ok: bool)
      modifies this
      ensures reliable ==> ok
      ensures messages == if ok then old(messages)[m.id := m] else old(messages)
    {
      var up: bool := *;
      ok := reliable || up;
      if ok {
        messages := messages[m.id := m];
      }
    }

    method GetUnacknowledged(cfg: Config, now: nat) returns (ok: bool, list: seq<Message>)
      requires forall id :: id in messages ==> messages[id].id == id
      ensures reliable ==> ok
      ensures ok ==> Unacknowledged(cfg, now, messages, list)
    {
      ok := *;
      ok := ok || reliable;
      list := Select(messages, Overdue(cfg.ackDeadline, now));
      assert forall m: Message :: Matches(Overdue(cfg.ackDeadline, now), m) <==> PastDeadline(cfg, m, now);
    }

    method GetFailedMessages(maxRetries: int) returns (ok: bool, list: seq<Message>)
      requires forall id :: id in messages ==> messages[id].id == id
      ensures reliable ==> ok
      ensures ok ==> Selected(messages, list, Exhausted(maxRetries))
    {
      ok := *;
      ok := ok || reliable;
      list := Select(messages, Exhausted(maxRetries));
    }
  }

  datatype Query = Overdue(deadline: int, now: int) | Exhausted(maxRetries: int)

  predicate Matches(q: Query, m: Message) {
    match q
    case Overdue(deadline, now) =>
      m.status == Delivered && m.deliveredAt.Some? && now - m.deliveredAt.value > deadline
    case Exhausted(maxRetries) => m.status == Failed && m.retryCount >= maxRetries
  }

  // The matching messages of all topics, each once.
  ghost predicate Selected(store: Store, list: seq<Message>, q: Query) {
    && Distinct(list)
    && (forall m :: m in list ==> m.id in store && store[m.id] == m && Matches(q, m))
    && (forall id :: id in store && Matches(q, store[id]) ==> store[id] in list)
  }

  // What the sweep relies on: the query may read the clock later than its caller, so it
  // returns delivered messages, among them all that are past their deadline now.
  ghost predicate Unacknowledged(cfg: Config, now: nat, store: Store, list: seq<Message>) {
    && Distinct(list)
    && (forall m :: m in list ==> m.id in store && store[m.id] == m && m.status == Delivered)
    && (forall id :: id in store && PastDeadline(cfg, store[id], now) ==> store[id] in list)
  }

  method Select(store: Store, q: Query) returns (list: seq<Message>)
    requires forall id :: id in store ==> store[id].id == id
    ensures Selected(store, list, q)
  {
    list := [];
    var left := store.Keys;
    while left != {}
      invariant left <= store.Keys && Distinct(list)
      invariant forall m :: m in list ==> m.id in store.Keys - left && store[m.id] == m && Matches(q, m)
      invariant forall id :: id in store.Keys - left && Matches(q, store[id]) ==> store[id] in list
      decreases left
    {
      var id :| id in left;
      if Matches(q, store[id]) {
        list := list + [store[id]];
      }
      left := left - {id};
    }
  }

  // Stands for uuid.New: some non-empty id that is not in use.
  method NewId(taken: set<string>) returns (id: string)
    ensures id != "" && id !in taken
  {
    var n: nat := 0;
    var left := taken;
    while left != {}
      invariant left <= taken
      invariant forall t :: t in taken - left ==> |t| <= n
      decreases left
    {
      var t :| t in left;
      n := if n < |t| then |t| else n;
      left := left - {t};
    }
    id := seq(n + 1, _ => 'u');
  }
}
