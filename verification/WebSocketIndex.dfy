// internal/adapters/api/websocket: the subscriptions of a connection by topic, and the
// server's index from topic and connection to the same subscription objects.  Each handler
// is one atomic step; connection ids are unique.  A handler that subscribes after its
// connection has been unregistered leaves an entry in the server's index that no later
// unregistration removes; `leaked` names exactly these.

module WebSocketIndex {
  import opened NestedSums

  datatype Outcome = Done | TopicRequired | AlreadySubscribed | NotSubscribed | SubscriptionFailed

  class Subscription {
    const id: string
    const connectionID: string
    const topic: string
    const consumerGroup: string
    const filter: string
    var messageCount: int

    constructor (id: string, connectionID: string, topic: string, consumerGroup: string, filter: string)
      ensures this.id == id && this.connectionID == connectionID && this.topic == topic
      ensures this.consumerGroup == consumerGroup && this.filter == filter && messageCount == 0
    {
      this.id, this.connectionID, this.topic := id, connectionID, topic;
      this.consumerGroup, this.filter, messageCount := consumerGroup, filter, 0;
    }
  }

  class Connection {
    const id: string
    var isAlive: bool
    var subscriptions: map<string, Subscription>

    constructor (id: string)
      ensures this.id == id && isAlive && subscriptions == map[]
    {
      this.id, isAlive, subscriptions := id, true, map[];
    }
  }

  type TopicSubs = map<string, Subscription>        // by connection id
  type ConnectionSubs = map<string, Subscription>   // by topic

  predicate Listed(subs: map<string, TopicSubs>, t: string, c: string) {
    t in subs && c in subs[t]
  }

  function At(subs: map<string, TopicSubs>, t: string, c: string): Subscription
    requires Listed(subs, t, c)
  {
    subs[t][c]
  }

  predicate NoneEmpty(subs: map<string, TopicSubs>) {
    forall t :: t in subs ==> subs[t] != map[]
  }

  type Entries = set<(string, string)>  // topic and connection id

  // The server's index and the maps of the connections among `conns` hold the same
  // subscription objects, under their own topic and connection; no inner map is empty; the
  // entries of connections that are not among `conns` are exactly those in `leaked`.
  ghost predicate Agree(subs: map<string, TopicSubs>, conns: map<string, ConnectionSubs>, leaked: Entries) {
    && (forall c, t :: c in conns ==> (t in conns[c] <==> Listed(subs, t, c)))
    && (forall c, t :: c in conns && Listed(subs, t, c) ==> conns[c][t] == At(subs, t, c))
    && (forall t, c :: Listed(subs, t, c) ==> At(subs, t, c).topic == t && At(subs, t, c).connectionID == c)
    && (forall t, c :: (t, c) in leaked <==> Listed(subs, t, c) && c !in conns)
    && NoneEmpty(subs)
  }

  function OfConnection(leaked: Entries, c: string): Entries {
    set e | e in leaked && e.1 == c
  }

  function Without(inner: TopicSubs, c: string): TopicSubs {
    inner - {c}
  }

  // The server's index with one pair added, one pair removed, or one connection removed.
  function Added(subs: map<string, TopicSubs>, t: string, c: string, s: Subscription): map<string, TopicSubs> {
    var inner: TopicSubs := if t in subs then subs[t] else map[];
    subs[t := inner[c := s]]
  }

  function Removed(subs: map<string, TopicSubs>, t: string, c: string): map<string, TopicSubs> {
    if t !in subs then subs
    else if Without(subs[t], c) == map[] then subs - {t}
    else subs[t := Without(subs[t], c)]
  }

  function Purged(subs: map<string, TopicSubs>, c: string): map<string, TopicSubs> {
    map t | t in subs && Without(subs[t], c) != map[] :: Without(subs[t], c)
  }

  lemma AddedLists(subs: map<string, TopicSubs>, t: string, c: string, s: Subscription)
    ensures var after := Added(subs, t, c, s);
      && (forall u, d :: Listed(after, u, d) <==> Listed(subs, u, d) || (u == t && d == c))
      && (forall u, d :: Listed(after, u, d) ==> At(after, u, d) == if u == t && d == c then s else At(subs, u, d))
      && (NoneEmpty(subs) ==> NoneEmpty(after))
  {
    var after := Added(subs, t, c, s);
    assert c in after[t];
    assert forall u :: u in after && u != t ==> after[u] == subs[u];
  }

  lemma RemovedLists(subs: map<string, TopicSubs>, t: string, c: string)
    ensures var after := Removed(subs, t, c);
      && (forall u, d :: Listed(after, u, d) <==> Listed(subs, u, d) && !(u == t && d == c))
      && (forall u, d :: Listed(after, u, d) ==> At(after, u, d) == At(subs, u, d))
      && (NoneEmpty(subs) ==> NoneEmpty(after))
  {
    forall u, d | Listed(subs, u, d) && !(u == t && d == c) ensures Listed(Removed(subs, t, c), u, d) {
      if u == t { assert d in subs[t] - {c}; }
    }
  }

  lemma PurgedLists(subs: map<string, TopicSubs>, c: string)
    ensures var after := Purged(subs, c);
      && (forall u, d :: Listed(after, u, d) <==> Listed(subs, u, d) && d != c)
      && (forall u, d :: Listed(after, u, d) ==> At(after, u, d) == At(subs, u, d))
      && NoneEmpty(after)
  {
    forall u, d | Listed(subs, u, d) && d != c ensures Listed(Purged(subs, c), u, d) {
      assert d in subs[u] - {c};
    }
  }

  // What the handlers do to the server's index is one of these changes.
  lemma InsertedIsAdded(subs: map<string, TopicSubs>, after: map<string, TopicSubs>,
                        t: string, c: string, s: Subscription)
    requires var inner: TopicSubs := if t in subs then subs[t] else map[];
      after == if t in subs then subs[t := inner[c := s]] else subs[t := map[]][t := inner[c := s]]
    ensures after == Added(subs, t, c, s)
  {
  }

  lemma DeletedIsRemoved(subs: map<string, TopicSubs>, after: map<string, TopicSubs>, t: string, c: string)
    requires after == if t !in subs then subs
                      else if Without(subs[t], c) == map[] then subs[t := Without(subs[t], c)] - {t}
                      else subs[t := Without(subs[t], c)]
    ensures after == Removed(subs, t, c)
  {
    hide Without;
    if t in subs { assert subs[t := Without(subs[t], c)] - {t} == subs - {t}; }
  }

  // A completed subscribe, applied to the connection's map as well, keeps the two indexes in
  // agreement for a registered connection, and leaks the new entry for any other.
  lemma SubscribeAgrees(subs: map<string, TopicSubs>, conns: map<string, ConnectionSubs>, leaked: Entries,
                        t: string, c: string, s: Subscription)
    requires Agree(subs, conns, leaked) && s.topic == t && s.connectionID == c
    ensures c in conns ==> Agree(Added(subs, t, c, s), conns[c := conns[c][t := s]], leaked)
    ensures c !in conns ==> Agree(Added(subs, t, c, s), conns, leaked + {(t, c)})
  {
    AddedLists(subs, t, c, s);
    hide Added, Listed, At, NoneEmpty;
  }

  lemma UnsubscribeAgrees(subs: map<string, TopicSubs>, conns: map<string, ConnectionSubs>, leaked: Entries,
                          t: string, c: string)
    requires Agree(subs, conns, leaked)
    ensures Agree(Removed(subs, t, c), if c in conns then conns[c := conns[c] - {t}] else conns, leaked - {(t, c)})
  {
    RemovedLists(subs, t, c);
    hide Removed, Listed, At, NoneEmpty;
  }

  lemma UnregisterAgrees(subs: map<string, TopicSubs>, conns: map<string, ConnectionSubs>, leaked: Entries, c: string)
    requires Agree(subs, conns, leaked)
    ensures Agree(Purged(subs, c), conns - {c}, leaked - OfConnection(leaked, c))
  {
    PurgedLists(subs, c);
    hide Purged, Listed, At, NoneEmpty;
  }

  // In agreement, the index is the transpose of the connections' maps and the leaked entries.
  lemma AgreementTransposes(subs: map<string, TopicSubs>, conns: map<string, ConnectionSubs>, leaked: Entries)
    requires Agree(subs, conns, leaked)
    ensures Sum(KeysOf(subs)) == Sum(TopicsOf(conns)) + |leaked|
  {
    assert forall t, c :: Has(KeysOf(subs), t, c) <==> Listed(subs, t, c);
    assert forall t, c :: Has(TopicsOf(conns), c, t) <==> c in conns && t in conns[c];
    hide Listed, At, NoneEmpty, KeysOf, TopicsOf, Has;
    assert Transposes(KeysOf(subs), TopicsOf(conns), leaked);
    TransposeKeepsSum(KeysOf(subs), TopicsOf(conns), leaked);
  }

  /* What becomes of a leaked entry */

  // The registered connections and the leaked entries.
  datatype Presence = Presence(connections: set<string>, leaked: Entries)

  // A registration, an unregistration, or a completed subscribe or unsubscribe.
  datatype Event =
    | Register(c: string)
    | Unregister(c: string)
    | Subscribe(c: string, topic: string)
    | Unsubscribe(c: string, topic: string)

  function After(p: Presence, e: Event): Presence {
    match e
    case Register(c) => p.(connections := p.connections + {c})
    case Unregister(c) => Presence(p.connections - {c}, p.leaked - OfConnection(p.leaked, c))
    case Subscribe(c, topic) => if c in p.connections then p else p.(leaked := p.leaked + {(topic, c)})
    case Unsubscribe(c, topic) => p.(leaked := p.leaked - {(topic, c)})
  }

  function AfterAll(p: Presence, events: seq<Event>): Presence {
    if events == [] then p else After(AfterAll(p, events[..|events| - 1]), events[|events| - 1])
  }

  // Only these events remove the entry of topic t and connection c.
  predicate Clears(e: Event, t: string, c: string) {
    e == Unsubscribe(c, t) || e == Unregister(c)
  }

  // Exactly two events end a leak: an unsubscribe of the same pair, and unregistering the
  // connection once more.
  lemma LeakEndsExactlyIfCleared(p: Presence, e: Event, t: string, c: string)
    requires (t, c) in p.leaked
    ensures (t, c) !in After(p, e).leaked <==> Clears(e, t, c)
  {
    assert (t, c) in OfConnection(p.leaked, c);
  }

  lemma {:induction false} LeakOutlivesOtherEvents(p: Presence, events: seq<Event>, t: string, c: string)
    requires (t, c) in p.leaked
    requires forall i :: 0 <= i < |events| ==> !Clears(events[i], t, c)
    ensures (t, c) in AfterAll(p, events).leaked
    decreases |events|
  {
    if events != [] {
      var n := |events| - 1;
      LeakOutlivesOtherEvents(p, events[..n], t, c);
      LeakEndsExactlyIfCleared(AfterAll(p, events[..n]), events[n], t, c);
    }
  }

  class Server {
    var connections: map<string, Connection>
    var subscriptions: map<string, TopicSubs>
    ghost var leaked: Entries

    // The per-connection maps, by connection id.
    ghost function Views(): map<string, ConnectionSubs>
      reads this`connections, connections.Values
    {
      map c | c in connections :: connections[c].subscriptions
    }

    ghost predicate Valid()
      reads this, connections.Values
    {
      (forall c :: c in connections ==> connections[c].id == c) && Agree(subscriptions, Views(), leaked)
    }

    ghost function Present(): Presence
      reads this
    {
      Presence(connections.Keys, leaked)
    }

    ghost predicate Registered(conn: Connection)
      reads this
    {
      conn.id in connections && connections[conn.id] == conn
    }

    // No other connection uses this one's id.
    ghost predicate UniqueId(conn: Connection)
      reads this
    {
      conn.id in connections ==> connections[conn.id] == conn
    }

    constructor ()
      ensures Valid() && connections == map[] && subscriptions == map[] && leaked == {}
    {
      connections, subscriptions, leaked := map[], map[], {};
    }

    method RegisterConnection(conn: Connection)
      requires Valid() && conn.id !in connections && conn.subscriptions == map[] && OfConnection(leaked, conn.id) == {}
      modifies this`connections
      ensures Valid() && connections == old(connections)[conn.id := conn]
      ensures Present() == After(old(Present()), Register(conn.id))
    {
      assert forall t :: (t, conn.id) in leaked ==> (t, conn.id) in OfConnection(leaked, conn.id);
      connections := connections[conn.id := conn];
      assert Views() == old(Views())[conn.id := map[]];
    }

    // The connection disappears from both levels of the server, and with it every topic whose
    // last subscriber it was, and whatever it had leaked before.
    method UnregisterConnection(conn: Connection)
      requires Valid()
      modifies this
      ensures Valid() && connections == old(connections) - {conn.id}
      ensures subscriptions == Purged(old(subscriptions), conn.id)
      ensures Present() == After(old(Present()), Unregister(conn.id))
    {
      hide Agree, Purged;
      UnregisterAgrees(subscriptions, Views(), leaked, conn.id);
      connections := connections - {conn.id};
      subscriptions := RemoveAllSubscriptions(subscriptions, conn.id);
      leaked := leaked - OfConnection(leaked, conn.id);
      assert Views() == old(Views()) - {conn.id};
    }

    // Writing a connection's map changes the view of that connection only.
    method SetSubscriptions(conn: Connection, subs: ConnectionSubs)
      requires UniqueId(conn) && forall c :: c in connections ==> connections[c].id == c
      modifies conn`subscriptions
      ensures conn.subscriptions == subs
      ensures Views() == if conn.id in connections then old(Views())[conn.id := subs] else old(Views())
    {
      conn.subscriptions := subs;
      assert forall c :: c in connections && c != conn.id ==> connections[c].subscriptions == old(Views())[c];
    }

    method SetIndex(subs: map<string, TopicSubs>, ghost leaking: Entries)
      modifies this`subscriptions, this`leaked
      ensures subscriptions == subs && leaked == leaking && Views() == old(Views())
    {
      subscriptions, leaked := subs, leaking;
    }

    // `accepted` is the subscriber service's answer, with the new subscription's id.  A
    // completed subscribe leaks its entry exactly when the connection is no longer registered.
    method HandleSubscribe(conn: Connection, topic: string, group: string, filter: string, accepted: bool, id: string)
      returns (r: Outcome)
      requires Valid() && UniqueId(conn)
      modifies this`subscriptions, this`leaked, conn`subscriptions
      ensures Valid()
      ensures r == if topic == "" then TopicRequired
        else if topic in old(conn.subscriptions) then AlreadySubscribed
        else if !accepted then SubscriptionFailed else Done
      ensures r != Done ==> unchanged(this) && unchanged(conn)
      ensures r == Done ==>
        && topic in conn.subscriptions && fresh(conn.subscriptions[topic])
        && conn.subscriptions[topic].id == id && conn.subscriptions[topic].consumerGroup == group
        && conn.subscriptions[topic].filter == filter
        && conn.subscriptions == old(conn.subscriptions)[topic := conn.subscriptions[topic]]
        && subscriptions == Added(old(subscriptions), topic, conn.id, conn.subscriptions[topic])
      ensures r == Done ==> Present() == After(old(Present()), Subscribe(conn.id, topic))
    {
      if topic == "" { return TopicRequired; }
      if topic in conn.subscriptions { return AlreadySubscribed; }
      if !accepted { return SubscriptionFailed; }
      AddSubscription(conn, topic, group, filter, id);
      r := Done;
    }

    // The two critical sections of a subscribe.
    method AddSubscription(conn: Connection, topic: string, group: string, filter: string, id: string)
      requires Valid() && UniqueId(conn)
      modifies this`subscriptions, this`leaked, conn`subscriptions
      ensures Valid()
      ensures topic in conn.subscriptions && fresh(conn.subscriptions[topic])
      ensures conn.subscriptions[topic].id == id && conn.subscriptions[topic].consumerGroup == group
      ensures conn.subscriptions[topic].filter == filter
      ensures conn.subscriptions == old(conn.subscriptions)[topic := conn.subscriptions[topic]]
      ensures subscriptions == Added(old(subscriptions), topic, conn.id, conn.subscriptions[topic])
      ensures Present() == After(old(Present()), Subscribe(conn.id, topic))
    {
      hide Agree, Added, Listed;
      var sub := new Subscription(id, conn.id, topic, group, filter);
      SubscribeAgrees(subscriptions, Views(), leaked, topic, conn.id, sub);
      SetSubscriptions(conn, conn.subscriptions[topic := sub]);
      var index := subscriptions;
      if topic !in index {
        index := index[topic := map[]];
      }
      index := index[topic := index[topic][conn.id := sub]];
      InsertedIsAdded(subscriptions, index, topic, conn.id, sub);
      SetIndex(index, if conn.id in connections then leaked else leaked + {(topic, conn.id)});
    }

    // Unsubscribing removes the topic from the connection and the connection from the topic,
    // whether or not the connection is still registered.
    method HandleUnsubscribe(conn: Connection, topic: string) returns (r: Outcome)
      requires Valid() && UniqueId(conn)
      modifies this`subscriptions, this`leaked, conn`subscriptions
      ensures Valid()
      ensures r == if topic == "" then TopicRequired
        else if topic !in old(conn.subscriptions) then NotSubscribed else Done
      ensures r != Done ==> unchanged(this) && unchanged(conn)
      ensures r == Done ==>
        && conn.subscriptions == old(conn.subscriptions) - {topic}
        && subscriptions == Removed(old(subscriptions), topic, conn.id)
        && Present() == After(old(Present()), Unsubscribe(conn.id, topic))
    {
      if topic == "" { return TopicRequired; }
      if topic !in conn.subscriptions { return NotSubscribed; }
      RemoveSubscription(conn, topic);
      r := Done;
    }

    // The two critical sections of an unsubscribe.
    method RemoveSubscription(conn: Connection, topic: string)
      requires Valid() && UniqueId(conn)
      modifies this`subscriptions, this`leaked, conn`subscriptions
      ensures Valid()
      ensures conn.subscriptions == old(conn.subscriptions) - {topic}
      ensures subscriptions == Removed(old(subscriptions), topic, conn.id)
      ensures leaked == old(leaked) - {(topic, conn.id)}
    {
      hide Agree, Removed, Listed;
      UnsubscribeAgrees(subscriptions, Views(), leaked, topic, conn.id);
      SetSubscriptions(conn, conn.subscriptions - {topic});
      var index := DeleteEntry(subscriptions, topic, conn.id);
      SetIndex(index, leaked - {(topic, conn.id)});
    }

    // A delivery is counted on the shared subscription object, so through the server's index
    // as well as through the connection's.
    method DeliverMessage(conn: Connection, topic: string)
      requires Valid() && UniqueId(conn)
      modifies if topic in conn.subscriptions then {conn.subscriptions[topic]} else {}
      ensures Valid()
      ensures topic in conn.subscriptions ==>
        && conn.subscriptions[topic].messageCount == old(conn.subscriptions[topic].messageCount) + 1
        && (Registered(conn) ==>
              Listed(subscriptions, topic, conn.id)
              && subscriptions[topic][conn.id].messageCount == old(subscriptions[topic][conn.id].messageCount) + 1)
    {
      if topic in conn.subscriptions {
        assert Registered(conn) ==> conn.subscriptions == Views()[conn.id];
        var sub := conn.subscriptions[topic];
        sub.messageCount := sub.messageCount + 1;
      }
    }

    /* Counts */

    ghost function ByTopic(): Index
      reads this
    {
      KeysOf(subscriptions)
    }

    ghost function ByConnection(): Index
      reads this, connections.Values
    {
      TopicsOf(Views())
    }

    ghost function Alive(ids: set<string>): set<string>
      requires ids <= connections.Keys
      reads this, connections.Values
    {
      set c | c in ids && connections[c].isAlive
    }

    // total_subscriptions is the sum of the sizes of the per-connection maps, plus the number
    // of leaked entries.
    method GetConnectionStats()
      returns (totalConnections: nat, aliveConnections: nat, totalSubscriptions: nat, topics: nat)
      requires Valid()
      ensures totalConnections == |connections| && topics == |subscriptions|
      ensures aliveConnections == |Alive(connections.Keys)|
      ensures totalSubscriptions == Sum(ByTopic()) == Sum(ByConnection()) + |leaked|
    {
      totalConnections, topics := |connections|, |subscriptions|;
      hide Agree, KeysOf, TopicsOf, Sum;
      aliveConnections := CountAlive();
      totalSubscriptions := CountSubscriptions(subscriptions);
      AgreementTransposes(subscriptions, Views(), leaked);
    }

    method CountAlive() returns (alive: nat)
      ensures alive == |Alive(connections.Keys)|
    {
      alive := 0;
      var left := connections.Keys;
      while left != {}
        invariant left <= connections.Keys
        invariant alive == |Alive(connections.Keys - left)|
        decreases left
      {
        var c :| c in left;
        assert Alive(connections.Keys - (left - {c}))
            == Alive(connections.Keys - left) + (if connections[c].isAlive then {c} else {});
        if connections[c].isAlive {
          alive := alive + 1;
        }
        left := left - {c};
      }
      assert connections.Keys - {} == connections.Keys;
    }
  }

  // A connection is unregistered while its reader still handles a subscribe.
  method SubscribeAfterUnregister() returns (server: Server)
    ensures fresh(server) && server.Valid() && server.connections == map[] && server.leaked == {("t", "c")}
  {
    hide Agree, Purged, Added;
    server := new Server();
    var conn := new Connection("c");
    server.RegisterConnection(conn);
    server.UnregisterConnection(conn);
    var r := server.HandleSubscribe(conn, "t", "", "", true, "s");
  }

  // The server then counts a subscription although it has no connection.
  method LeakedEntryIsCounted() returns (connections: nat, subscriptions: nat)
    ensures connections == 0 && subscriptions == 1
  {
    hide Agree;
    var server := SubscribeAfterUnregister();
    var alive: nat, topics: nat;
    connections, alive, subscriptions, topics := server.GetConnectionStats();
    assert TopicsOf(server.Views()) == map[];
  }

  // Deletes one entry of the server's index, and its topic if that leaves none.
  method DeleteEntry(subs: map<string, TopicSubs>, t: string, c: string) returns (after: map<string, TopicSubs>)
    ensures after == Removed(subs, t, c)
  {
    hide Without;
    after := subs;
    if t in after {
      var topicSubs := Without(after[t], c);
      after := after[t := topicSubs];
      if |topicSubs| == 0 {
        after := after - {t};
      }
    }
    DeletedIsRemoved(subs, after, t, c);
  }

  function TopicsOf(conns: map<string, ConnectionSubs>): Index {
    map c | c in conns :: conns[c].Keys
  }

  function KeysOf(subs: map<string, TopicSubs>): Index {
    map t | t in subs :: subs[t].Keys
  }

  method CountSubscriptions(subs: map<string, TopicSubs>) returns (total: nat)
    ensures total == Sum(KeysOf(subs))
  {
    total := 0;
    var left := subs.Keys;
    ghost var index := KeysOf(subs);
    assert index - left == map[] && Pairs(map[]) == {};
    while left != {}
      invariant left <= subs.Keys
      invariant total == |Pairs(index - left)|
      decreases left
    {
      var t :| t in left;
      PairsSplit(index - (left - {t}), t);
      assert index - (left - {t}) - {t} == index - left;
      total := total + |subs[t]|;
      left := left - {t};
    }
    assert index - left == index;
    SumCountsPairs(index);
  }

  // The index once the topics outside `left` have been visited.
  function Partly(before: map<string, TopicSubs>, c: string, left: set<string>): map<string, TopicSubs> {
    map t | t in before && (t in left || Without(before[t], c) != map[]) ::
      if t in left then before[t] else Without(before[t], c)
  }

  method RemoveAllSubscriptions(before: map<string, TopicSubs>, c: string) returns (subs: map<string, TopicSubs>)
    ensures subs == Purged(before, c)
  {
    subs := before;
    var left := before.Keys;
    assert subs == Partly(before, c, left);
    while left != {}
      invariant left <= before.Keys
      invariant subs == Partly(before, c, left)
      decreases left
    {
      hide Partly;
      var t :| t in left;
      PartlyStep(before, c, left, t);
      var topicSubs := Without(subs[t], c);
      subs := subs[t := topicSubs];
      if |topicSubs| == 0 {
        subs := subs - {t};
      }
      left := left - {t};
    }
  }

  lemma PartlyStep(before: map<string, TopicSubs>, c: string, left: set<string>, t: string)
    requires t in left && left <= before.Keys
    ensures var subs := Partly(before, c, left);
      && t in subs && subs[t] == before[t]
      && Partly(before, c, left - {t}) ==
           if Without(before[t], c) == map[] then subs[t := Without(before[t], c)] - {t}
           else subs[t := Without(before[t], c)]
  {
    hide Without;
  }
}
