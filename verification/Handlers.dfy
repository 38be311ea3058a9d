/**
 * The WebSocket handlers as they run: each sequences database transactions, presence and sends. What
 * happens when several are interleaved is the concern of Delivery, whose steps these sequences are.
 */
module Handlers {
  import opened Basics
  import opened Connections
  import opened SortedSets
  import PresenceDb
  import opened PresenceBackend
  import opened ConnectionManagers
  import opened Receipts
  import Delivery

  // ---------- Broadcasts ----------

  datatype Event = MessageCreated(message: MessageId) | MessageDelivered(receipt: ReceiptKey)
                 | MessageRead(receipt: ReceiptKey) | PresenceOnline(user: UserId)

  // One call of send_to_users: what was published, or who received it here.
  datatype Broadcast = Broadcast(event: Event, published: Option<seq<UserId>>, sent: multiset<Sending>)

  // The users named and not excluded.
  predicate Named(users: seq<UserId>, exclude: Option<UserId>, u: UserId) {
    u in users && exclude != Some(u)
  }

  // With Redis, exactly the named users are published, each once; alone, each of their working sockets gets the event
  // once, and no other socket gets it.
  ghost predicate Reaches(b: Broadcast, event: Event, users: seq<UserId>, exclude: Option<UserId>, alone: bool,
                          table: SocketTable, broken: set<Socket>) {
    && b.event == event
    && if alone then
         && b.published == None
         && forall u, x :: b.sent[Sending(u, x)] ==
              if Named(users, exclude, u) && u in table && x in table[u] && x !in broken then 1 else 0
       else
         && b.sent == multiset{}
         && (b.published == None <==> forall u :: !Named(users, exclude, u))
         && (b.published.Some? ==>
               Distinct(b.published.value) && forall u :: u in b.published.value <==> Named(users, exclude, u))
  }

  lemma SentOnce(users: seq<UserId>, exclude: Option<UserId>, table: SocketTable, first: SocketTable,
                 broken: set<Socket>, u: UserId, x: Socket)
    requires SameWorking(table, first, broken)
    ensures Deliveries(table, Targets(users, exclude), broken)[Sending(u, x)] ==
              if Named(users, exclude, u) && u in first && x in first[u] && x !in broken then 1 else 0
  {
    TargetsExact(users, exclude);
    DeliveriesCount(table, Targets(users, exclude), broken, u, x);
    DistinctCount(Targets(users, exclude), u);
    assert x !in broken ==> (x in SocketsOf(table, u) <==> x in SocketsOf(first, u));
  }

  lemma SentReaches(event: Event, users: seq<UserId>, exclude: Option<UserId>, table: SocketTable, first: SocketTable,
                    broken: set<Socket>)
    requires SameWorking(table, first, broken)
    ensures Reaches(Broadcast(event, None, Deliveries(table, Targets(users, exclude), broken)),
                    event, users, exclude, true, first, broken)
  {
    forall u, x { SentOnce(users, exclude, table, first, broken, u, x); }
  }

  lemma PublishedReaches(event: Event, users: seq<UserId>, exclude: Option<UserId>, table: SocketTable, broken: set<Socket>)
    ensures var targets := Targets(users, exclude);
            Reaches(Broadcast(event, if targets != [] then Some(targets) else None, multiset{}),
                    event, users, exclude, false, table, broken)
  {
    TargetsExact(users, exclude);
    assert Targets(users, exclude) == [] || Named(users, exclude, Targets(users, exclude)[0]);
  }

  method Announce(manager: ConnectionManager, event: Event, users: seq<UserId>, exclude: Option<UserId>,
                  broken: set<Socket>, now: Time, ghost first: SocketTable) returns (b: Broadcast)
    requires manager.Valid() && SameWorking(manager.connections, first, broken)
    modifies manager.Frame()
    ensures manager.Valid() && manager.backend == old(manager.backend)
    ensures SameWorking(manager.connections, first, broken)
    ensures manager.backend != null ==>
              && manager.connections == old(manager.connections)
              && manager.backend.redis.State() == old(manager.backend.redis.State())
    ensures Reaches(b, event, users, exclude, manager.backend == null, first, broken)
  {
    SentReaches(event, users, exclude, manager.connections, first, broken);
    PublishedReaches(event, users, exclude, first, broken);
    ghost var before := manager.connections;
    var published, sent := manager.SendToUsers(users, exclude, broken, now);
    SameTwice(manager.connections, before, first, broken);
    b := Broadcast(event, published, sent);
  }

  lemma SameTwice(t: SocketTable, s: SocketTable, first: SocketTable, broken: set<Socket>)
    requires SameWorking(t, s, broken) && SameWorking(s, first, broken)
    ensures SameWorking(t, first, broken)
  {
    forall v, x | x !in broken
      ensures x in SocketsOf(t, v) <==> x in SocketsOf(first, v)
    {
      assert x in SocketsOf(s, v) <==> x in SocketsOf(first, v);
    }
  }

  function EventOf(k: ReceiptKey, read: bool): Event {
    if read then MessageRead(k) else MessageDelivered(k)
  }

  // One event for each of the receipts, in turn, to the users it concerns.
  method AnnounceEach(manager: ConnectionManager, receipts: seq<ReceiptKey>, read: bool, audience: ReceiptKey -> seq<UserId>,
                      broken: set<Socket>, now: Time, ghost first: SocketTable) returns (log: seq<Broadcast>)
    requires manager.Valid() && SameWorking(manager.connections, first, broken)
    modifies manager.Frame()
    ensures manager.Valid() && manager.backend == old(manager.backend)
    ensures SameWorking(manager.connections, first, broken)
    ensures manager.backend != null ==>
              && manager.connections == old(manager.connections)
              && manager.backend.redis.State() == old(manager.backend.redis.State())
    ensures |log| == |receipts|
    ensures forall k :: 0 <= k < |log| ==>
              Reaches(log[k], EventOf(receipts[k], read), audience(receipts[k]), None, manager.backend == null, first, broken)
  {
    log := [];
    var k := 0;
    while k < |receipts|
      invariant 0 <= k == |log| <= |receipts| && manager.Valid() && manager.backend == old(manager.backend)
      invariant SameWorking(manager.connections, first, broken)
      invariant manager.backend != null ==>
                  && manager.connections == old(manager.connections)
                  && manager.backend.redis.State() == old(manager.backend.redis.State())
      invariant forall j :: 0 <= j < k ==>
                  Reaches(log[j], EventOf(receipts[j], read), audience(receipts[j]), None, manager.backend == null, first, broken)
    {
      var b := Announce(manager, EventOf(receipts[k], read), audience(receipts[k]), None, broken, now, first);
      log := log + [b];
      k := k + 1;
    }
  }

  // ---------- Sends ----------

  // The members but one user, in order.
  function Others(members: seq<UserId>, u: UserId): (r: seq<UserId>)
    ensures forall v :: v in r <==> v in members && v != u
    decreases |members|
  {
    if members == [] then []
    else
      var before, last := Others(members[..|members| - 1], u), members[|members| - 1];
      assert members == members[..|members| - 1] + [last];
      if last == u then before else before + [last]
  }

  lemma {:induction false} OnlineAmongMembers(db: PresenceDb.Db, us: seq<UserId>, now: Time)
    ensures forall u :: u in OnlineAmong(db, us, now) <==> u in us && db.Online(u, now)
  {
    forall u
      ensures u in OnlineAmong(db, us, now) <==> u in us && db.Online(u, now)
    {
      OnlineAmongExact(db, us, now, u);
      assert u in OnlineAmong(db, us, now) <==> u in multiset(OnlineAmong(db, us, now));
      assert u in us <==> u in multiset(us);
    }
  }

  // Publish the message to all members, then ask which of the others are online.
  method BroadcastAndAsk(manager: ConnectionManager, message: MessageId, members: seq<UserId>, sender: UserId,
                         broken: set<Socket>, now: Time) returns (online: seq<UserId>, b: Broadcast)
    requires manager.Valid()
    modifies manager.Frame()
    ensures manager.Valid() && manager.backend == old(manager.backend)
    ensures manager.backend != null ==>
              forall u :: u in online <==> u in members && u != sender && old(manager.backend.redis.State()).Online(u, now)
    ensures manager.backend == null ==>
              forall u :: u in online <==> u in members && u != sender && u in manager.connections
    ensures SameWorking(manager.connections, old(manager.connections), broken)
    ensures Reaches(b, MessageCreated(message), members, None, manager.backend == null, old(manager.connections), broken)
  {
    b := Announce(manager, MessageCreated(message), members, None, broken, now, manager.connections);
    var recipients := Others(members, sender);
    ghost var table := manager.connections;
    online := manager.OnlineUserIds(recipients, now);
    if manager.backend != null {
      OnlineAmongMembers(old(manager.backend.redis.State()), recipients, now);
    } else {
      LocallyOnline(table, recipients, online);
    }
  }

  // The recipients a lone manager finds include everyone it can still reach.
  ghost predicate ReachesWorking(table: SocketTable, broken: set<Socket>, recipients: set<UserId>, online: seq<UserId>) {
    forall u, s :: u in recipients && s in SocketsOf(table, u) && s !in broken ==> u in online
  }

  lemma WorkingAreReached(table: SocketTable, after: SocketTable, broken: set<Socket>, recipients: set<UserId>,
                          online: seq<UserId>)
    requires SameWorking(after, table, broken)
    requires forall u :: u in recipients && u in after ==> u in online
    ensures ReachesWorking(table, broken, recipients, online)
  {
    forall u, s | u in recipients && s in SocketsOf(table, u) && s !in broken
      ensures u in online
    {
      assert s in SocketsOf(after, u);
    }
  }

  // Nothing is marked when nobody is online.
  method MarkOnline(store: ReceiptStore, message: MessageId, online: seq<UserId>, now: Time)
      returns (delivered: seq<ReceiptKey>)
    modifies store
    ensures store.State() == old(store.State()).Deliver(old(store.State()).ToDeliver(message, Elements(online)), now)
    ensures Distinct(delivered) && Elements(delivered) == old(store.State()).ToDeliver(message, Elements(online))
  {
    if online == [] {
      NobodyToDeliver(store.State(), message, now);
      return [];
    }
    delivered := store.MarkDelivered(message, online, now);
  }

  lemma LocallyOnline(table: SocketTable, us: seq<UserId>, online: seq<UserId>)
    requires forall u :: multiset(online)[u] == if u in table then multiset(us)[u] else 0
    ensures forall u :: u in online <==> u in us && u in table
  {
    forall u
      ensures u in online <==> u in us && u in table
    {
      assert u in online <==> u in multiset(online);
      assert u in us <==> u in multiset(us);
    }
  }

  lemma NobodyToDeliver(db: Db, message: MessageId, now: Time)
    ensures db.ToDeliver(message, Elements([])) == {} && db.Deliver({}, now) == db
  {
  }

  // From every state of the chat with the given tables and without the socket, opening it and marking what is
  // pending are two legal steps to the given tables and reports, after which the connection is ready.
  ghost predicate OpensFrom(db: Db, x: Socket, u: UserId, at: Time, pending: seq<ReceiptKey>, after: Db) {
    forall s: Delivery.State :: s.db == db && x !in s.connections ==> OpenRuns(s, x, u, at, pending, after)
  }

  ghost predicate OpenRuns(s: Delivery.State, x: Socket, u: UserId, at: Time, pending: seq<ReceiptKey>, after: Db) {
    var steps := [Delivery.Connect(x, u), Delivery.MarkPending(x, u, at, pending)];
    && Delivery.Legal(s, steps)
    && Delivery.After(s, steps) == s.(db := after, connections := s.connections[x := Delivery.Connection(u, true)],
                                      delivered := s.delivered + pending)
  }

  lemma OpenIsItsSteps(s: Delivery.State, x: Socket, u: UserId, at: Time, pending: seq<ReceiptKey>)
    requires x !in s.connections && Distinct(pending) && Elements(pending) == s.db.PendingOf(u)
    ensures OpenRuns(s, x, u, at, pending, s.db.Deliver(s.db.PendingOf(u), at))
  {
    var connect, mark := Delivery.Connect(x, u), Delivery.MarkPending(x, u, at, pending);
    assert [] + [connect] == [connect] && [connect] + [mark] == [connect, mark];
    Delivery.OneMore(s, [], connect);
    Delivery.OneMore(s, [connect], mark);
    assert s.connections[x := Delivery.Connection(u, false)][x := Delivery.Connection(u, true)]
        == s.connections[x := Delivery.Connection(u, true)];
  }

  // Presence is written first, then every pending receipt of the user is marked, so none is pending afterwards.
  method Enter(store: ReceiptStore, manager: ConnectionManager, u: UserId, s: Socket, now: Time)
      returns (becameOnline: bool, pending: seq<ReceiptKey>)
    requires manager.Valid()
    modifies store, manager.Frame()
    ensures manager.Valid() && manager.backend == old(manager.backend)
    ensures manager.connections == Added(old(manager.connections), u, s)
    ensures becameOnline <==>
              && u !in old(manager.connections)
              && (manager.backend != null ==> forall j :: !PresenceDb.Unexpired(old(manager.backend.redis.State()), u, j, now))
    ensures manager.backend != null ==>
              && (u !in old(manager.connections) && 0 < manager.backend.ttl ==> manager.backend.redis.State().Online(u, now))
              && forall v :: v != u ==>
                   (manager.backend.redis.State().Online(v, now) <==> old(manager.backend.redis.State()).Online(v, now))
    ensures store.State() == old(store.State()).Deliver(old(store.State()).PendingOf(u), now)
    ensures Distinct(pending) && Elements(pending) == old(store.State()).PendingOf(u)
    ensures store.State().PendingOf(u) == {}
    ensures OpensFrom(old(store.State()), s, u, now, pending, store.State())
  {
    ghost var db := store.State();
    becameOnline := manager.Connect(u, s, now);
    pending := store.MarkPendingDelivered(u, now);
    forall chat: Delivery.State | chat.db == db && s !in chat.connections { OpenIsItsSteps(chat, s, u, now, pending); }
    if manager.backend != null && FirstSocket(old(manager.connections), u) && 0 < manager.backend.ttl {
      OnlineOnceConnected(old(manager.backend.redis.State()), manager.backend.instanceId, u, now, manager.backend.ttl);
    }
  }

  // A new presence is announced to the peers, each marked receipt to its conversation's members, and nothing else.
  ghost predicate Greeted(hello: Option<Broadcast>, log: seq<Broadcast>, u: UserId, becameOnline: bool, pending: seq<ReceiptKey>, peers: seq<UserId>,
                          membersOf: ReceiptKey -> seq<UserId>, alone: bool, table: SocketTable, broken: set<Socket>) {
    && (hello.Some? <==> becameOnline)
    && (hello.Some? ==> Reaches(hello.value, PresenceOnline(u), peers, Some(u), alone, table, broken))
    && |log| == |pending|
    && forall k :: 0 <= k < |log| ==>
         Reaches(log[k], MessageDelivered(pending[k]), membersOf(pending[k]), None, alone, table, broken)
  }

  // What the new connection is told, and what the others are.
  method Greet(manager: ConnectionManager, u: UserId, becameOnline: bool, pending: seq<ReceiptKey>, peers: seq<UserId>,
               membersOf: ReceiptKey -> seq<UserId>, broken: set<Socket>, now: Time)
      returns (onlinePeers: seq<UserId>, hello: Option<Broadcast>, log: seq<Broadcast>)
    requires manager.Valid()
    modifies manager.Frame()
    ensures manager.Valid() && manager.backend == old(manager.backend)
    ensures SameWorking(manager.connections, old(manager.connections), broken)
    ensures manager.backend != null ==>
              forall v :: manager.backend.redis.State().Online(v, now) == old(manager.backend.redis.State()).Online(v, now)
    ensures forall v :: v in onlinePeers <==>
              v in peers && if manager.backend == null then v in old(manager.connections)
                            else old(manager.backend.redis.State()).Online(v, now)
    ensures Greeted(hello, log, u, becameOnline, pending, peers, membersOf, manager.backend == null, old(manager.connections), broken)
  {
    ghost var first := manager.connections;
    if manager.backend != null {
      EvictionsKeepOnline(manager.backend.redis.State(), peers, now);
      OnlineAmongMembers(manager.backend.redis.State(), peers, now);
    }
    onlinePeers := manager.OnlineUserIds(peers, now);
    hello, log := AnnounceJoin(manager, u, becameOnline, pending, peers, membersOf, broken, now, first);
  }

  method AnnounceJoin(manager: ConnectionManager, u: UserId, becameOnline: bool, pending: seq<ReceiptKey>,
                      peers: seq<UserId>, membersOf: ReceiptKey -> seq<UserId>, broken: set<Socket>, now: Time,
                      ghost first: SocketTable) returns (hello: Option<Broadcast>, log: seq<Broadcast>)
    requires manager.Valid() && SameWorking(manager.connections, first, broken)
    modifies manager.Frame()
    ensures manager.Valid() && manager.backend == old(manager.backend)
    ensures SameWorking(manager.connections, first, broken)
    ensures manager.backend != null ==> manager.backend.redis.State() == old(manager.backend.redis.State())
    ensures Greeted(hello, log, u, becameOnline, pending, peers, membersOf, manager.backend == null, first, broken)
  {
    hello := None;
    if becameOnline {
      var b := Announce(manager, PresenceOnline(u), peers, Some(u), broken, now, first);
      hello := Some(b);
    }
    log := AnnounceEach(manager, pending, false, membersOf, broken, now, first);
  }

  /**
   * The start of websocket_endpoint: presence is written first, then every pending receipt of the user
   * is marked, so none is pending afterwards; from every state of the chat with these tables, that is a connect and a
   * start-up of the interleaved machine. Then the connection learns which peers are online, a new presence is
   * announced to the peers, and each marked receipt to the members of its conversation.
   */
  method OpenConnection(store: ReceiptStore, manager: ConnectionManager, u: UserId, s: Socket, peers: seq<UserId>,
                        membersOf: ReceiptKey -> seq<UserId>, broken: set<Socket>, now: Time)
      returns (becameOnline: bool, pending: seq<ReceiptKey>, onlinePeers: seq<UserId>, hello: Option<Broadcast>,
               log: seq<Broadcast>)
    requires manager.Valid()
    modifies store, manager.Frame()
    ensures manager.Valid() && manager.backend == old(manager.backend)
    ensures SameWorking(manager.connections, Added(old(manager.connections), u, s), broken)
    ensures becameOnline <==>
              && u !in old(manager.connections)
              && (manager.backend != null ==> forall j :: !PresenceDb.Unexpired(old(manager.backend.redis.State()), u, j, now))
    ensures manager.backend != null && u !in old(manager.connections) && 0 < manager.backend.ttl ==>
              manager.backend.redis.State().Online(u, now)
    ensures store.State() == old(store.State()).Deliver(old(store.State()).PendingOf(u), now)
    ensures Distinct(pending) && Elements(pending) == old(store.State()).PendingOf(u)
    ensures store.State().PendingOf(u) == {}
    ensures OpensFrom(old(store.State()), s, u, now, pending, store.State())
    ensures forall v :: v != u ==>
              (v in onlinePeers <==>
                 v in peers && if manager.backend == null then v in old(manager.connections)
                               else old(manager.backend.redis.State()).Online(v, now))
    ensures Greeted(hello, log, u, becameOnline, pending, peers, membersOf, manager.backend == null,
                    Added(old(manager.connections), u, s), broken)
  {
    becameOnline, pending := Enter(store, manager, u, s, now);
    onlinePeers, hello, log := Greet(manager, u, becameOnline, pending, peers, membersOf, broken, now);
  }

  lemma OnlineOnceConnected(db: PresenceDb.Db, i: InstanceId, u: UserId, now: Time, ttl: Time)
    requires 0 < ttl
    ensures db.Connect(i, u, now, ttl).Online(u, now)
  {
    assert i in Live(db.Connect(i, u, now, ttl).Leases(u), now);
  }

  // ---------- A send as a run of the interleaved machine ----------

  // One answer for each user asked.
  function Answers(message: MessageId, asked: seq<UserId>, online: set<UserId>): seq<Delivery.Step>
    decreases |asked|
  {
    if asked == [] then []
    else
      var u := asked[|asked| - 1];
      Answers(message, asked[..|asked| - 1], online) + [Delivery.Answer(message, u, u in online)]
  }

  function SendSteps(m: MessageRow, asked: seq<UserId>, online: set<UserId>, at: Time, reports: seq<ReceiptKey>)
      : seq<Delivery.Step>
  {
    [Delivery.Commit(m)] + Answers(m.id, asked, online) + [Delivery.MarkOnline(m.id, at, reports)]
  }

  // The send has asked for the users so far and is otherwise as after its commit.
  ghost function Asked(s: Delivery.State, m: MessageRow, sofar: set<UserId>, online: set<UserId>): Delivery.State {
    s.(db := s.db.Create(m), sends := s.sends[m.id := Delivery.Asking(s.db.Recipients(m) - sofar, online * sofar)])
  }

  lemma {:induction false} AnswersRun(s: Delivery.State, m: MessageRow, asked: seq<UserId>, online: set<UserId>)
    requires Receipts.Enabled(s.db, Sent(m)) && Distinct(asked) && Elements(asked) <= s.db.Recipients(m)
    ensures var steps := [Delivery.Commit(m)] + Answers(m.id, asked, online);
            Delivery.Legal(s, steps) && Delivery.After(s, steps) == Asked(s, m, Elements(asked), online)
    decreases |asked|
  {
    var commit := [Delivery.Commit(m)];
    if asked == [] {
      Delivery.OneMore(s, [], Delivery.Commit(m));
      assert [] + commit == commit && commit + Answers(m.id, asked, online) == commit;
      JustCommitted(s, m, online, Elements(asked));
    } else {
      var front, u := asked[..|asked| - 1], asked[|asked| - 1];
      assert asked == front + [u];
      assert Elements(asked) == Elements(front) + {u};
      AnswersRun(s, m, front, online);
      Delivery.OneMore(s, commit + Answers(m.id, front, online), Delivery.Answer(m.id, u, u in online));
      assert commit + Answers(m.id, front, online) + [Delivery.Answer(m.id, u, u in online)]
          == commit + Answers(m.id, asked, online);
      OneAnswer(s, m, Elements(front), online, u);
    }
  }

  lemma JustCommitted(s: Delivery.State, m: MessageRow, online: set<UserId>, nobody: set<UserId>)
    requires nobody == {} && Receipts.Enabled(s.db, Sent(m))
    ensures Delivery.Apply(s, Delivery.Commit(m)) == Asked(s, m, nobody, online)
  {
    assert s.db.Recipients(m) - nobody == s.db.Recipients(m) && online * nobody == {};
  }

  lemma OneAnswer(s: Delivery.State, m: MessageRow, sofar: set<UserId>, online: set<UserId>, u: UserId)
    requires u in s.db.Recipients(m) && u !in sofar
    ensures Delivery.Apply(Asked(s, m, sofar, online), Delivery.Answer(m.id, u, u in online))
         == Asked(s, m, sofar + {u}, online)
  {
    assert s.db.Recipients(m) - sofar - {u} == s.db.Recipients(m) - (sofar + {u});
    assert (if u in online then online * sofar + {u} else online * sofar) == online * (sofar + {u});
  }

  // What the steps of a send that found `online` lead to, from any state of the chat.
  ghost predicate SendRuns(s: Delivery.State, m: MessageRow, asked: seq<UserId>, online: set<UserId>, at: Time,
                           reports: seq<ReceiptKey>, after: Db) {
    var steps := SendSteps(m, asked, online, at, reports);
    && Delivery.Legal(s, steps)
    && var d := Delivery.After(s, steps);
       && d.db == after && d.delivered == s.delivered + reports && d.connections == s.connections
       && d.sends == s.sends[m.id := Delivery.Finished]
  }

  // The same from every state of the chat with the given tables.
  ghost predicate RunsFrom(db: Db, m: MessageRow, asked: seq<UserId>, online: set<UserId>, at: Time,
                           reports: seq<ReceiptKey>, after: Db) {
    forall s: Delivery.State :: s.db == db ==> SendRuns(s, m, asked, online, at, reports, after)
  }

  lemma SendIsItsSteps(db: Db, m: MessageRow, asked: seq<UserId>, online: set<UserId>, at: Time,
                       reports: seq<ReceiptKey>)
    requires Receipts.Enabled(db, Sent(m)) && Distinct(asked) && Elements(asked) == db.Recipients(m)
    requires online <= db.Recipients(m)
    requires Distinct(reports) && Elements(reports) == db.Create(m).ToDeliver(m.id, online)
    ensures RunsFrom(db, m, asked, online, at, reports, db.Create(m).Deliver(db.Create(m).ToDeliver(m.id, online), at))
  {
    forall s: Delivery.State | s.db == db { StepsOfSend(s, m, asked, online, at, reports); }
  }

  lemma StepsOfSend(s: Delivery.State, m: MessageRow, asked: seq<UserId>, online: set<UserId>, at: Time,
                       reports: seq<ReceiptKey>)
    requires Receipts.Enabled(s.db, Sent(m)) && Distinct(asked) && Elements(asked) == s.db.Recipients(m)
    requires online <= s.db.Recipients(m)
    requires Distinct(reports) && Elements(reports) == s.db.Create(m).ToDeliver(m.id, online)
    ensures SendRuns(s, m, asked, online, at, reports, s.db.Create(m).Deliver(s.db.Create(m).ToDeliver(m.id, online), at))
  {
    AnswersRun(s, m, asked, online);
    var front := [Delivery.Commit(m)] + Answers(m.id, asked, online);
    assert s.db.Recipients(m) - Elements(asked) == {} && online * Elements(asked) == online;
    Delivery.OneMore(s, front, Delivery.MarkOnline(m.id, at, reports));
  }

  // The message is announced to all members, and then each delivered receipt is, and nothing else.
  ghost predicate Announced(created: Broadcast, log: seq<Broadcast>, message: MessageId, delivered: seq<ReceiptKey>, members: seq<UserId>,
                            alone: bool, table: SocketTable, broken: set<Socket>) {
    && Reaches(created, MessageCreated(message), members, None, alone, table, broken)
    && |log| == |delivered|
    && forall k :: 0 <= k < |log| ==> Reaches(log[k], MessageDelivered(delivered[k]), members, None, alone, table, broken)
  }

  // The send of a member: commit, broadcast, presence read, marking and the reports of it.
  method SendAsMember(store: ReceiptStore, manager: ConnectionManager, m: MessageRow, members: seq<UserId>,
                      broken: set<Socket>, now: Time)
      returns (online: seq<UserId>, delivered: seq<ReceiptKey>, created: Broadcast, log: seq<Broadcast>)
    requires manager.Valid()
    requires m.conversation in store.members && Distinct(members) && Elements(members) == store.members[m.conversation]
    modifies store, manager.Frame()
    ensures manager.Valid()
    ensures var db := old(store.State()).Create(m);
            && store.State() == db.Deliver(db.ToDeliver(m.id, Elements(online)), now)
            && Distinct(delivered) && Elements(delivered) == db.ToDeliver(m.id, Elements(online))
    ensures Elements(online) <= old(store.State()).Recipients(m)
    ensures old(manager.backend) != null ==>
              forall u :: u in old(store.State()).Recipients(m) ==>
                (u in online <==> old(manager.backend.redis.State()).Online(u, now))
    ensures old(manager.backend) == null ==>
              ReachesWorking(old(manager.connections), broken, old(store.State()).Recipients(m), online)
    ensures Announced(created, log, m.id, delivered, members, old(manager.backend) == null, old(manager.connections), broken)
  {
    ghost var first := manager.connections;
    ghost var recipients := store.State().Recipients(m);
    OthersAreRecipients(store.State(), m, members);
    store.Create(m);
    online, created := BroadcastAndAsk(manager, m.id, members, m.sender, broken, now);
    if manager.backend == null {
      WorkingAreReached(old(manager.connections), manager.connections, broken, recipients, online);
    }
    delivered := MarkOnline(store, m.id, online, now);
    log := AnnounceEach(manager, delivered, false, _ => members, broken, now, first);
  }

  datatype SendError = NoConversation | NotAMember

  /**
   * A message sent over a WebSocket. Someone who is no member is refused. Otherwise the message is committed with
   * its receipts, and the receipts of exactly the recipients then found online are marked and reported: with
   * Redis those with an unexpired lease, alone at least those with a working socket. From every state of the
   * chat with these tables, that is the run of the interleaved machine that asks for each recipient in turn.
   */
  method HandleMessageSend(store: ReceiptStore, manager: ConnectionManager, m: MessageRow, members: seq<UserId>,
                           broken: set<Socket>, now: Time)
      returns (refusal: Option<SendError>, online: seq<UserId>, delivered: seq<ReceiptKey>, created: Option<Broadcast>,
               log: seq<Broadcast>)
    requires manager.Valid() && m.id !in store.messages
    requires m.conversation in store.members ==> Distinct(members) && Elements(members) == store.members[m.conversation]
    modifies store, manager.Frame()
    ensures manager.Valid()
    ensures refusal == Some(NoConversation) <==> m.conversation !in old(store.members)
    ensures refusal == Some(NotAMember) <==>
              m.conversation in old(store.members) && m.sender !in old(store.members)[m.conversation]
    ensures refusal.Some? ==> store.State() == old(store.State()) && manager.connections == old(manager.connections)
    ensures refusal.None? ==>
              RunsFrom(old(store.State()), m, Others(members, m.sender), Elements(online), now, delivered, store.State())
    ensures refusal.None? && old(manager.backend) != null ==>
              forall u :: u in old(store.State()).Recipients(m) ==>
                (u in online <==> old(manager.backend.redis.State()).Online(u, now))
    ensures refusal.None? && old(manager.backend) == null ==>
              ReachesWorking(old(manager.connections), broken, old(store.State()).Recipients(m), online)
    ensures refusal.Some? ==> created == None && log == []
    ensures refusal.None? ==>
              created.Some? && Announced(created.value, log, m.id, delivered, members, old(manager.backend) == null, old(manager.connections), broken)
  {
    if m.conversation !in store.members {
      return Some(NoConversation), [], [], None, [];
    }
    if m.sender !in store.members[m.conversation] {
      return Some(NotAMember), [], [], None, [];
    }
    refusal := None;
    ghost var db := store.State();
    OthersAreRecipients(db, m, members);
    var b;
    online, delivered, b, log := SendAsMember(store, manager, m, members, broken, now);
    created := Some(b);
    SendIsItsSteps(db, m, Others(members, m.sender), Elements(online), now, delivered);
  }

  /**
   * A read request over a WebSocket: the receipts it marks are announced to all members, in order, as read, and
   * nothing else is; a refused request changes and announces nothing.
   */
  method HandleMessageRead(store: ReceiptStore, manager: ConnectionManager, c: ConversationId, message: MessageId,
                           user: UserId, members: seq<UserId>, broken: set<Socket>, now: Time)
      returns (result: ReadResult, log: seq<Broadcast>)
    requires manager.Valid()
    modifies store, manager.Frame()
    ensures manager.Valid() && SameWorking(manager.connections, old(manager.connections), broken)
    ensures result.Failed? <==>
              !(c in old(store.members) && user in old(store.members)[c]
                && message in old(store.messages) && old(store.messages)[message].conversation == c)
    ensures result.Failed? ==> store.State() == old(store.State()) && log == []
    ensures result.Events? ==>
              var op := MarkedRead(c, user, Receipts.KeyOf(old(store.messages)[message]));
              && store.State() == Receipts.Apply(old(store.State()), op, now)
              && Distinct(result.events) && Elements(result.events) == Marked(old(store.State()), op)
              && InMarkOrder(store.State(), result.events)
              && |log| == |result.events|
              && forall k :: 0 <= k < |log| ==>
                   Reaches(log[k], MessageRead(result.events[k]), members, None, old(manager.backend) == null,
                           old(manager.connections), broken)
  {
    result := store.MarkRead(c, message, user, now);
    log := [];
    assert result.Failed? ==> result.error.ConversationNotFound? || result.error.AccessDenied? || result.error.MessageNotFound?;
    if result.Events? {
      log := AnnounceEach(manager, result.events, true, _ => members, broken, now, manager.connections);
    }
  }

  lemma {:induction false} OthersDistinct(members: seq<UserId>, u: UserId)
    requires Distinct(members)
    ensures Distinct(Others(members, u))
    decreases |members|
  {
    if members != [] {
      var front, last := members[..|members| - 1], members[|members| - 1];
      assert members == front + [last];
      OthersDistinct(front, u);
      assert last !in front;
    }
  }

  lemma OthersAreRecipients(db: Db, m: MessageRow, members: seq<UserId>)
    requires m.conversation in db.members && Distinct(members) && Elements(members) == db.members[m.conversation]
    ensures forall u :: u in db.Recipients(m) <==> u in members && u != m.sender
    ensures Distinct(Others(members, m.sender)) && Elements(Others(members, m.sender)) == db.Recipients(m)
  {
    OthersDistinct(members, m.sender);
    assert forall u :: u in members <==> u in Elements(members);
  }
}
