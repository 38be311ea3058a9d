/** The connection manager of one process, with or without a realtime backend, and event fan-out. */
module ConnectionManagers {
  import opened Basics
  import opened SortedSets
  import opened PresenceDb
  import opened Connections
  import opened PresenceBackend
  import opened PresenceCluster
  import opened PresenceRefinement

  // ---------- Fan-out on values ----------

  // An event reaching a socket on behalf of a user.
  datatype Sending = Sending(user: UserId, socket: Socket)

  function ToUser(t: SocketTable, u: UserId, broken: set<Socket>): set<Sending> {
    set s | s in SocketsOf(t, u) && s !in broken :: Sending(u, s)
  }

  // One instance delivering an envelope; a broken socket raises and receives nothing.
  function Deliveries(t: SocketTable, us: seq<UserId>, broken: set<Socket>): multiset<Sending>
    decreases |us|
  {
    if us == [] then multiset{}
    else Deliveries(t, us[..|us| - 1], broken) + multiset(ToUser(t, us[|us| - 1], broken))
  }

  // The recipients of one event: first mentions, without the excluded user.
  function Targets(us: seq<UserId>, exclude: Option<UserId>): seq<UserId>
    decreases |us|
  {
    if us == [] then []
    else
      var before, u := Targets(us[..|us| - 1], exclude), us[|us| - 1];
      if exclude == Some(u) || u in before then before else before + [u]
  }

  lemma {:induction false} TargetsExact(us: seq<UserId>, exclude: Option<UserId>)
    ensures Distinct(Targets(us, exclude))
    ensures forall u :: u in Targets(us, exclude) <==> u in us && exclude != Some(u)
    decreases |us|
  {
    if us != [] {
      TargetsExact(us[..|us| - 1], exclude);
      assert us == us[..|us| - 1] + [us[|us| - 1]];
    }
  }

  /** Targets come in the order of their first mention. */
  lemma {:induction false} TargetsInOrder(us: seq<UserId>, exclude: Option<UserId>, n: nat)
    requires n <= |us|
    ensures Targets(us[..n], exclude) <= Targets(us, exclude)
    decreases |us|
  {
    if n == |us| {
      assert us[..n] == us;
    } else {
      var front := us[..|us| - 1];
      assert front[..n] == us[..n];
      TargetsInOrder(front, exclude, n);
    }
  }

  lemma {:induction false} DeliveriesCount(t: SocketTable, us: seq<UserId>, broken: set<Socket>, u: UserId, s: Socket)
    ensures Deliveries(t, us, broken)[Sending(u, s)]
         == if s in SocketsOf(t, u) && s !in broken then multiset(us)[u] else 0
    decreases |us|
  {
    if us != [] {
      var before, last := us[..|us| - 1], us[|us| - 1];
      assert us == before + [last];
      DeliveriesCount(t, before, broken, u, s);
    }
  }

  // Every subscribed instance delivers the same envelope.
  function AllDeliveries(hosts: map<InstanceId, Host>, order: seq<InstanceId>, us: seq<UserId>, broken: set<Socket>)
      : multiset<Sending>
    requires forall i :: i in order ==> i in hosts
    decreases |order|
  {
    if order == [] then multiset{}
    else AllDeliveries(hosts, order[..|order| - 1], us, broken)
         + Deliveries(hosts[order[|order| - 1]].sockets, us, broken)
  }

  // Only the process that holds the socket contributes to its count.
  lemma {:induction false} HomeDelivers(hosts: map<InstanceId, Host>, m: SocketTable, order: seq<InstanceId>,
                                        us: seq<UserId>, broken: set<Socket>, u: UserId, s: Socket)
    requires Merged(hosts, m) && Distinct(order) && forall i :: i in order ==> i in hosts
    ensures AllDeliveries(hosts, order, us, broken)[Sending(u, s)]
         == if s in SocketsOf(m, u) && s.host in order && s !in broken then multiset(us)[u] else 0
    decreases |order|
  {
    if order != [] {
      var before, last := order[..|order| - 1], order[|order| - 1];
      assert order == before + [last];
      HomeDelivers(hosts, m, before, us, broken, u, s);
      DeliveriesCount(hosts[last].sockets, us, broken, u, s);
      assert s in SocketsOf(hosts[last].sockets, u) ==> s.host == last;
    }
  }

  /**
   * Fan-out: one published event reaches every working socket of every named, non-excluded user
   * exactly once and nobody else, however often users are named; one manager with all the sockets
   * would deliver the same.
   */
  lemma {:induction false} FanOutExactlyOnce(hosts: map<InstanceId, Host>, m: SocketTable, order: seq<InstanceId>,
                                             us: seq<UserId>, exclude: Option<UserId>, broken: set<Socket>)
    requires Merged(hosts, m) && Distinct(order) && Elements(order) == hosts.Keys
    requires forall i :: i in order ==> i in hosts
    ensures AllDeliveries(hosts, order, Targets(us, exclude), broken) == Deliveries(m, Targets(us, exclude), broken)
    ensures forall u, s :: AllDeliveries(hosts, order, Targets(us, exclude), broken)[Sending(u, s)]
                        == if u in us && exclude != Some(u) && s in SocketsOf(m, u) && s !in broken then 1 else 0
  {
    var targets := Targets(us, exclude);
    TargetsExact(us, exclude);
    forall u, s
      ensures AllDeliveries(hosts, order, targets, broken)[Sending(u, s)] == Deliveries(m, targets, broken)[Sending(u, s)]
           == if u in us && exclude != Some(u) && s in SocketsOf(m, u) && s !in broken then 1 else 0
    {
      HomeDelivers(hosts, m, order, targets, broken, u, s);
      DeliveriesCount(m, targets, broken, u, s);
      DistinctCount(targets, u);
      if s in SocketsOf(m, u) {
        assert s.host in hosts.Keys;
      }
    }
    forall d: Sending
      ensures AllDeliveries(hosts, order, targets, broken)[d] == Deliveries(m, targets, broken)[d]
    {
      assert d == Sending(d.user, d.socket);
    }
  }

  // ---------- The manager ----------

  // The table once the broken sockets of one user are gone.
  function WithoutBroken(t: SocketTable, u: UserId, broken: set<Socket>): SocketTable {
    if SocketsOf(t, u) - broken == {} then t - {u} else t[u := t[u] - broken]
  }

  // The table after delivering to the first n users in turn.
  function Cleaned(t: SocketTable, us: seq<UserId>, n: nat, broken: set<Socket>): SocketTable
    requires n <= |us|
  {
    if n == 0 then t else WithoutBroken(Cleaned(t, us, n - 1, broken), us[n - 1], broken)
  }

  function Released(db: Db, i: InstanceId, u: UserId, before: SocketTable, after: SocketTable, now: Time): Db {
    if u in before && u !in after then db.Disconnect(i, u, now) else db
  }

  // A user's lease is released at the first mention, if every socket of the user is broken.
  function AllReleased(db: Db, i: InstanceId, t: SocketTable, us: seq<UserId>, n: nat, broken: set<Socket>, now: Time): Db
    requires n <= |us|
  {
    if n == 0 then db
    else
      var u := us[n - 1];
      var before := AllReleased(db, i, t, us, n - 1, broken, now);
      if u !in us[..n - 1] && u in t && t[u] <= broken then before.Disconnect(i, u, now) else before
  }

  ghost predicate SameWorking(t: SocketTable, before: SocketTable, broken: set<Socket>) {
    forall v, s {:trigger s in SocketsOf(t, v)} ::
      s !in broken ==> (s in SocketsOf(t, v) <==> s in SocketsOf(before, v))
  }

  lemma WorkingSame(t: SocketTable, before: SocketTable, u: UserId, broken: set<Socket>)
    requires SameWorking(t, before, broken)
    ensures ToUser(t, u, broken) == ToUser(before, u, broken)
    ensures SameWorking(WithoutBroken(t, u, broken), before, broken)
  {
    forall s | s !in broken
      ensures s in SocketsOf(t, u) <==> s in SocketsOf(before, u)
    {
    }
    var d := WithoutBroken(t, u, broken);
    forall v, s | s !in broken
      ensures s in SocketsOf(d, v) <==> s in SocketsOf(before, v)
    {
      assert s in SocketsOf(d, v) <==> s in SocketsOf(t, v);
    }
  }

  lemma {:induction false} CleanedWorks(t: SocketTable, us: seq<UserId>, n: nat, broken: set<Socket>)
    requires n <= |us|
    ensures SameWorking(Cleaned(t, us, n, broken), t, broken)
  {
    if n > 0 {
      CleanedWorks(t, us, n - 1, broken);
      WorkingSame(Cleaned(t, us, n - 1, broken), t, us[n - 1], broken);
    }
  }

  lemma OneMoreServed(t: SocketTable, us: seq<UserId>, k: nat, broken: set<Socket>)
    requires k < |us|
    ensures Deliveries(t, us[..k + 1], broken)
         == Deliveries(t, us[..k], broken) + multiset(ToUser(Cleaned(t, us, k, broken), us[k], broken))
  {
    CleanedWorks(t, us, k, broken);
    WorkingSame(Cleaned(t, us, k, broken), t, us[k], broken);
    assert us[..k + 1][..k] == us[..k];
  }

  lemma DropOneMore(t: SocketTable, u: UserId, gone: set<Socket>, s: Socket)
    requires NoEmptyEntry(t)
    ensures Removed(WithoutBroken(t, u, gone), u, s) == WithoutBroken(t, u, gone + {s})
  {
    var d := WithoutBroken(t, u, gone);
    assert SocketsOf(d, u) - {s} == SocketsOf(t, u) - (gone + {s});
  }

  // The first mention of each user that is not excluded.
  method FirstMentions(us: seq<UserId>, exclude: Option<UserId>) returns (targets: seq<UserId>)
    ensures targets == Targets(us, exclude)
  {
    targets := [];
    var k := 0;
    while k < |us|
      invariant 0 <= k <= |us| && targets == Targets(us[..k], exclude)
    {
      assert us[..k + 1][..k] == us[..k];
      if exclude != Some(us[k]) && us[k] !in targets {
        targets := targets + [us[k]];
      }
      k := k + 1;
    }
    assert us[..|us|] == us;
  }

  // What is left of a user's sockets without the broken ones.
  lemma BrokenGone(t: SocketTable, u: UserId, broken: set<Socket>)
    requires NoEmptyEntry(t)
    ensures NoEmptyEntry(WithoutBroken(t, u, broken))
    ensures forall v, x :: (v in WithoutBroken(t, u, broken) && x in WithoutBroken(t, u, broken)[v]) <==>
              v in t && x in t[v] && !(v == u && x in broken)
    ensures u in t && u !in WithoutBroken(t, u, broken) <==> u in t && forall x :: x in t[u] ==> x in broken
  {
    if u in t {
      var rest := t[u] - broken;
      forall x | x in t[u] && x !in broken
        ensures rest != {}
      {
        assert x in rest;
      }
      if rest != {} {
        var x :| x in rest;
      }
    }
  }

  lemma EmptyDifference(a: set<Socket>, b: set<Socket>)
    ensures a - b == {} <==> a <= b
  {
    if a - b == {} {
      forall x | x in a
        ensures x in b
      {
        assert x !in a - b;
      }
    }
  }

  // What is left of a user's entry once every user in turn has lost the broken sockets.
  lemma {:induction false} CleanedExact(t: SocketTable, us: seq<UserId>, n: nat, broken: set<Socket>, v: UserId)
    requires NoEmptyEntry(t) && n <= |us|
    ensures v in Cleaned(t, us, n, broken) <==> v in t && !(v in us[..n] && t[v] <= broken)
    ensures v in Cleaned(t, us, n, broken) ==>
              Cleaned(t, us, n, broken)[v] == if v in us[..n] then t[v] - broken else t[v]
  {
    if n > 0 {
      CleanedExact(t, us, n - 1, broken, v);
      assert us[..n] == us[..n - 1] + [us[n - 1]];
      if v in t {
        EmptyDifference(t[v], broken);
        assert (t[v] - broken) - broken == t[v] - broken;
      }
    }
  }

  // What is left of a user's sockets without one of them.
  lemma LastOne(t: SocketTable, u: UserId, s: Socket)
    requires NoEmptyEntry(t)
    ensures LastSocket(t, u, s) <==> u in t && forall x :: x in t[u] ==> x == s
    ensures forall v, x :: (v in Removed(t, u, s) && x in Removed(t, u, s)[v]) <==> v in t && x in t[v] && !(v == u && x == s)
  {
    if u in t {
      var rest := SocketsOf(t, u) - {s};
      assert forall x :: x in rest <==> x in t[u] && x != s;
      if rest != {} {
        var x :| x in rest;
      }
    }
  }

  class ConnectionManager {
    var connections: SocketTable
    var backend: RealtimeBackend?

    ghost predicate Valid()
      reads this
    {
      NoEmptyEntry(connections)
    }

    // What an operation may change: the table and, when attached, the shared Redis keys.
    function Frame(): set<object>
      reads this
    {
      if backend == null then {this} else {this, backend.redis}
    }

    constructor ()
      ensures Valid() && connections == map[] && backend == null
    {
      connections, backend := map[], null;
    }

    method AttachBackend(b: RealtimeBackend)
      modifies this`backend
      ensures backend == b
    {
      backend := b;
    }

    method Connect(u: UserId, s: Socket, now: Time) returns (becameOnline: bool)
      requires Valid()
      modifies Frame()
      ensures Valid() && backend == old(backend)
      ensures connections == Added(old(connections), u, s)
      ensures backend == null ==> becameOnline == FirstSocket(old(connections), u)
      ensures backend != null ==>
                && becameOnline == (FirstSocket(old(connections), u) && old(backend.redis.State()).ConnectReturns(u, now))
                && backend.redis.State() == if FirstSocket(old(connections), u)
                     then old(backend.redis.State()).Connect(backend.instanceId, u, now, backend.ttl)
                     else old(backend.redis.State())
      ensures becameOnline <==>
                && u !in old(connections)
                && (backend != null ==> forall j :: !Unexpired(old(backend.redis.State()), u, j, now))
      ensures forall v, x :: (v in connections && x in connections[v]) <==>
                (v == u && x == s) || (v in old(connections) && x in old(connections)[v])
    {
      var wasLocallyOffline := u !in connections;
      connections := connections[u := SocketsOf(connections, u) + {s}];
      if wasLocallyOffline && backend != null {
        becameOnline := backend.UserConnected(u, now);
      } else {
        becameOnline := wasLocallyOffline;
      }
    }

    method Disconnect(u: UserId, s: Socket, now: Time) returns (becameOffline: bool)
      requires Valid()
      modifies Frame()
      ensures Valid() && backend == old(backend)
      ensures connections == Removed(old(connections), u, s)
      ensures backend == null ==> becameOffline == LastSocket(old(connections), u, s)
      ensures backend != null ==>
                && becameOffline == (LastSocket(old(connections), u, s)
                                     && old(backend.redis.State()).DisconnectReturns(backend.instanceId, u, now))
                && backend.redis.State() == if LastSocket(old(connections), u, s)
                     then old(backend.redis.State()).Disconnect(backend.instanceId, u, now)
                     else old(backend.redis.State())
      ensures becameOffline <==>
                && u in old(connections) && (forall x :: x in old(connections)[u] ==> x == s)
                && (backend != null ==>
                      forall j :: j != backend.instanceId ==> !Unexpired(old(backend.redis.State()), u, j, now))
      ensures forall v, x :: (v in connections && x in connections[v]) <==>
                v in old(connections) && x in old(connections)[v] && !(v == u && x == s)
    {
      LastOne(connections, u, s);
      if u !in connections {
        return false;
      }
      var rest := connections[u] - {s};
      connections := connections[u := rest];
      if rest != {} {
        return false;
      }
      connections := connections - {u};
      if backend != null {
        becameOffline := backend.UserDisconnected(u, now);
      } else {
        becameOffline := true;
      }
    }

    method OnlineUserIds(us: seq<UserId>, now: Time) returns (online: seq<UserId>)
      requires Valid()
      modifies Frame()
      ensures backend == old(backend) && connections == old(connections)
      ensures backend != null ==>
                && online == OnlineAmong(old(backend.redis.State()), us, now)
                && backend.redis.State() == Evictions(old(backend.redis.State()), us, now)
      ensures forall u :: u in online <==>
                u in us && if backend == null then u in connections else exists j :: Unexpired(old(backend.redis.State()), u, j, now)
      ensures backend == null ==>
                forall u :: multiset(online)[u] == if u in connections then multiset(us)[u] else 0
    {
      if backend != null {
        online := backend.OnlineUserIds(us, now);
        return;
      }
      online := [];
      var k := 0;
      while k < |us|
        invariant 0 <= k <= |us| && connections == old(connections) && backend == old(backend)
        invariant forall u :: multiset(online)[u] == if u in connections then multiset(us[..k])[u] else 0
      {
        assert us[..k + 1] == us[..k] + [us[k]];
        if us[k] in connections {
          online := online + [us[k]];
        }
        k := k + 1;
      }
      assert us[..|us|] == us;
      forall u ensures u in online <==> u in us && u in connections {
        assert u in online <==> u in multiset(online);
        assert u in us <==> u in multiset(us);
      }
    }

    // The sending loop: who received the event, and whose socket raised.
    method SendEach(u: UserId, broken: set<Socket>) returns (sent: multiset<Sending>, stale: seq<Socket>)
      ensures sent == multiset(ToUser(connections, u, broken))
      ensures Elements(stale) == SocketsOf(connections, u) * broken
    {
      var todo := SocketsOf(connections, u);
      var done := {};
      stale := [];
      while todo != {}
        invariant todo <= SocketsOf(connections, u)
        invariant done == set s | s in SocketsOf(connections, u) && s !in todo && s !in broken :: Sending(u, s)
        invariant forall s :: s in stale <==> s in SocketsOf(connections, u) && s !in todo && s in broken
        decreases |todo|
      {
        var s :| s in todo;
        todo := todo - {s};
        if s in broken {
          stale := stale + [s];
        } else {
          done := done + {Sending(u, s)};
        }
      }
      assert done == ToUser(connections, u, broken);
      sent := multiset(done);
    }

    method DropStale(u: UserId, stale: seq<Socket>, now: Time)
      requires Valid()
      modifies Frame()
      ensures Valid() && backend == old(backend)
      ensures connections == WithoutBroken(old(connections), u, Elements(stale))
      ensures backend != null ==>
                backend.redis.State() == Released(old(backend.redis.State()), backend.instanceId, u,
                                                  old(connections), connections, now)
    {
      ghost var before := connections;
      assert SocketsOf(connections, u) - Elements(stale[..0]) == SocketsOf(connections, u);
      var k := 0;
      while k < |stale|
        invariant 0 <= k <= |stale| && Valid() && backend == old(backend)
        invariant connections == WithoutBroken(before, u, Elements(stale[..k]))
        invariant backend != null ==>
                    backend.redis.State() == Released(old(backend.redis.State()), backend.instanceId, u,
                                                      before, connections, now)
      {
        DropOneMore(before, u, Elements(stale[..k]), stale[k]);
        assert Elements(stale[..k + 1]) == Elements(stale[..k]) + {stale[k]};
        var _ := Disconnect(u, stale[k], now);
        k := k + 1;
      }
      assert stale[..|stale|] == stale;
    }

    method DeliverToUserLocal(u: UserId, broken: set<Socket>, now: Time) returns (sent: multiset<Sending>)
      requires Valid()
      modifies Frame()
      ensures Valid() && backend == old(backend)
      ensures sent == multiset(ToUser(old(connections), u, broken))
      ensures connections == WithoutBroken(old(connections), u, broken)
      ensures backend != null ==>
                backend.redis.State() == Released(old(backend.redis.State()), backend.instanceId, u,
                                                  old(connections), connections, now)
      ensures forall v, x :: (v in connections && x in connections[v]) <==>
                v in old(connections) && x in old(connections)[v] && !(v == u && x in broken)
      ensures backend != null ==>
                backend.redis.State() ==
                  if u in old(connections) && forall x :: x in old(connections)[u] ==> x in broken
                  then old(backend.redis.State()).Disconnect(backend.instanceId, u, now) else old(backend.redis.State())
    {
      BrokenGone(connections, u, broken);
      var stale;
      sent, stale := SendEach(u, broken);
      assert SocketsOf(connections, u) - Elements(stale) == SocketsOf(connections, u) - broken;
      DropStale(u, stale, now);
    }

    method DeliverToUsersLocal(us: seq<UserId>, broken: set<Socket>, now: Time) returns (sent: multiset<Sending>)
      requires Valid()
      modifies Frame()
      ensures Valid() && backend == old(backend)
      ensures sent == Deliveries(old(connections), us, broken)
      ensures connections == Cleaned(old(connections), us, |us|, broken)
      ensures SameWorking(connections, old(connections), broken)
      ensures forall v :: v in connections <==> v in old(connections) && !(v in us && old(connections)[v] <= broken)
      ensures forall v :: v in connections ==>
                connections[v] == if v in us then old(connections)[v] - broken else old(connections)[v]
      ensures backend != null ==>
                backend.redis.State() == AllReleased(old(backend.redis.State()), backend.instanceId,
                                                     old(connections), us, |us|, broken, now)
    {
      sent := multiset{};
      var k := 0;
      while k < |us|
        invariant 0 <= k <= |us| && Valid() && backend == old(backend)
        invariant sent == Deliveries(old(connections), us[..k], broken)
        invariant connections == Cleaned(old(connections), us, k, broken)
        invariant backend != null ==>
                    backend.redis.State() == AllReleased(old(backend.redis.State()), backend.instanceId,
                                                         old(connections), us, k, broken, now)
      {
        OneMoreServed(old(connections), us, k, broken);
        CleanedExact(old(connections), us, k, broken, us[k]);
        var more := DeliverToUserLocal(us[k], broken, now);
        sent := sent + more;
        k := k + 1;
      }
      assert us[..|us|] == us;
      CleanedWorks(old(connections), us, |us|, broken);
      forall v
        ensures v in connections <==> v in old(connections) && !(v in us && old(connections)[v] <= broken)
        ensures v in connections ==>
                  connections[v] == if v in us then old(connections)[v] - broken else old(connections)[v]
      {
        CleanedExact(old(connections), us, |us|, broken, v);
      }
    }

    // With a backend the event is published for every instance; without, it is delivered here.
    method SendToUsers(us: seq<UserId>, exclude: Option<UserId>, broken: set<Socket>, now: Time)
        returns (published: Option<seq<UserId>>, sent: multiset<Sending>)
      requires Valid()
      modifies Frame()
      ensures Valid() && backend == old(backend)
      ensures published == if backend != null && Targets(us, exclude) != [] then Some(Targets(us, exclude)) else None
      ensures sent == if backend == null then Deliveries(old(connections), Targets(us, exclude), broken) else multiset{}
      ensures backend == null ==> connections == Cleaned(old(connections), Targets(us, exclude), |Targets(us, exclude)|, broken)
      ensures SameWorking(connections, old(connections), broken)
      ensures backend != null ==> connections == old(connections) && backend.redis.State() == old(backend.redis.State())
    {
      var targets := FirstMentions(us, exclude);
      published, sent := None, multiset{};
      if targets == [] {
        return;
      }
      if backend != null {
        published := Some(targets);
        return;
      }
      sent := DeliverToUsersLocal(targets, broken, now);
    }
  }
}
