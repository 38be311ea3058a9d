/**
 * The cluster refines one connection manager that holds every socket, as long as no heartbeat
 * refreshes a user who disconnected after the heartbeat listed them and no instance dies with sockets.
 */
module PresenceRefinement {
  import opened Basics
  import opened SortedSets
  import opened PresenceDb
  import opened Connections
  import opened PresenceCluster

  // ---------- The single manager ----------

  function Single(m: SocketTable, step: Step): SocketTable {
    match step
    case Connect(i, u, s) => Added(m, u, s)
    case Disconnect(i, u, s) => Removed(m, u, s)
    case _ => m
  }

  // Connect and Disconnect return a flag, Query tells whether the user is online; nothing else answers.
  function SingleAnswer(m: SocketTable, step: Step): seq<bool> {
    match step
    case Connect(i, u, s) => [FirstSocket(m, u)]
    case Disconnect(i, u, s) => [LastSocket(m, u, s)]
    case Query(u) => [u in m]
    case _ => []
  }

  function SingleAnswers(m: SocketTable, steps: seq<Step>): seq<bool>
    decreases |steps|
  {
    if steps == [] then [] else SingleAnswer(m, steps[0]) + SingleAnswers(Single(m, steps[0]), steps[1..])
  }

  // ---------- The cluster ----------

  ghost function Answer(t: Timing, c: Cluster, step: Step): seq<bool>
    requires Enabled(t, c, step)
  {
    match step
    case Connect(i, u, s) => [u !in c.hosts[i].sockets && c.db.ConnectReturns(u, c.now)]
    case Disconnect(i, u, s) => [LastSocket(c.hosts[i].sockets, u, s) && c.db.DisconnectReturns(i, u, c.now)]
    case Query(u) => [c.db.Online(u, c.now)]
    case _ => []
  }

  ghost function Answers(t: Timing, c: Cluster, steps: seq<Step>): seq<bool>
    requires Legal(t, c, steps)
    decreases |steps|
  {
    if steps == [] then [] else Answer(t, c, steps[0]) + Answers(t, Apply(t, c, steps[0]), steps[1..])
  }

  // The refresh of a heartbeat round finds its user still connected, and an instance stops without sockets.
  predicate Faithful(c: Cluster, step: Step) {
    && (step.Refresh? && step.i in c.hosts ==> step.u in c.hosts[step.i].sockets)
    && (step.Crash? && step.i in c.hosts ==> c.hosts[step.i].sockets == map[])
  }

  ghost predicate AllFaithful(t: Timing, c: Cluster, steps: seq<Step>)
    requires Legal(t, c, steps)
    decreases |steps|
  {
    steps != [] ==> Faithful(c, steps[0]) && AllFaithful(t, Apply(t, c, steps[0]), steps[1..])
  }

  // ---------- The refinement relation ----------

  // The single manager holds exactly the sockets of all hosts, each in its own process.
  ghost predicate Merged(hosts: map<InstanceId, Host>, m: SocketTable) {
    && NoEmptyEntry(m)
    && (forall i :: i in hosts ==> NoEmptyEntry(hosts[i].sockets))
    && (forall u, s {:trigger s in SocketsOf(m, u)} ::
          s in SocketsOf(m, u) <==> s.host in hosts && s in SocketsOf(hosts[s.host].sockets, u))
    && forall i, u, s {:trigger s in SocketsOf(hosts[i].sockets, u)} ::
         i in hosts && s in SocketsOf(hosts[i].sockets, u) ==> s.host == i
  }

  // A user's leases are held by instances with a local socket of that user (the converse is HostOnTime's).
  ghost predicate Mirrored(hosts: map<InstanceId, Host>, db: Db) {
    forall u, i {:trigger i in db.Leases(u)} :: i in db.Leases(u) ==> i in hosts && u in hosts[i].sockets
  }

  ghost predicate Indexed(t: Timing, db: Db, now: Time) {
    && db.users.Keys == db.leases.Keys
    && (forall u :: u in db.leases ==> db.leases[u] != map[] && db.users[u] == Top(db.leases[u]))
    && forall u, i {:trigger i in db.Leases(u)} :: i in db.Leases(u) ==> db.Leases(u)[i] <= now + t.ttl
  }

  ghost predicate Coupled(t: Timing, c: Cluster, m: SocketTable) {
    OnTime(t, c) && Merged(c.hosts, m) && Mirrored(c.hosts, c.db) && Indexed(t, c.db, c.now)
  }

  lemma TopIs<K>(z: Zset<K>, k: K)
    requires k in z && forall l :: l in z ==> z[l] <= z[k]
    ensures Top(z) == z[k]
  {
  }

  lemma MemberHasSocket(hosts: map<InstanceId, Host>, m: SocketTable, u: UserId)
    requires Merged(hosts, m)
    ensures u in m <==> exists i :: i in hosts && u in hosts[i].sockets
  {
    if u in m {
      var s :| s in m[u];
      assert s in SocketsOf(m, u);
      assert u in hosts[s.host].sockets;
    }
    if i :| i in hosts && u in hosts[i].sockets {
      var s :| s in hosts[i].sockets[u];
      assert s in SocketsOf(hosts[i].sockets, u);
      assert s in SocketsOf(m, u);
    }
  }

  lemma AddedSockets(m: SocketTable, u: UserId, s: Socket)
    ensures forall v :: SocketsOf(Added(m, u, s), v) == if v == u then SocketsOf(m, u) + {s} else SocketsOf(m, v)
    ensures NoEmptyEntry(m) ==> NoEmptyEntry(Added(m, u, s))
  {
  }

  lemma RemovedSockets(m: SocketTable, u: UserId, s: Socket)
    ensures forall v :: SocketsOf(Removed(m, u, s), v) == if v == u then SocketsOf(m, u) - {s} else SocketsOf(m, v)
    ensures NoEmptyEntry(m) ==> NoEmptyEntry(Removed(m, u, s))
  {
  }

  lemma MergedAdd(hosts: map<InstanceId, Host>, m: SocketTable, i: InstanceId, u: UserId, s: Socket, h: Host)
    requires Merged(hosts, m) && i in hosts && s.host == i && h.sockets == Added(hosts[i].sockets, u, s)
    ensures Merged(hosts[i := h], Added(m, u, s))
  {
    AddedSockets(m, u, s);
    AddedSockets(hosts[i].sockets, u, s);
  }

  lemma MergedRemove(hosts: map<InstanceId, Host>, m: SocketTable, i: InstanceId, u: UserId, s: Socket, h: Host)
    requires Merged(hosts, m) && i in hosts && s.host == i && h.sockets == Removed(hosts[i].sockets, u, s)
    ensures Merged(hosts[i := h], Removed(m, u, s))
  {
    RemovedSockets(m, u, s);
    RemovedSockets(hosts[i].sockets, u, s);
  }

  lemma MirroredFresh(t: Timing, c: Cluster, u: UserId, i: InstanceId)
    requires t.Valid() && t.Sufficient() && OnTime(t, c) && Mirrored(c.hosts, c.db) && i in c.db.Leases(u)
    ensures c.now < c.db.Leases(u)[i]
  {
    OnTimeIsFresh(t, c.db, c.now, i, c.hosts[i]);
  }

  lemma MirroredOnline(t: Timing, c: Cluster, m: SocketTable, u: UserId)
    requires t.Valid() && t.Sufficient() && OnTime(t, c) && Mirrored(c.hosts, c.db) && Merged(c.hosts, m)
    ensures c.db.Leases(u) != map[] <==> u in m
  {
    MemberHasSocket(c.hosts, m, u);
    if c.db.Leases(u) != map[] {
      var i := TopMember(c.db.Leases(u));
      assert i in c.hosts && u in c.hosts[i].sockets;
    }
    if u in m {
      var i :| i in c.hosts && u in c.hosts[i].sockets;
      OnTimeIsFresh(t, c.db, c.now, i, c.hosts[i]);
    }
  }

  // In a coupled state evicting changes nothing.
  lemma NothingLapsed(t: Timing, c: Cluster, m: SocketTable, u: UserId, at: Time)
    requires t.Valid() && t.Sufficient() && Coupled(t, c, m) && at <= c.now
    ensures Live(c.db.Leases(u), at) == c.db.Leases(u)
    ensures c.db.Leases(u) != map[] <==> u in m
    ensures u in c.db.users ==> at < c.db.users[u]
  {
    forall i | i in c.db.Leases(u)
      ensures c.now < c.db.Leases(u)[i]
    {
      MirroredFresh(t, c, u, i);
    }
    MirroredOnline(t, c, m, u);
    if u in c.db.users {
      var i := TopMember(c.db.leases[u]);
    }
  }

  // The connect script run by instance i, now with a local socket of u, with nothing to evict.
  lemma LeaseCoupled(t: Timing, c: Cluster, i: InstanceId, u: UserId, hosts: map<InstanceId, Host>)
    requires 0 < t.ttl && Mirrored(c.hosts, c.db) && Indexed(t, c.db, c.now)
    requires Live(c.db.Leases(u), c.now) == c.db.Leases(u)
    requires i in hosts && u in hosts[i].sockets
    requires forall j, v :: j in c.hosts && v in c.hosts[j].sockets ==> j in hosts && v in hosts[j].sockets
    ensures Mirrored(hosts, c.db.Connect(i, u, c.now, t.ttl)) && Indexed(t, c.db.Connect(i, u, c.now, t.ttl), c.now)
  {
    var after := c.db.Connect(i, u, c.now, t.ttl);
    forall v, j | j in after.Leases(v)
      ensures j in hosts && v in hosts[j].sockets && after.Leases(v)[j] <= c.now + t.ttl
    {
      if v != u || j != i {
        assert j in c.db.Leases(v);
      }
    }
    TopIs(after.leases[u], i);
  }

  lemma ReleasedLeases(db: Db, i: InstanceId, u: UserId, now: Time)
    requires Live(db.Leases(u), now) == db.Leases(u)
    ensures forall v :: db.Disconnect(i, u, now).Leases(v) == if v == u then db.Leases(u) - {i} else db.Leases(v)
  {
    assert db.LeasesWithout(i, u, now) == db.Leases(u) - {i};
  }

  lemma ReleaseIndexed(t: Timing, db: Db, i: InstanceId, u: UserId, now: Time)
    requires Indexed(t, db, now) && Live(db.Leases(u), now) == db.Leases(u)
    ensures Indexed(t, db.Disconnect(i, u, now), now)
  {
    ReleasedLeases(db, i, u, now);
    var after := db.Disconnect(i, u, now);
    forall v, j | j in after.Leases(v)
      ensures after.Leases(v)[j] <= now + t.ttl
    {
      assert j in db.Leases(v);
    }
  }

  // The disconnect script run by instance i, which lost its last socket of u.
  lemma ReleaseCoupled(t: Timing, c: Cluster, i: InstanceId, u: UserId, hosts: map<InstanceId, Host>)
    requires Mirrored(c.hosts, c.db) && Indexed(t, c.db, c.now)
    requires Live(c.db.Leases(u), c.now) == c.db.Leases(u)
    requires forall j, v :: j in c.hosts && v in c.hosts[j].sockets && (j != i || v != u) ==> j in hosts && v in hosts[j].sockets
    ensures Mirrored(hosts, c.db.Disconnect(i, u, c.now)) && Indexed(t, c.db.Disconnect(i, u, c.now), c.now)
  {
    ReleaseIndexed(t, c.db, i, u, c.now);
    ReleasedLeases(c.db, i, u, c.now);
    var after := c.db.Disconnect(i, u, c.now);
    forall v, j | j in after.Leases(v)
      ensures j in hosts && v in hosts[j].sockets
    {
      assert j in c.db.Leases(v);
    }
  }

  ghost predicate KeysCoupled(t: Timing, c: Cluster) {
    Mirrored(c.hosts, c.db) && Indexed(t, c.db, c.now)
  }

  lemma ConnectKeys(t: Timing, c: Cluster, i: InstanceId, u: UserId, s: Socket)
    requires t.Valid() && KeysCoupled(t, c) && Enabled(t, c, Connect(i, u, s))
    requires Live(c.db.Leases(u), c.now) == c.db.Leases(u)
    ensures KeysCoupled(t, Apply(t, c, Connect(i, u, s)))
  {
    if u !in c.hosts[i].sockets {
      LeaseCoupled(t, c, i, u, Apply(t, c, Connect(i, u, s)).hosts);
    }
  }

  lemma {:induction false} ConnectAnswer(t: Timing, c: Cluster, m: SocketTable, i: InstanceId, u: UserId, s: Socket)
    requires t.Valid() && t.Sufficient() && Coupled(t, c, m) && Enabled(t, c, Connect(i, u, s))
    ensures Answer(t, c, Connect(i, u, s)) == SingleAnswer(m, Connect(i, u, s))
  {
    NothingLapsed(t, c, m, u, c.now);
    MemberHasSocket(c.hosts, m, u);
  }

  lemma DisconnectKeys(t: Timing, c: Cluster, i: InstanceId, u: UserId, s: Socket)
    requires KeysCoupled(t, c) && Enabled(t, c, Disconnect(i, u, s))
    requires Live(c.db.Leases(u), c.now) == c.db.Leases(u)
    ensures KeysCoupled(t, Apply(t, c, Disconnect(i, u, s)))
  {
    if LastSocket(c.hosts[i].sockets, u, s) {
      ReleaseCoupled(t, c, i, u, Apply(t, c, Disconnect(i, u, s)).hosts);
    }
  }

  // Seen from the state after: the last local socket was the last of all exactly if no lease is left.
  lemma {:induction false} DisconnectAnswer(t: Timing, c: Cluster, m: SocketTable, i: InstanceId, u: UserId, s: Socket)
    requires t.Valid() && t.Sufficient() && Coupled(t, c, m) && Enabled(t, c, Disconnect(i, u, s))
    requires Coupled(t, Apply(t, c, Disconnect(i, u, s)), Removed(m, u, s))
    ensures Answer(t, c, Disconnect(i, u, s)) == SingleAnswer(m, Disconnect(i, u, s))
  {
    var d := Apply(t, c, Disconnect(i, u, s));
    MemberHasSocket(c.hosts, m, u);
    if LastSocket(c.hosts[i].sockets, u, s) {
      NothingLapsed(t, d, Removed(m, u, s), u, d.now);
    } else {
      MemberHasSocket(d.hosts, Removed(m, u, s), u);
      RemovedSockets(c.hosts[i].sockets, u, s);
    }
  }

  lemma RefreshKeys(t: Timing, c: Cluster, i: InstanceId, u: UserId)
    requires t.Valid() && KeysCoupled(t, c) && Enabled(t, c, Refresh(i, u)) && u in c.hosts[i].sockets
    requires Live(c.db.Leases(u), c.now) == c.db.Leases(u)
    ensures KeysCoupled(t, Apply(t, c, Refresh(i, u)))
  {
    LeaseCoupled(t, c, i, u, Apply(t, c, Refresh(i, u)).hosts);
  }

  // Every step keeps the sockets of the hosts merged in the single manager.
  lemma StepMerged(t: Timing, c: Cluster, m: SocketTable, step: Step)
    requires Merged(c.hosts, m) && Enabled(t, c, step) && Faithful(c, step)
    ensures Merged(Apply(t, c, step).hosts, Single(m, step))
  {
    var after := Apply(t, c, step).hosts;
    match step {
      case Connect(i, u, s) => MergedAdd(c.hosts, m, i, u, s, after[i]);
      case Disconnect(i, u, s) => MergedRemove(c.hosts, m, i, u, s, after[i]);
      case _ => SameSockets(c.hosts, after, m);
    }
  }

  // The instances may differ in their loops, and by instances without sockets.
  predicate SocketsKept(hosts: map<InstanceId, Host>, after: map<InstanceId, Host>) {
    && (forall i :: i in hosts && i in after ==> after[i].sockets == hosts[i].sockets)
    && (forall i :: i in hosts && i !in after ==> hosts[i].sockets == map[])
    && (forall i :: i in after && i !in hosts ==> after[i].sockets == map[])
  }

  lemma SameSockets(hosts: map<InstanceId, Host>, after: map<InstanceId, Host>, m: SocketTable)
    requires Merged(hosts, m) && SocketsKept(hosts, after)
    ensures Merged(after, m)
  {
    forall u, s {:trigger s in SocketsOf(m, u)}
      ensures s in SocketsOf(m, u) <==> s.host in after && s in SocketsOf(after[s.host].sockets, u)
    {
    }
  }

  lemma SameMirrored(hosts: map<InstanceId, Host>, after: map<InstanceId, Host>, db: Db)
    requires Mirrored(hosts, db) && SocketsKept(hosts, after)
    ensures Mirrored(after, db)
  {
  }

  // A coupled index holds no expired user, so an atomic sweep finds an empty batch.
  lemma {:induction false} SweepFindsNothing(t: Timing, c: Cluster, m: SocketTable, at: Time, batch: seq<UserId>)
    requires t.Valid() && t.Sufficient() && Coupled(t, c, m) && at <= c.now && IsBatch(c.db.users, at, 100, batch)
    ensures batch == []
  {
    if batch != [] {
      assert batch[0] in batch;
      NothingLapsed(t, c, m, batch[0], at);
    }
  }

  lemma EvictNothing(db: Db, u: UserId, now: Time)
    requires Live(db.Leases(u), now) == db.Leases(u) && (u in db.leases ==> db.leases[u] != map[])
    ensures db.Evict(u, now) == db
  {
  }

  lemma QueryChangesNothing(t: Timing, c: Cluster, m: SocketTable, u: UserId)
    requires t.Valid() && t.Sufficient() && Coupled(t, c, m)
    ensures Apply(t, c, Query(u)) == c
  {
    NothingLapsed(t, c, m, u, c.now);
    EvictNothing(c.db, u, c.now);
  }

  lemma SweepChangesNothing(t: Timing, c: Cluster, m: SocketTable, i: InstanceId, batch: seq<UserId>)
    requires t.Valid() && t.Sufficient() && Coupled(t, c, m) && Enabled(t, c, SweepIndex(i, batch))
    ensures Apply(t, c, SweepIndex(i, batch)).db == c.db
  {
    assert LoopOnTime(t, c.now, c.hosts[i].loop) by { assert HostOnTime(t, c.db, c.now, i, c.hosts[i]); }
    SweepFindsNothing(t, c, m, c.hosts[i].loop.start, batch);
  }

  lemma StepKeys(t: Timing, c: Cluster, m: SocketTable, step: Step)
    requires t.Valid() && t.Sufficient() && Coupled(t, c, m) && Enabled(t, c, step) && Faithful(c, step)
    ensures KeysCoupled(t, Apply(t, c, step))
  {
    assert KeysCoupled(t, c);
    if step.Connect? || step.Disconnect? || step.Refresh? {
      assert Live(c.db.Leases(step.u), c.now) == c.db.Leases(step.u) by { NothingLapsed(t, c, m, step.u, c.now); }
    }
    match step {
      case Connect(i, u, s) => ConnectKeys(t, c, i, u, s);
      case Disconnect(i, u, s) => DisconnectKeys(t, c, i, u, s);
      case Refresh(i, u) => RefreshKeys(t, c, i, u);
      case Query(u) => QueryChangesNothing(t, c, m, u);
      case SweepIndex(i, batch) =>
        SweepChangesNothing(t, c, m, i, batch);
        LoopKeys(t, c, step);
      case _ => LoopKeys(t, c, step);
    }
  }

  lemma LoopKeys(t: Timing, c: Cluster, step: Step)
    requires KeysCoupled(t, c) && Enabled(t, c, step) && Faithful(c, step)
    requires !step.Connect? && !step.Disconnect? && !step.Refresh? && Apply(t, c, step).db == c.db
    ensures KeysCoupled(t, Apply(t, c, step))
  {
    SameMirrored(c.hosts, Apply(t, c, step).hosts, c.db);
  }

  lemma {:induction false} StepCoupled(t: Timing, c: Cluster, m: SocketTable, step: Step)
    requires t.Valid() && t.Sufficient() && Coupled(t, c, m) && Enabled(t, c, step) && Faithful(c, step)
    ensures Coupled(t, Apply(t, c, step), Single(m, step))
    ensures Answer(t, c, step) == SingleAnswer(m, step)
  {
    StepStaysOnTime(t, c, step);
    StepMerged(t, c, m, step);
    StepKeys(t, c, m, step);
    match step {
      case Connect(i, u, s) => ConnectAnswer(t, c, m, i, u, s);
      case Disconnect(i, u, s) => DisconnectAnswer(t, c, m, i, u, s);
      case Query(u) => NothingLapsed(t, c, m, u, c.now);
      case _ =>
    }
  }

  lemma {:induction false} RunCoupled(t: Timing, c: Cluster, m: SocketTable, steps: seq<Step>) returns (n: SocketTable)
    requires t.Valid() && t.Sufficient() && Coupled(t, c, m) && Legal(t, c, steps) && AllFaithful(t, c, steps)
    ensures Coupled(t, Run(t, c, steps), n)
    ensures Answers(t, c, steps) == SingleAnswers(m, steps)
    decreases |steps|
  {
    if steps == [] {
      n := m;
    } else {
      StepCoupled(t, c, m, steps[0]);
      n := RunCoupled(t, Apply(t, c, steps[0]), Single(m, steps[0]), steps[1..]);
    }
  }

  /**
   * Presence refinement: every answer of every run is the one a single manager with all the
   * sockets gives; at the end a user's leases are those of exactly the instances with a local
   * socket of the user, and the index holds each user at the latest of them.
   */
  lemma {:induction false} ClusterRefinesManager(t: Timing, c: Cluster, steps: seq<Step>)
    requires t.Valid() && t.Sufficient() && Initial(c) && Legal(t, c, steps) && AllFaithful(t, c, steps)
    ensures Answers(t, c, steps) == SingleAnswers(map[], steps)
    ensures var d := Run(t, c, steps);
            && (forall u, i :: i in d.db.Leases(u) <==> i in d.hosts && u in d.hosts[i].sockets)
            && (forall u :: u in d.db.users <==> d.db.Leases(u) != map[])
            && (forall u :: u in d.db.users && d.db.Leases(u) != map[] ==> d.db.users[u] == Top(d.db.Leases(u)))
  {
    assert Coupled(t, c, map[]);
    var n := RunCoupled(t, c, map[], steps);
    var d := Run(t, c, steps);
    forall u, i
      ensures i in d.db.Leases(u) <==> i in d.hosts && u in d.hosts[i].sockets
    {
      if i in d.hosts && u in d.hosts[i].sockets {
        OnTimeIsFresh(t, d.db, d.now, i, d.hosts[i]);
      }
    }
  }
}
