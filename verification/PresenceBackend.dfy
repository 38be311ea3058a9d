/**
 * The presence half of the realtime backend as it runs: the shared Redis keys and one instance's
 * view of them. Every method is tied to the function of PresenceDb that states its effect.
 */
module PresenceBackend {
  import opened Basics
  import opened SortedSets
  import opened PresenceDb

  class RedisServer {
    var leases: map<UserId, Zset<InstanceId>>
    var users: Zset<UserId>

    constructor ()
      ensures State() == Db(map[], map[])
    {
      leases, users := map[], map[];
    }

    function State(): Db
      reads this
    {
      Db(leases, users)
    }

    function LeaseKey(u: UserId): (z: Zset<InstanceId>)
      reads this
      ensures z == State().Leases(u)
    {
      if u in leases then leases[u] else map[]
    }

    method StoreLeases(u: UserId, z: Zset<InstanceId>)
      modifies this`leases
      ensures State() == old(State()).WithLeases(u, z)
    {
      if z == map[] {
        leases := leases - {u};
      } else {
        leases := leases[u := z];
      }
    }

    method PresenceConnectScript(i: InstanceId, u: UserId, now: Time, expiresAt: Time) returns (wasOffline: bool)
      modifies this
      ensures State() == old(State()).Connect(i, u, now, expiresAt - now)
      ensures wasOffline == old(State()).ConnectReturns(u, now)
      ensures wasOffline <==> forall j :: !Unexpired(old(State()), u, j, now)
    {
      ConnectExact(State(), i, u, now, expiresAt - now);
      var z := Live(LeaseKey(u), now);
      wasOffline := |z| == 0;
      z := z[i := expiresAt];
      leases := leases[u := z];
      users := users[u := expiresAt];
    }

    method PresenceDisconnectScript(i: InstanceId, u: UserId, now: Time) returns (nowOffline: bool)
      modifies this
      ensures State() == old(State()).Disconnect(i, u, now)
      ensures nowOffline == old(State()).DisconnectReturns(i, u, now)
      ensures nowOffline <==> forall j :: j != i ==> !Unexpired(old(State()), u, j, now)
    {
      DisconnectExact(State(), i, u, now);
      var z := LeaseKey(u) - {i};
      z := Live(z, now);
      if |z| == 0 {
        leases := leases - {u};
        users := users - {u};
        return true;
      }
      leases := leases[u := z];
      users := users[u := Top(z)];
      return false;
    }

    // The expired users in score order, up to a limit.
    method ExpiredUsers(now: Time, limit: nat) returns (batch: seq<UserId>)
      ensures IsBatch(users, now, limit, batch)
    {
      batch := ListExpired(users, now, limit);
    }
  }

  // The reads of a list of users, one after the other.
  function Evictions(db: Db, us: seq<UserId>, now: Time): Db
    decreases |us|
  {
    if us == [] then db else Evictions(db.Evict(us[0], now), us[1..], now)
  }

  // The users of the list with an unexpired lease, in the order asked.
  function OnlineAmong(db: Db, us: seq<UserId>, now: Time): seq<UserId>
    decreases |us|
  {
    if us == [] then []
    else (if db.Online(us[0], now) then [us[0]] else []) + OnlineAmong(db, us[1..], now)
  }

  lemma {:induction false} EvictionsAppend(db: Db, us: seq<UserId>, u: UserId, now: Time)
    ensures Evictions(db, us + [u], now) == Evictions(db, us, now).Evict(u, now)
    decreases |us|
  {
    if us == [] {
      assert [] + [u] == [u] && [u][1..] == [];
    } else {
      assert (us + [u])[1..] == us[1..] + [u];
      EvictionsAppend(db.Evict(us[0], now), us[1..], u, now);
    }
  }

  lemma {:induction false} OnlineAmongAppend(db: Db, us: seq<UserId>, u: UserId, now: Time)
    ensures OnlineAmong(db, us + [u], now) == OnlineAmong(db, us, now) + if db.Online(u, now) then [u] else []
    decreases |us|
  {
    if us == [] {
      assert [] + [u] == [u] && [u][1..] == [];
    } else {
      assert (us + [u])[1..] == us[1..] + [u];
      OnlineAmongAppend(db, us[1..], u, now);
    }
  }

  lemma {:induction false} EvictionsKeepOnline(db: Db, us: seq<UserId>, now: Time)
    ensures forall v :: Live(Evictions(db, us, now).Leases(v), now) == Live(db.Leases(v), now)
    decreases |us|
  {
    if us != [] {
      var d := db.Evict(us[0], now);
      forall v
        ensures Live(d.Leases(v), now) == Live(db.Leases(v), now)
      {
        if v == us[0] {
          assert Live(Live(db.Leases(v), now), now) == Live(db.Leases(v), now);
        }
      }
      EvictionsKeepOnline(d, us[1..], now);
    }
  }

  /** The answer lists each asked user once per mention and exactly when an unexpired lease exists. */
  lemma {:induction false} OnlineAmongExact(db: Db, us: seq<UserId>, now: Time, u: UserId)
    ensures multiset(OnlineAmong(db, us, now))[u] == if db.Online(u, now) then multiset(us)[u] else 0
    decreases |us|
  {
    if us != [] {
      assert us == [us[0]] + us[1..];
      OnlineAmongExact(db, us[1..], now, u);
    }
  }

  // Listed means asked for and leased beyond now.
  lemma ListedIfLeased(db: Db, us: seq<UserId>, now: Time, u: UserId)
    ensures u in OnlineAmong(db, us, now) <==> u in us && exists j :: Unexpired(db, u, j, now)
  {
    OnlineAmongExact(db, us, now, u);
    ReadExact(db, u, now);
    assert u in OnlineAmong(db, us, now) <==> u in multiset(OnlineAmong(db, us, now));
    assert u in us <==> u in multiset(us);
  }

  // One heartbeat round: the users in turn, each at the time its script is called.
  function Heartbeats(db: Db, i: InstanceId, us: seq<UserId>, at: UserId -> Time, ttl: Time): Db
    decreases |us|
  {
    if us == [] then db else Heartbeats(db.Connect(i, us[0], at(us[0]), ttl), i, us[1..], at, ttl)
  }

  /** A round renews this instance's lease of every listed user and touches nobody else. */
  lemma {:induction false} HeartbeatsRenew(db: Db, i: InstanceId, us: seq<UserId>, at: UserId -> Time, ttl: Time, u: UserId)
    requires Distinct(us)
    ensures u in us ==>
              && i in Heartbeats(db, i, us, at, ttl).Leases(u)
              && Heartbeats(db, i, us, at, ttl).Leases(u)[i] == at(u) + ttl
              && u in Heartbeats(db, i, us, at, ttl).users
              && Heartbeats(db, i, us, at, ttl).users[u] == at(u) + ttl
    ensures u !in us ==> Heartbeats(db, i, us, at, ttl).Leases(u) == db.Leases(u)
    ensures u !in us ==> (u in Heartbeats(db, i, us, at, ttl).users <==> u in db.users)
    ensures u !in us && u in db.users ==> Heartbeats(db, i, us, at, ttl).users[u] == db.users[u]
    decreases |us|
  {
    if us != [] {
      HeartbeatsRenew(db.Connect(i, us[0], at(us[0]), ttl), i, us[1..], at, ttl, u);
    }
  }

  lemma NobodyOnline(db: Db, u: UserId, at: Time)
    requires u !in db.leases
    ensures OnlineAmong(db, [u], at) == [] && Evictions(db, [u], at) == db
  {
    assert [u][1..] == [];
    assert Live(db.Leases(u), at) == map[];
    assert db.leases - {u} == db.leases;
  }

  lemma {:induction false} SweepAppend(db: Db, batch: seq<UserId>, u: UserId, now: Time)
    ensures db.Sweep(batch + [u], now) == db.Sweep(batch, now).SweepUser(u, now)
    ensures db.SweepReports(batch + [u], now)
         == db.SweepReports(batch, now)
            + if u in db.Sweep(batch, now).users && !db.Sweep(batch, now).Online(u, now) then [u] else []
    decreases |batch|
  {
    if batch == [] {
      assert [] + [u] == [u] && [u][1..] == [];
    } else {
      assert (batch + [u])[0] == batch[0] && (batch + [u])[1..] == batch[1..] + [u];
      SweepAppend(db.SweepUser(batch[0], now), batch[1..], u, now);
    }
  }

  class RealtimeBackend {
    const redis: RedisServer
    const instanceId: InstanceId
    const ttl: Time
    const heartbeat: Time
    var nextHeartbeat: Time

    constructor (redis: RedisServer, instanceId: InstanceId, ttl: Time, heartbeat: Time)
      ensures this.redis == redis && this.instanceId == instanceId && this.ttl == ttl && this.heartbeat == heartbeat
      ensures nextHeartbeat == 0
    {
      this.redis, this.instanceId, this.ttl, this.heartbeat := redis, instanceId, ttl, heartbeat;
      nextHeartbeat := 0;
    }

    method UserConnected(u: UserId, now: Time) returns (wasOffline: bool)
      modifies redis
      ensures redis.State() == old(redis.State()).Connect(instanceId, u, now, ttl)
      ensures wasOffline == old(redis.State()).ConnectReturns(u, now)
      ensures wasOffline <==> forall j :: !Unexpired(old(redis.State()), u, j, now)
    {
      wasOffline := redis.PresenceConnectScript(instanceId, u, now, now + ttl);
    }

    method UserDisconnected(u: UserId, now: Time) returns (nowOffline: bool)
      modifies redis
      ensures redis.State() == old(redis.State()).Disconnect(instanceId, u, now)
      ensures nowOffline == old(redis.State()).DisconnectReturns(instanceId, u, now)
      ensures nowOffline <==> forall j :: j != instanceId ==> !Unexpired(old(redis.State()), u, j, now)
    {
      nowOffline := redis.PresenceDisconnectScript(instanceId, u, now);
    }

    method OnlineUserIds(us: seq<UserId>, now: Time) returns (online: seq<UserId>)
      modifies redis
      ensures online == OnlineAmong(old(redis.State()), us, now)
      ensures redis.State() == Evictions(old(redis.State()), us, now)
      ensures forall u :: u in online <==> u in us && exists j :: Unexpired(old(redis.State()), u, j, now)
    {
      forall u ensures u in OnlineAmong(redis.State(), us, now) <==> u in us && exists j :: Unexpired(redis.State(), u, j, now) {
        ListedIfLeased(redis.State(), us, now, u);
      }
      ghost var before := redis.State();
      online := [];
      var k := 0;
      while k < |us|
        invariant 0 <= k <= |us|
        invariant redis.State() == Evictions(before, us[..k], now)
        invariant online == OnlineAmong(before, us[..k], now)
      {
        var u := us[k];
        var z := Live(redis.LeaseKey(u), now);
        redis.StoreLeases(u, z);
        if |z| > 0 {
          online := online + [u];
        }
        assert us[..k + 1] == us[..k] + [u];
        EvictionsAppend(before, us[..k], u, now);
        OnlineAmongAppend(before, us[..k], u, now);
        EvictionsKeepOnline(before, us[..k], now);
        k := k + 1;
      }
      assert us[..|us|] == us;
    }

    // The heartbeat of one maintenance iteration; user u's script is called at at(u).
    method HeartbeatRound(us: seq<UserId>, at: UserId -> Time)
      modifies redis
      ensures redis.State() == Heartbeats(old(redis.State()), instanceId, us, at, ttl)
    {
      var k := 0;
      while k < |us|
        invariant 0 <= k <= |us|
        invariant Heartbeats(redis.State(), instanceId, us[k..], at, ttl)
               == Heartbeats(old(redis.State()), instanceId, us, at, ttl)
      {
        var _ := UserConnected(us[k], at(us[k]));
        assert us[k..][1..] == us[k + 1..];
        k := k + 1;
      }
    }

    // What a presence sweep does with one listed user; `checkAt` is when the final presence read happens.
    method SettleUser(u: UserId, now: Time, checkAt: Time) returns (gone: bool)
      requires now <= checkAt
      modifies redis
      ensures redis.State() == old(redis.State()).SweepUser(u, now)
      ensures gone == (u in old(redis.users) && !old(redis.State()).Online(u, now))
    {
      if u !in redis.users {
        return false;
      }
      ghost var before := redis.State();
      ghost var live := Live(before.Leases(u), now);
      redis.users := redis.users - {u};
      redis.StoreLeases(u, Live(redis.LeaseKey(u), now));
      assert redis.State() == Db(before.leases, before.users - {u}).WithLeases(u, live);
      var z := redis.LeaseKey(u);
      assert z == live;
      if |z| > 0 {
        redis.users := redis.users[u := Top(z)];
        return false;
      }
      assert live == map[];
      redis.StoreLeases(u, map[]);
      assert redis.State() == Db(before.leases - {u}, before.users - {u});
      NobodyOnline(redis.State(), u, checkAt);
      var online := OnlineUserIds([u], checkAt);
      gone := |online| == 0;
    }

    // A presence sweep with nothing else running.
    method SweepPresence(now: Time, checks: UserId -> Time) returns (batch: seq<UserId>, gone: seq<UserId>)
      requires forall u :: now <= checks(u)
      modifies redis
      ensures IsBatch(old(redis.users), now, 100, batch)
      ensures redis.State() == old(redis.State()).Sweep(batch, now)
      ensures gone == old(redis.State()).SweepReports(batch, now)
    {
      ghost var before := redis.State();
      batch := redis.ExpiredUsers(now, 100);
      gone := [];
      var k := 0;
      while k < |batch|
        invariant 0 <= k <= |batch|
        invariant redis.State() == before.Sweep(batch[..k], now)
        invariant gone == before.SweepReports(batch[..k], now)
      {
        assert batch[..k + 1] == batch[..k] + [batch[k]];
        SweepAppend(before, batch[..k], batch[k], now);
        var reported := SettleUser(batch[k], now, checks(batch[k]));
        if reported {
          gone := gone + [batch[k]];
        }
        k := k + 1;
      }
      assert batch[..|batch|] == batch;
    }

    // The presence part of one maintenance iteration: local users when a heartbeat is due, then a sweep.
    method MaintainIteration(localUsers: seq<UserId>, now: Time, at: UserId -> Time, checks: UserId -> Time)
        returns (batch: seq<UserId>, gone: seq<UserId>)
      requires forall u :: now <= checks(u)
      modifies this`nextHeartbeat, redis
      ensures nextHeartbeat == if old(nextHeartbeat) <= now then now + heartbeat else old(nextHeartbeat)
      ensures var beaten := Heartbeats(old(redis.State()), instanceId,
                                       if old(nextHeartbeat) <= now then localUsers else [], at, ttl);
              && IsBatch(beaten.users, now, 100, batch)
              && redis.State() == beaten.Sweep(batch, now)
              && gone == beaten.SweepReports(batch, now)
    {
      if nextHeartbeat <= now {
        HeartbeatRound(localUsers, at);
        nextHeartbeat := now + heartbeat;
      }
      batch, gone := SweepPresence(now, checks);
    }
  }
}
