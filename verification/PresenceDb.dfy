/**
 * The shared presence keys and the atomic scripts over them: one sorted set of instance
 * leases a user, and one index sorted set of users.
 */
module PresenceDb {
  import opened Basics
  import opened SortedSets

  // An emptied sorted set does not exist in Redis, so `leases` never maps a user to the empty set.
  datatype Db = Db(leases: map<UserId, Zset<InstanceId>>, users: Zset<UserId>) {

    function Leases(u: UserId): Zset<InstanceId> {
      if u in leases then leases[u] else map[]
    }

    function WithLeases(u: UserId, z: Zset<InstanceId>): Db {
      if z == map[] then Db(leases - {u}, users) else Db(leases[u := z], users)
    }

    // The connect script: evict, add the caller's lease, index the user at the new deadline.
    function Connect(i: InstanceId, u: UserId, now: Time, ttl: Time): Db {
      Db(leases[u := Live(Leases(u), now)[i := now + ttl]], users[u := now + ttl])
    }

    // The script's answer: the user had no unexpired lease.
    predicate ConnectReturns(u: UserId, now: Time) {
      Live(Leases(u), now) == map[]
    }

    function LeasesWithout(i: InstanceId, u: UserId, now: Time): Zset<InstanceId> {
      Live(Leases(u) - {i}, now)
    }

    // The disconnect script: drop the caller's lease, evict, and either forget the user
    // or index the user at the latest remaining deadline.
    function Disconnect(i: InstanceId, u: UserId, now: Time): Db {
      var rest := LeasesWithout(i, u, now);
      if rest == map[] then Db(leases - {u}, users - {u})
      else Db(leases[u := rest], users[u := Top(rest)])
    }

    predicate DisconnectReturns(i: InstanceId, u: UserId, now: Time) {
      LeasesWithout(i, u, now) == map[]
    }

    // One user of a presence read: the lapsed leases go, and the rest are counted.
    function Evict(u: UserId, now: Time): Db {
      WithLeases(u, Live(Leases(u), now))
    }

    predicate Online(u: UserId, now: Time) {
      Live(Leases(u), now) != map[]
    }

    // One claimed user of a presence sweep run without interference.
    function SweepUser(u: UserId, now: Time): Db {
      if u !in users then this
      else
        var live := Live(Leases(u), now);
        if live == map[] then Db(leases - {u}, users - {u})
        else Db(leases[u := live], users[u := Top(live)])
    }

    function Sweep(batch: seq<UserId>, now: Time): Db
      decreases |batch|
    {
      if batch == [] then this else SweepUser(batch[0], now).Sweep(batch[1..], now)
    }

    // The users of the batch a sweep reports as gone.
    function SweepReports(batch: seq<UserId>, now: Time): seq<UserId>
      decreases |batch|
    {
      if batch == [] then []
      else
        (if batch[0] in users && !Online(batch[0], now) then [batch[0]] else [])
        + SweepUser(batch[0], now).SweepReports(batch[1..], now)
    }
  }

  // ---------- The scripts, one stored lease at a time ----------

  // The instance's lease of the user is stored with this deadline.
  predicate Stored(db: Db, u: UserId, i: InstanceId, deadline: Time) {
    u in db.leases && i in db.leases[u] && db.leases[u][i] == deadline
  }

  // The instance's lease of the user is stored and its deadline is still to come.
  predicate Unexpired(db: Db, u: UserId, i: InstanceId, now: Time) {
    u in db.leases && i in db.leases[u] && now < db.leases[u][i]
  }

  // The user is in the index with this score.
  predicate Scored(db: Db, u: UserId, score: Time) {
    u in db.users && db.users[u] == score
  }

  /**
   * The connect script, whatever is stored: it answers yes exactly if every stored lease of the user has lapsed;
   * it stores the caller's lease, drops the user's lapsed ones, keeps the others, and indexes the user at
   * the new deadline. Other users' keys stay.
   */
  lemma ConnectExact(db: Db, i: InstanceId, u: UserId, now: Time, ttl: Time)
    ensures db.ConnectReturns(u, now) <==> forall j :: !Unexpired(db, u, j, now)
    ensures var d := db.Connect(i, u, now, ttl);
            && (forall v, j, x :: Stored(d, v, j, x) <==>
                  if v == u && j == i then x == now + ttl else Stored(db, v, j, x) && (v == u ==> now < x))
            && (forall v, x :: Scored(d, v, x) <==> if v == u then x == now + ttl else Scored(db, v, x))
  {
    if j :| Unexpired(db, u, j, now) {
      assert j in Live(db.Leases(u), now);
    }
    if !db.ConnectReturns(u, now) {
      var j := TopMember(Live(db.Leases(u), now));
      assert Unexpired(db, u, j, now);
    }
  }

  /**
   * The disconnect script, whatever is stored: it answers yes exactly if every stored lease of the user but the
   * caller's has lapsed; it drops the caller's lease and the user's lapsed ones and keeps the others. Then the index
   * has the user at the latest deadline left, or not at all. Other users' keys stay.
   */
  lemma DisconnectExact(db: Db, i: InstanceId, u: UserId, now: Time)
    ensures db.DisconnectReturns(i, u, now) <==> forall j :: j != i ==> !Unexpired(db, u, j, now)
    ensures var d := db.Disconnect(i, u, now);
            && (forall v, j, x :: Stored(d, v, j, x) <==> Stored(db, v, j, x) && (v == u ==> j != i && now < x))
            && (forall x :: Scored(d, u, x) <==>
                  && (exists j :: Stored(d, u, j, x))
                  && forall k, y :: Stored(d, u, k, y) ==> y <= x)
            && (forall v, x :: v != u ==> (Scored(d, v, x) <==> Scored(db, v, x)))
  {
    var rest := db.LeasesWithout(i, u, now);
    var d := db.Disconnect(i, u, now);
    forall j | j != i && Unexpired(db, u, j, now)
      ensures j in rest
    {
    }
    forall v, j, x
      ensures Stored(d, v, j, x) <==> Stored(db, v, j, x) && (v == u ==> j != i && now < x)
    {
      assert Stored(db, u, j, x) && now < x ==> Unexpired(db, u, j, now);
    }
    if rest != map[] {
      var j := TopMember(rest);
      assert Unexpired(db, u, j, now) && Stored(d, u, j, Top(rest));
      forall x | Scored(d, u, x)
        ensures exists j :: Stored(d, u, j, x)
      {
        assert Stored(d, u, j, x);
      }
    }
  }

  /** A presence read: the user is online exactly if some stored lease is unexpired, and only lapsed leases go. */
  lemma ReadExact(db: Db, u: UserId, now: Time)
    ensures db.Online(u, now) <==> exists j :: Unexpired(db, u, j, now)
    ensures forall v, j, x :: Stored(db.Evict(u, now), v, j, x) <==> Stored(db, v, j, x) && (v == u ==> now < x)
    ensures db.Evict(u, now).users == db.users
  {
    forall j | Unexpired(db, u, j, now)
      ensures j in Live(db.Leases(u), now)
    {
    }
    forall v, j, x
      ensures Stored(db.Evict(u, now), v, j, x) <==> Stored(db, v, j, x) && (v == u ==> now < x)
    {
      assert Stored(db, u, j, x) && now < x ==> Unexpired(db, u, j, now);
    }
    if db.Online(u, now) {
      var j := TopMember(Live(db.Leases(u), now));
      assert Unexpired(db, u, j, now);
    }
  }
}
