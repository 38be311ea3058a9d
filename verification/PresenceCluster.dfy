/**
 * N backend instances over one Redis: connects, disconnects, presence reads and sweeps as atomic
 * steps, and every instance's maintenance loop with its timing.
 */
module PresenceCluster {
  import opened Basics
  import opened SortedSets
  import opened PresenceDb
  import opened Connections

  // `work` bounds one maintenance iteration: the heartbeat round, the sweeps and any late wake-up.
  datatype Timing = Timing(ttl: Time, heartbeat: Time, sweep: Time, work: Time) {
    predicate Valid() {
      0 < ttl && 0 < heartbeat && 0 < sweep && 0 <= work
    }

    // The latest an iteration without a heartbeat can begin after the last one with a heartbeat.
    function LastQuiet(): Time
      requires Valid()
    {
      Min(heartbeat - 1, (heartbeat - 1) / sweep * (sweep + work))
    }

    // Wherever the iteration before a heartbeat begins, there is room for it, the sleep after it and the
    // heartbeat it delays.
    ghost predicate Sufficient() {
      forall x :: 0 <= x < heartbeat && Reachable(this, x) ==> x + sweep + 2 * work < ttl
    }
  }

  datatype Loop =
    | Sleeping(wake: Time, nextHeartbeat: Time)
    | Working(start: Time, pending: set<UserId>, nextHeartbeat: Time, swept: bool)

  datatype Host = Host(sockets: SocketTable, loop: Loop)

  datatype Cluster = Cluster(hosts: map<InstanceId, Host>, db: Db, now: Time)

  datatype Step =
    | Connect(i: InstanceId, u: UserId, s: Socket)
    | Disconnect(i: InstanceId, u: UserId, s: Socket)
    | Query(u: UserId)
    | Wake(i: InstanceId)
    | Refresh(i: InstanceId, u: UserId)
    | SweepIndex(i: InstanceId, batch: seq<UserId>)
    | Sleep(i: InstanceId)
    | Crash(i: InstanceId)
    | Join(i: InstanceId)
    | Tick(d: Time)

  function Deadline(t: Timing, loop: Loop): Time {
    match loop
    case Sleeping(wake, _) => wake
    case Working(start, _, _, _) => start + t.work
  }

  // The loop is asleep until exactly `wake`, and an iteration refreshes, sweeps and ends within its
  // work bound; no step is forced, but time does not pass the deadline of a live instance. An instance
  // may crash at any moment, and a new one may join.
  ghost predicate Enabled(t: Timing, c: Cluster, step: Step) {
    match step
    case Connect(i, u, s) => i in c.hosts && s.host == i
    case Disconnect(i, u, s) => i in c.hosts && s.host == i
    case Query(u) => true
    case Wake(i) => i in c.hosts && c.hosts[i].loop.Sleeping? && c.now == c.hosts[i].loop.wake
    case Refresh(i, u) => i in c.hosts && c.hosts[i].loop.Working? && u in c.hosts[i].loop.pending
    case SweepIndex(i, batch) =>
      && i in c.hosts && c.hosts[i].loop.Working? && c.hosts[i].loop.pending == {} && !c.hosts[i].loop.swept
      && IsBatch(c.db.users, c.hosts[i].loop.start, 100, batch)
    case Sleep(i) =>
      i in c.hosts && c.hosts[i].loop.Working? && c.hosts[i].loop.pending == {} && c.hosts[i].loop.swept
    case Crash(i) => i in c.hosts
    case Join(i) => i !in c.hosts
    case Tick(d) => 0 <= d && forall i :: i in c.hosts ==> c.now + d <= Deadline(t, c.hosts[i].loop)
  }

  ghost function WithHost(c: Cluster, i: InstanceId, h: Host, db: Db): Cluster {
    Cluster(c.hosts[i := h], db, c.now)
  }

  ghost function Apply(t: Timing, c: Cluster, step: Step): Cluster
    requires Enabled(t, c, step)
  {
    match step
    case Connect(i, u, s) =>
      var h := c.hosts[i];
      WithHost(c, i, h.(sockets := Added(h.sockets, u, s)),
               if u in h.sockets then c.db else c.db.Connect(i, u, c.now, t.ttl))
    case Disconnect(i, u, s) =>
      var h := c.hosts[i];
      WithHost(c, i, h.(sockets := Removed(h.sockets, u, s)),
               if LastSocket(h.sockets, u, s) then c.db.Disconnect(i, u, c.now) else c.db)
    case Query(u) => c.(db := c.db.Evict(u, c.now))
    case Wake(i) =>
      var h := c.hosts[i];
      var beats := h.loop.nextHeartbeat <= c.now;
      WithHost(c, i, h.(loop := Working(c.now, if beats then h.sockets.Keys else {},
                                        if beats then c.now + t.heartbeat else h.loop.nextHeartbeat, false)), c.db)
    case Refresh(i, u) =>
      var h := c.hosts[i];
      WithHost(c, i, h.(loop := h.loop.(pending := h.loop.pending - {u})), c.db.Connect(i, u, c.now, t.ttl))
    case SweepIndex(i, batch) =>
      var h := c.hosts[i];
      WithHost(c, i, h.(loop := h.loop.(swept := true)), c.db.Sweep(batch, h.loop.start))
    case Sleep(i) =>
      var h := c.hosts[i];
      WithHost(c, i, h.(loop := Sleeping(c.now + t.sweep, h.loop.nextHeartbeat)), c.db)
    // The sockets are gone without a disconnect; the leases stay until they lapse.
    case Crash(i) => c.(hosts := c.hosts - {i})
    // The first iteration of a new instance beats.
    case Join(i) => WithHost(c, i, Host(map[], Sleeping(c.now, c.now)), c.db)
    case Tick(d) => c.(now := c.now + d)
  }

  ghost predicate Initial(c: Cluster) {
    && c.db == Db(map[], map[])
    && forall i :: i in c.hosts ==>
         && c.hosts[i].sockets == map[]
         && c.hosts[i].loop.Sleeping? && c.hosts[i].loop.wake == c.now && c.hosts[i].loop.nextHeartbeat <= c.now
  }

  ghost predicate Legal(t: Timing, c: Cluster, steps: seq<Step>)
    decreases |steps|
  {
    steps != [] ==> Enabled(t, c, steps[0]) && Legal(t, Apply(t, c, steps[0]), steps[1..])
  }

  ghost function Run(t: Timing, c: Cluster, steps: seq<Step>): Cluster
    requires Legal(t, c, steps)
    decreases |steps|
  {
    if steps == [] then c else Run(t, Apply(t, c, steps[0]), steps[1..])
  }

  // ---------- When an iteration can begin ----------

  predicate After(t: Timing, n: nat, x: Time) {
    n * t.sweep <= x <= n * (t.sweep + t.work)
  }

  // Some number of iterations after a heartbeat, the next can begin x after it.
  ghost predicate Reachable(t: Timing, x: Time) {
    exists n: nat :: After(t, n, x)
  }

  lemma Monotone(m: nat, n: nat, k: Time)
    requires m <= n && 0 <= k
    ensures m * k <= n * k
  {
  }

  lemma Quotient(n: nat, s: Time, x: Time)
    requires 0 < s && n * s <= x
    ensures n <= x / s
  {
    if x / s < n {
      Monotone(x / s + 1, n, s);
      assert false;
    }
  }

  /** LastQuiet is the greatest time before the next heartbeat is due at which an iteration can begin. */
  lemma {:induction false} LastQuietExact(t: Timing, x: Time)
    requires t.Valid() && 0 <= x < t.heartbeat && Reachable(t, x)
    ensures x <= t.LastQuiet() && 0 <= t.LastQuiet() < t.heartbeat && Reachable(t, t.LastQuiet())
  {
    var n: nat :| After(t, n, x);
    Quotient(n, t.sweep, t.heartbeat - 1);
    Monotone(n, (t.heartbeat - 1) / t.sweep, t.sweep + t.work);
    LastQuietReached(t);
  }

  lemma LastQuietReached(t: Timing)
    requires t.Valid()
    ensures 0 <= t.LastQuiet() < t.heartbeat && After(t, (t.heartbeat - 1) / t.sweep, t.LastQuiet())
  {
    var most := (t.heartbeat - 1) / t.sweep;
    Apart(most, t.sweep, t.work);
    assert most * t.sweep <= t.heartbeat - 1;
  }

  lemma Apart(n: nat, s: Time, w: Time)
    requires 0 <= s && 0 <= w
    ensures n * (s + w) == n * s + n * w && 0 <= n * s && 0 <= n * w
  {
  }

  lemma OneMoreIteration(t: Timing, x: Time, y: Time)
    requires t.Valid() && Reachable(t, x) && x + t.sweep <= y <= x + t.sweep + t.work
    ensures Reachable(t, y)
  {
    var n: nat :| After(t, n, x);
    assert (n + 1) * t.sweep == n * t.sweep + t.sweep;
    assert (n + 1) * (t.sweep + t.work) == n * (t.sweep + t.work) + t.sweep + t.work;
    assert After(t, n + 1, y);
  }

  /** Room in numbers: only the greatest such time matters. */
  lemma {:induction false} RoomInNumbers(t: Timing)
    requires t.Valid()
    ensures t.Sufficient() <==> t.LastQuiet() + t.sweep + 2 * t.work < t.ttl
  {
    BeatIsReachable(t);
    LastQuietExact(t, 0);
    if t.LastQuiet() + t.sweep + 2 * t.work < t.ttl {
      forall x | 0 <= x < t.heartbeat && Reachable(t, x)
        ensures x + t.sweep + 2 * t.work < t.ttl
      {
        LastQuietExact(t, x);
      }
    }
  }

  lemma BeatIsReachable(t: Timing)
    ensures Reachable(t, 0)
  {
    assert After(t, 0, 0);
  }

  /** The simple sufficient room: a heartbeat, a sleep and two bounded iterations. */
  lemma TwoIterationsSuffice(t: Timing)
    requires t.Valid() && t.heartbeat + t.sweep + 2 * t.work <= t.ttl
    ensures t.Sufficient()
  {
  }

  // ---------- Lease continuity ----------

  // `next - t.heartbeat` is when the iteration with the last heartbeat began.
  ghost predicate LoopOnTime(t: Timing, now: Time, loop: Loop) {
    match loop
    case Sleeping(wake, next) =>
      now <= wake <= now + t.sweep && next <= now + t.heartbeat && (wake < next ==> Reachable(t, wake - next + t.heartbeat))
    case Working(start, _, next, _) =>
      && start <= now <= start + t.work && start < next <= start + t.heartbeat
      && Reachable(t, start - next + t.heartbeat)
  }

  // How late the lease of a connected user must still be valid, given where the loop is.
  ghost predicate LongEnough(t: Timing, loop: Loop, u: UserId, lease: Time) {
    match loop
    case Sleeping(wake, next) => wake + t.work < lease && (wake < next ==> next - t.heartbeat + t.ttl <= lease)
    case Working(start, pending, next, _) =>
      if u in pending then start + t.work < lease else next - t.heartbeat + t.ttl <= lease
  }

  ghost predicate HostOnTime(t: Timing, db: Db, now: Time, i: InstanceId, h: Host) {
    && LoopOnTime(t, now, h.loop)
    && NoEmptyEntry(h.sockets)
    && forall u :: u in h.sockets ==> i in db.Leases(u) && LongEnough(t, h.loop, u, db.Leases(u)[i])
  }

  ghost predicate OnTime(t: Timing, c: Cluster) {
    forall i :: i in c.hosts ==> HostOnTime(t, c.db, c.now, i, c.hosts[i])
  }

  // Every lease still unexpired at `now` survives, but perhaps that of instance i for user u.
  ghost predicate KeepsFresh(db: Db, after: Db, now: Time, i: InstanceId, u: UserId) {
    forall v, j :: (v != u || j != i) && j in db.Leases(v) && now < db.Leases(v)[j] ==>
        FreshKept(db, after, v, j)
  }

  predicate FreshKept(db: Db, after: Db, v: UserId, j: InstanceId) {
    j in db.Leases(v) && j in after.Leases(v) && after.Leases(v)[j] == db.Leases(v)[j]
  }

  ghost predicate KeepsAllFresh(db: Db, after: Db, now: Time) {
    forall v, j :: j in db.Leases(v) && now < db.Leases(v)[j] ==> FreshKept(db, after, v, j)
  }

  // A working loop's iteration began by LastQuiet, so the leases of the last heartbeat outlast the sleep.
  lemma BeganInTime(t: Timing, now: Time, loop: Loop)
    requires t.Valid() && t.Sufficient() && loop.Working? && LoopOnTime(t, now, loop)
    ensures now + t.sweep + t.work < loop.nextHeartbeat - t.heartbeat + t.ttl
    ensures now + t.work < loop.nextHeartbeat - t.heartbeat + t.ttl
    ensures Reachable(t, now + t.sweep - loop.nextHeartbeat + t.heartbeat)
  {
    var x := loop.start - loop.nextHeartbeat + t.heartbeat;
    OneMoreIteration(t, x, now + t.sweep - loop.nextHeartbeat + t.heartbeat);
  }

  lemma OnTimeIsFresh(t: Timing, db: Db, now: Time, i: InstanceId, h: Host)
    requires t.Valid() && t.Sufficient() && HostOnTime(t, db, now, i, h)
    ensures forall u :: u in h.sockets ==> i in db.Leases(u) && now < db.Leases(u)[i]
  {
    if h.loop.Working? {
      BeganInTime(t, now, h.loop);
    }
  }

  // An unexpired lease outlives a whole sweep, whatever the batch.
  lemma {:induction false} SweepKeepsFresh(db: Db, batch: seq<UserId>, start: Time, now: Time, v: UserId, j: InstanceId)
    requires start <= now && j in db.Leases(v) && now < db.Leases(v)[j]
    ensures j in db.Sweep(batch, start).Leases(v) && db.Sweep(batch, start).Leases(v)[j] == db.Leases(v)[j]
    decreases |batch|
  {
    if batch != [] {
      var live := Live(db.Leases(batch[0]), start);
      if batch[0] == v {
        assert j in live;
      }
      SweepKeepsFresh(db.SweepUser(batch[0], start), batch[1..], start, now, v, j);
    }
  }

  lemma SweepKeepsAllFresh(db: Db, batch: seq<UserId>, start: Time, now: Time)
    requires start <= now
    ensures KeepsAllFresh(db, db.Sweep(batch, start), now)
  {
    forall v, j | j in db.Leases(v) && now < db.Leases(v)[j]
      ensures FreshKept(db, db.Sweep(batch, start), v, j)
    {
      SweepKeepsFresh(db, batch, start, now, v, j);
    }
  }

  lemma EvictKeepsFresh(db: Db, u: UserId, at: Time, now: Time)
    requires at <= now
    ensures KeepsAllFresh(db, db.Evict(u, at), now)
  {
    forall v, j | j in db.Leases(v) && now < db.Leases(v)[j]
      ensures FreshKept(db, db.Evict(u, at), v, j)
    {
      assert v == u ==> j in Live(db.Leases(u), at);
    }
  }

  lemma OthersStayOnTime(t: Timing, c: Cluster, after: Db, i: InstanceId, u: UserId, j: InstanceId)
    requires t.Valid() && t.Sufficient() && OnTime(t, c)
    requires KeepsFresh(c.db, after, c.now, i, u) && j in c.hosts && j != i
    ensures HostOnTime(t, after, c.now, j, c.hosts[j])
  {
    OnTimeIsFresh(t, c.db, c.now, j, c.hosts[j]);
    forall v | v in c.hosts[j].sockets
      ensures FreshKept(c.db, after, v, j)
    {
      assert j in c.db.Leases(v);
    }
  }

  // A step of instance i that rewrites only user u's keys.
  lemma WriteStaysOnTime(t: Timing, c: Cluster, d: Cluster, i: InstanceId, u: UserId)
    requires t.Valid() && t.Sufficient() && OnTime(t, c) && KeepsFresh(c.db, d.db, c.now, i, u)
    requires i in c.hosts && i in d.hosts && d.hosts == c.hosts[i := d.hosts[i]] && d.now == c.now
    requires HostOnTime(t, d.db, d.now, i, d.hosts[i])
    ensures OnTime(t, d)
  {
    forall j | j in d.hosts && j != i
      ensures HostOnTime(t, d.db, d.now, j, d.hosts[j])
    {
      OthersStayOnTime(t, c, d.db, i, u, j);
    }
  }

  lemma ScriptsKeepFresh(db: Db, i: InstanceId, u: UserId, now: Time, ttl: Time)
    ensures KeepsFresh(db, db.Connect(i, u, now, ttl), now, i, u)
    ensures KeepsFresh(db, db.Disconnect(i, u, now), now, i, u)
    ensures KeepsFresh(db, db, now, i, u)
  {
    forall v, j | (v != u || j != i) && j in db.Leases(v) && now < db.Leases(v)[j]
      ensures FreshKept(db, db.Connect(i, u, now, ttl), v, j) && FreshKept(db, db.Disconnect(i, u, now), v, j)
    {
      assert v == u ==> j in Live(db.Leases(u), now) && j in db.LeasesWithout(i, u, now);
    }
  }

  lemma ConnectStaysOnTime(t: Timing, c: Cluster, i: InstanceId, u: UserId, s: Socket)
    requires t.Valid() && t.Sufficient() && OnTime(t, c) && Enabled(t, c, Connect(i, u, s))
    ensures OnTime(t, Apply(t, c, Connect(i, u, s)))
  {
    var d := Apply(t, c, Connect(i, u, s));
    assert HostOnTime(t, c.db, c.now, i, c.hosts[i]);
    ScriptsKeepFresh(c.db, i, u, c.now, t.ttl);
    HostStaysOnTime(t, c, d, i, u);
    WriteStaysOnTime(t, c, d, i, u);
  }

  lemma TableWithout(t: SocketTable, u: UserId, s: Socket)
    requires NoEmptyEntry(t)
    ensures NoEmptyEntry(Removed(t, u, s)) && forall v :: v in Removed(t, u, s) ==> v in t
    ensures u in Removed(t, u, s) ==> !LastSocket(t, u, s)
  {
  }

  lemma DisconnectStaysOnTime(t: Timing, c: Cluster, i: InstanceId, u: UserId, s: Socket)
    requires t.Valid() && t.Sufficient() && OnTime(t, c) && Enabled(t, c, Disconnect(i, u, s))
    ensures OnTime(t, Apply(t, c, Disconnect(i, u, s)))
  {
    var d := Apply(t, c, Disconnect(i, u, s));
    TableWithout(c.hosts[i].sockets, u, s);
    assert HostOnTime(t, c.db, c.now, i, c.hosts[i]);
    ScriptsKeepFresh(c.db, i, u, c.now, t.ttl);
    HostStaysOnTime(t, c, d, i, u);
    WriteStaysOnTime(t, c, d, i, u);
  }

  lemma RefreshStaysOnTime(t: Timing, c: Cluster, i: InstanceId, u: UserId)
    requires t.Valid() && t.Sufficient() && OnTime(t, c) && Enabled(t, c, Refresh(i, u))
    ensures OnTime(t, Apply(t, c, Refresh(i, u)))
  {
    var d := Apply(t, c, Refresh(i, u));
    assert HostOnTime(t, c.db, c.now, i, c.hosts[i]);
    ScriptsKeepFresh(c.db, i, u, c.now, t.ttl);
    HostStaysOnTime(t, c, d, i, u);
    WriteStaysOnTime(t, c, d, i, u);
  }

  // A step that changes no host and keeps every unexpired lease.
  lemma ReadStaysOnTime(t: Timing, c: Cluster, after: Db)
    requires t.Valid() && t.Sufficient() && OnTime(t, c)
    requires KeepsAllFresh(c.db, after, c.now)
    ensures OnTime(t, c.(db := after))
  {
    forall i | i in c.hosts
      ensures HostOnTime(t, after, c.now, i, c.hosts[i])
    {
      OnTimeIsFresh(t, c.db, c.now, i, c.hosts[i]);
      forall v | v in c.hosts[i].sockets
        ensures FreshKept(c.db, after, v, i)
      {
        assert i in c.db.Leases(v);
      }
    }
  }

  lemma LoopStaysOnTime(t: Timing, c: Cluster, step: Step)
    requires t.Valid() && t.Sufficient() && OnTime(t, c) && Enabled(t, c, step)
    requires step.Wake? || step.Tick? || step.Crash? || step.Join?
    ensures OnTime(t, Apply(t, c, step))
  {
    var d := Apply(t, c, step);
    BeatIsReachable(t);
    forall j | j in d.hosts
      ensures HostOnTime(t, d.db, d.now, j, d.hosts[j])
    {
      assert j in c.hosts ==> HostOnTime(t, c.db, c.now, j, c.hosts[j]);
    }
  }

  lemma SleepStaysOnTime(t: Timing, c: Cluster, i: InstanceId)
    requires t.Valid() && t.Sufficient() && OnTime(t, c) && Enabled(t, c, Sleep(i))
    ensures OnTime(t, Apply(t, c, Sleep(i)))
  {
    var d := Apply(t, c, Sleep(i));
    forall j | j in d.hosts
      ensures HostOnTime(t, d.db, d.now, j, d.hosts[j])
    {
      assert HostOnTime(t, c.db, c.now, j, c.hosts[j]);
      if j == i {
        BeganInTime(t, c.now, c.hosts[i].loop);
      }
    }
  }

  lemma SweepStaysOnTime(t: Timing, c: Cluster, k: InstanceId, batch: seq<UserId>)
    requires t.Valid() && t.Sufficient() && OnTime(t, c) && Enabled(t, c, SweepIndex(k, batch))
    ensures OnTime(t, Apply(t, c, SweepIndex(k, batch)))
  {
    var start := c.hosts[k].loop.start;
    assert HostOnTime(t, c.db, c.now, k, c.hosts[k]);
    SweepKeepsAllFresh(c.db, batch, start, c.now);
    ReadStaysOnTime(t, c, c.db.Sweep(batch, start));
    var d := Apply(t, c, SweepIndex(k, batch));
    forall j | j in d.hosts
      ensures HostOnTime(t, d.db, d.now, j, d.hosts[j])
    {
      assert HostOnTime(t, d.db, c.now, j, c.hosts[j]);
    }
  }

  lemma {:induction false} StepStaysOnTime(t: Timing, c: Cluster, step: Step)
    requires t.Valid() && t.Sufficient() && OnTime(t, c) && Enabled(t, c, step)
    ensures OnTime(t, Apply(t, c, step))
  {
    match step {
      case Connect(i, u, s) => ConnectStaysOnTime(t, c, i, u, s);
      case Disconnect(i, u, s) => DisconnectStaysOnTime(t, c, i, u, s);
      case Refresh(i, u) => RefreshStaysOnTime(t, c, i, u);
      case Query(u) =>
        EvictKeepsFresh(c.db, u, c.now, c.now);
        ReadStaysOnTime(t, c, c.db.Evict(u, c.now));
      case SweepIndex(k, batch) => SweepStaysOnTime(t, c, k, batch);
      case Sleep(i) => SleepStaysOnTime(t, c, i);
      case _ => LoopStaysOnTime(t, c, step);
    }
  }

  // The instance that acted: its other users keep their lease, and user u's is new or not needed.
  lemma HostStaysOnTime(t: Timing, c: Cluster, d: Cluster, i: InstanceId, u: UserId)
    requires t.Valid() && t.Sufficient() && OnTime(t, c) && KeepsFresh(c.db, d.db, c.now, i, u)
    requires i in c.hosts && i in d.hosts && d.now == c.now
    requires NoEmptyEntry(d.hosts[i].sockets)
    requires forall v :: v in d.hosts[i].sockets && v != u ==> v in c.hosts[i].sockets
    requires d.hosts[i].loop == c.hosts[i].loop
          || (c.hosts[i].loop.Working? && d.hosts[i].loop == c.hosts[i].loop.(pending := c.hosts[i].loop.pending - {u}))
    requires u in d.hosts[i].sockets ==>
               i in d.db.Leases(u) && (d.db.Leases(u)[i] == c.now + t.ttl
                                       || (u in c.hosts[i].sockets && d.hosts[i].loop == c.hosts[i].loop
                                           && d.db.Leases(u)[i] == c.db.Leases(u)[i]))
    ensures HostOnTime(t, d.db, d.now, i, d.hosts[i])
  {
    BeatIsReachable(t);
    OnTimeIsFresh(t, c.db, c.now, i, c.hosts[i]);
    forall v | v in d.hosts[i].sockets && v != u
      ensures FreshKept(c.db, d.db, v, i)
    {
      assert i in c.db.Leases(v);
    }
  }

  lemma {:induction false} RunStaysOnTime(t: Timing, c: Cluster, steps: seq<Step>)
    requires t.Valid() && t.Sufficient() && OnTime(t, c) && Legal(t, c, steps)
    ensures OnTime(t, Run(t, c, steps))
    decreases |steps|
  {
    if steps != [] {
      StepStaysOnTime(t, c, steps[0]);
      RunStaysOnTime(t, Apply(t, c, steps[0]), steps[1..]);
    }
  }

  /**
   * Lease continuity, with each sweep one step: with timings that leave room for the last quiet iteration and
   * the heartbeat it delays, in every run, with instances crashing and joining at any moment, no lease of a
   * connected user of a live instance ever lapses, and the user is reported online. PresenceCommands says what
   * is left of this when sweeps are interleaved command by command.
   */
  lemma {:induction false} LeaseContinuity(t: Timing, c: Cluster, steps: seq<Step>)
    requires t.Valid() && t.Sufficient() && Initial(c) && Legal(t, c, steps)
    ensures var d := Run(t, c, steps);
            forall i, u :: i in d.hosts && u in d.hosts[i].sockets ==>
              i in d.db.Leases(u) && d.now < d.db.Leases(u)[i] && d.db.Online(u, d.now)
  {
    RunStaysOnTime(t, c, steps);
    var d := Run(t, c, steps);
    forall i, u | i in d.hosts && u in d.hosts[i].sockets
      ensures i in d.db.Leases(u) && d.now < d.db.Leases(u)[i] && d.db.Online(u, d.now)
    {
      OnTimeIsFresh(t, d.db, d.now, i, d.hosts[i]);
      assert i in Live(d.db.Leases(u), d.now);
    }
  }
}
