/**
 * Where presence stops being exact: timings without room for two late iterations, and a heartbeat
 * that refreshes a user who has just disconnected.
 */
module PresenceLimits {
  import opened Basics
  import opened SortedSets
  import opened PresenceDb
  import opened Connections
  import opened PresenceCluster
  import opened PresenceRefinement

  lemma Prepend(t: Timing, c: Cluster, step: Step, rest: seq<Step>)
    requires Enabled(t, c, step) && Legal(t, Apply(t, c, step), rest)
    ensures Legal(t, c, [step] + rest)
    ensures Run(t, c, [step] + rest) == Run(t, Apply(t, c, step), rest)
    ensures Answers(t, c, [step] + rest) == Answer(t, c, step) + Answers(t, Apply(t, c, step), rest)
  {
    assert ([step] + rest)[1..] == rest;
  }

  // ---------- A timing without room ----------

  // A connected user of some instance has a lapsed lease.
  ghost predicate Lapsed(c: Cluster) {
    exists i, u :: i in c.hosts && u in c.hosts[i].sockets && i in c.db.Leases(u) && c.db.Leases(u)[i] <= c.now
  }

  ghost predicate NeverLapses(t: Timing) {
    forall c, steps :: Initial(c) && Legal(t, c, steps) ==> !Lapsed(Run(t, c, steps))
  }

  const SOCKET := Socket(0, 0)

  // One instance, asleep until now, whose user 7 connected at time 0 in the first heartbeat iteration.
  function Resting(t: Timing, now: Time): Cluster {
    Cluster(map[0 := Host(map[7 := {SOCKET}], Sleeping(now, t.heartbeat))],
            Db(map[7 := map[0 := t.ttl]], map[7 := t.ttl]), now)
  }

  function Busy(t: Timing, start: Time, pending: set<UserId>, next: Time, now: Time): Cluster {
    Cluster(map[0 := Host(map[7 := {SOCKET}], Working(start, pending, next, false))],
            Db(map[7 := map[0 := t.ttl]], map[7 := t.ttl]), now)
  }

  lemma FirstLease(ttl: Time)
    ensures Db(map[], map[]).Connect(0, 7, 0, ttl) == Db(map[7 := map[0 := ttl]], map[7 := ttl])
    ensures Db(map[], map[]).ConnectReturns(7, 0)
    ensures Added(map[], 7, SOCKET) == map[7 := {SOCKET}] && map[7 := {SOCKET}].Keys == {7}
  {
    var none := Db(map[], map[]);
    var nobody: SocketTable := map[];
    assert SocketsOf(nobody, 7) + {SOCKET} == {SOCKET};
    assert Live(none.Leases(7), 0) == map[];
    assert none.Connect(0, 7, 0, ttl).leases[7] == map[0 := ttl];
  }

  // The sweep of an iteration that begins before the lease is due finds nothing.
  lemma SweepNothing(t: Timing, start: Time, next: Time) returns (d: Cluster)
    requires start < t.ttl
    ensures Enabled(t, Busy(t, start, {}, next, start), SweepIndex(0, []))
    ensures d == Apply(t, Busy(t, start, {}, next, start), SweepIndex(0, []))
         == Cluster(map[0 := Host(map[7 := {SOCKET}], Working(start, {}, next, true))], Resting(t, start).db, start)
  {
    var c := Busy(t, start, {}, next, start);
    assert Expired(c.db.users, start) == {};
    d := Apply(t, c, SweepIndex(0, []));
  }

  // From work that began at `start` to the next wake-up, `w` later plus the sleep.
  lemma FinishIteration(t: Timing, start: Time, w: Time, steps: seq<Step>) returns (all: seq<Step>)
    requires t.Valid() && 0 <= w <= t.work && start < t.ttl && Legal(t, Resting(t, start + w + t.sweep), steps)
    ensures Legal(t, Busy(t, start, {}, t.heartbeat, start), all)
    ensures Run(t, Busy(t, start, {}, t.heartbeat, start), all) == Run(t, Resting(t, start + w + t.sweep), steps)
  {
    all := FinishWork(t, start, w, steps);
    var swept := SweepNothing(t, start, t.heartbeat);
    Prepend(t, Busy(t, start, {}, t.heartbeat, start), SweepIndex(0, []), all);
    all := [SweepIndex(0, [])] + all;
  }

  // The same once the iteration has swept.
  lemma FinishWork(t: Timing, start: Time, w: Time, steps: seq<Step>) returns (all: seq<Step>)
    requires t.Valid() && 0 <= w <= t.work && Legal(t, Resting(t, start + w + t.sweep), steps)
    ensures var swept := Cluster(map[0 := Host(map[7 := {SOCKET}], Working(start, {}, t.heartbeat, true))],
                                 Resting(t, start).db, start);
            Legal(t, swept, all) && Run(t, swept, all) == Run(t, Resting(t, start + w + t.sweep), steps)
  {
    var asleep := Cluster(map[0 := Host(map[7 := {SOCKET}], Sleeping(start + w + t.sweep, t.heartbeat))],
                          Resting(t, 0).db, start + w);
    assert Apply(t, asleep, Tick(t.sweep)) == Resting(t, start + w + t.sweep);
    Prepend(t, asleep, Tick(t.sweep), steps);
    all := [Tick(t.sweep)] + steps;
    var tired := Cluster(map[0 := Host(map[7 := {SOCKET}], Working(start, {}, t.heartbeat, true))],
                         Resting(t, 0).db, start + w);
    assert Apply(t, tired, Sleep(0)) == asleep;
    Prepend(t, tired, Sleep(0), all);
    all := [Sleep(0)] + all;
    var swept := tired.(now := start);
    assert Apply(t, swept, Tick(w)) == tired;
    Prepend(t, swept, Tick(w), all);
    all := [Tick(w)] + all;
  }

  // One iteration between heartbeats.
  lemma IdleIteration(t: Timing, now: Time, w: Time, steps: seq<Step>) returns (all: seq<Step>)
    requires t.Valid() && 0 <= w <= t.work && now < t.heartbeat < t.ttl && Legal(t, Resting(t, now + w + t.sweep), steps)
    ensures Legal(t, Resting(t, now), all)
    ensures Run(t, Resting(t, now), all) == Run(t, Resting(t, now + w + t.sweep), steps)
  {
    all := FinishIteration(t, now, w, steps);
    assert Apply(t, Resting(t, now), Wake(0)) == Busy(t, now, {}, t.heartbeat, now);
    Prepend(t, Resting(t, now), Wake(0), all);
    all := [Wake(0)] + all;
  }

  lemma OneLess(t: Timing, n: nat, due: Time) returns (w: Time)
    requires 0 < n && 0 <= t.work && n * t.sweep <= due <= n * (t.sweep + t.work)
    ensures 0 <= w <= t.work
    ensures (n - 1) * t.sweep <= due - t.sweep - w <= (n - 1) * (t.sweep + t.work)
  {
    w := Min(t.work, due - n * t.sweep);
    assert (n - 1) * t.sweep == n * t.sweep - t.sweep;
    assert (n - 1) * (t.sweep + t.work) == n * (t.sweep + t.work) - t.sweep - t.work;
    assert (n - 1) * (t.sweep + t.work) == (n - 1) * t.sweep + (n - 1) * t.work;
    assert 0 <= (n - 1) * t.work;
  }

  // n iterations can take any time between n sleeps and n sleeps with full work.
  lemma {:induction false} IdleIterations(t: Timing, now: Time, n: nat, until: Time, steps: seq<Step>)
      returns (all: seq<Step>)
    requires t.Valid() && After(t, n, until - now)
    requires until < t.heartbeat < t.ttl && Legal(t, Resting(t, until), steps)
    ensures Legal(t, Resting(t, now), all) && Run(t, Resting(t, now), all) == Run(t, Resting(t, until), steps)
    decreases n
  {
    if n == 0 {
      all := steps;
    } else {
      var w := OneLess(t, n, until - now);
      var next := now + w + t.sweep;
      assert After(t, n - 1, until - next);
      NotBefore(t, n - 1, next, until);
      all := IdleIterations(t, next, n - 1, until, steps);
      all := IdleIteration(t, now, w, all);
    }
  }

  lemma NotBefore(t: Timing, n: nat, next: Time, until: Time)
    requires t.Valid() && After(t, n, until - next)
    ensures next <= until
  {
    Apart(n, t.sweep, t.work);
  }

  // The last quiet iteration and the heartbeat it delays both take all their time.
  lemma LateFrom(t: Timing, start: Time) returns (all: seq<Step>)
    requires t.Valid() && start < t.heartbeat < t.ttl
    requires t.heartbeat <= start + t.work + t.sweep && t.ttl <= start + 2 * t.work + t.sweep
    ensures Legal(t, Busy(t, start, {}, t.heartbeat, start), all)
    ensures Lapsed(Run(t, Busy(t, start, {}, t.heartbeat, start), all))
  {
    var late := LateRefresh(t, start + t.work + t.sweep);
    all := FinishIteration(t, start, t.work, late);
  }

  // A heartbeat that begins late and has not reached user 7 when its work bound is used up.
  lemma LateRefresh(t: Timing, now: Time) returns (all: seq<Step>)
    requires t.Valid() && t.heartbeat <= now && t.ttl <= now + t.work
    ensures Legal(t, Resting(t, now), all) && Lapsed(Run(t, Resting(t, now), all))
  {
    var late := Busy(t, now, {7}, now + t.heartbeat, now + t.work);
    LapsedWhenLate(t, now, now + t.heartbeat);
    var beating := Busy(t, now, {7}, now + t.heartbeat, now);
    assert Apply(t, beating, Tick(t.work)) == late;
    Prepend(t, beating, Tick(t.work), []);
    all := [Tick(t.work)] + [];
    assert Apply(t, Resting(t, now), Wake(0)) == beating by { FirstLease(t.ttl); }
    Prepend(t, Resting(t, now), Wake(0), all);
    all := [Wake(0)] + all;
  }

  lemma LapsedWhenLate(t: Timing, now: Time, next: Time)
    requires t.ttl <= now + t.work
    ensures Lapsed(Busy(t, now, {7}, next, now + t.work))
  {
    var late := Busy(t, now, {7}, next, now + t.work);
    assert 0 in late.hosts && 7 in late.hosts[0].sockets && 0 in late.db.Leases(7);
    assert late.db.Leases(7)[0] <= late.now;
  }

  // The first heartbeat finds nobody; user 7 connects while it works.
  function Booting(): Cluster {
    Cluster(map[0 := Host(map[], Sleeping(0, 0))], Db(map[], map[]), 0)
  }

  lemma BootRun(t: Timing, steps: seq<Step>) returns (all: seq<Step>)
    requires t.Valid() && Legal(t, Busy(t, 0, {}, t.heartbeat, 0), steps)
    ensures Legal(t, Booting(), all) && Run(t, Booting(), all) == Run(t, Busy(t, 0, {}, t.heartbeat, 0), steps)
  {
    var c := Booting();
    var woken := Cluster(map[0 := Host(map[], Working(0, {}, t.heartbeat, false))], c.db, 0);
    FirstLease(t.ttl);
    assert Apply(t, woken, Connect(0, 7, SOCKET)) == Busy(t, 0, {}, t.heartbeat, 0);
    Prepend(t, woken, Connect(0, 7, SOCKET), steps);
    all := [Connect(0, 7, SOCKET)] + steps;
    var nobody: SocketTable := map[];
    assert nobody.Keys == {};
    assert Apply(t, c, Wake(0)) == woken;
    Prepend(t, c, Wake(0), all);
    all := [Wake(0)] + all;
  }

  // The iteration after the last quiet one finds its heartbeat due.
  lemma BeatFollows(t: Timing)
    requires t.Valid()
    ensures t.heartbeat <= t.LastQuiet() + t.sweep
  {
    var most := (t.heartbeat - 1) / t.sweep;
    Apart(most, t.sweep, t.work);
    assert t.heartbeat - 1 < most * t.sweep + t.sweep;
  }

  // A start of an iteration from which a delayed heartbeat comes too late.
  predicate TooLate(t: Timing, quiet: Time) {
    && quiet < t.heartbeat < t.ttl
    && t.heartbeat <= quiet + t.work + t.sweep && t.ttl <= quiet + 2 * t.work + t.sweep
  }

  lemma LapseFromQuiet(t: Timing, quiet: Time) returns (all: seq<Step>)
    requires t.Valid() && TooLate(t, quiet)
    ensures Legal(t, Resting(t, quiet), all) && Lapsed(Run(t, Resting(t, quiet), all))
  {
    all := LateFrom(t, quiet);
    assert Apply(t, Resting(t, quiet), Wake(0)) == Busy(t, quiet, {}, t.heartbeat, quiet);
    Prepend(t, Resting(t, quiet), Wake(0), all);
    all := [Wake(0)] + all;
  }

  // From the wake-up n iterations before.
  lemma LapseFromResting(t: Timing, n: nat, next: Time, quiet: Time) returns (all: seq<Step>)
    requires t.Valid() && TooLate(t, quiet) && After(t, n, quiet - next)
    ensures Legal(t, Resting(t, next), all) && Lapsed(Run(t, Resting(t, next), all))
  {
    var late := LapseFromQuiet(t, quiet);
    all := IdleIterations(t, next, n, quiet, late);
  }

  // One more iteration before, begun at time 0.
  lemma LapseAfterFirst(t: Timing, w: Time, n: nat, quiet: Time) returns (all: seq<Step>)
    requires t.Valid() && TooLate(t, quiet) && 0 <= w <= t.work && After(t, n, quiet - w - t.sweep)
    ensures Legal(t, Busy(t, 0, {}, t.heartbeat, 0), all) && Lapsed(Run(t, Busy(t, 0, {}, t.heartbeat, 0), all))
  {
    var rest := LapseFromResting(t, n, 0 + w + t.sweep, quiet);
    all := FinishIteration(t, 0, w, rest);
  }

  lemma LapseFromBusy(t: Timing, n: nat, quiet: Time) returns (all: seq<Step>)
    requires t.Valid() && TooLate(t, quiet) && After(t, n, quiet)
    ensures Legal(t, Busy(t, 0, {}, t.heartbeat, 0), all) && Lapsed(Run(t, Busy(t, 0, {}, t.heartbeat, 0), all))
  {
    if n == 0 {
      all := LateFrom(t, 0);
    } else {
      var w := OneLess(t, n, quiet);
      all := LapseAfterFirst(t, w, n - 1, quiet);
    }
  }

  // The run after the first wake-up, in an iteration that found nobody to refresh.
  lemma LapseFromBoot(t: Timing) returns (all: seq<Step>)
    requires t.Valid() && t.heartbeat < t.ttl <= t.LastQuiet() + t.sweep + 2 * t.work
    ensures Legal(t, Busy(t, 0, {}, t.heartbeat, 0), all) && Lapsed(Run(t, Busy(t, 0, {}, t.heartbeat, 0), all))
  {
    var quiet := t.LastQuiet();
    LastQuietReached(t);
    BeatFollows(t);
    all := LapseFromBusy(t, (t.heartbeat - 1) / t.sweep, quiet);
  }

  lemma LapseReachable(t: Timing) returns (all: seq<Step>)
    requires t.Valid() && t.heartbeat < t.ttl <= t.LastQuiet() + t.sweep + 2 * t.work
    ensures Legal(t, Booting(), all) && Lapsed(Run(t, Booting(), all))
  {
    all := LapseFromBoot(t);
    all := BootRun(t, all);
  }

  /**
   * The room is exact: for every timing whose heartbeat is shorter than the lifetime, as the settings
   * check, no run lets a connected user's lease lapse if and only if the lifetime exceeds the start of the
   * last quiet iteration plus a sleep and two bounded iterations.
   */
  lemma {:induction false} RoomIsExact(t: Timing)
    requires t.Valid() && t.heartbeat < t.ttl
    ensures NeverLapses(t) <==> t.LastQuiet() + t.sweep + 2 * t.work < t.ttl
  {
    RoomInNumbers(t);
    if t.Sufficient() {
      forall c, steps | Initial(c) && Legal(t, c, steps)
        ensures !Lapsed(Run(t, c, steps))
      {
        LeaseContinuity(t, c, steps);
      }
    } else {
      var steps := LapseReachable(t);
      assert Initial(Booting());
    }
  }

  /** The configured check, heartbeat shorter than lifetime, is not enough: 4 < 5 with a sweep each second. */
  lemma {:induction false} ValidatedTimingLapses()
    ensures Timing(5, 4, 1, 1).heartbeat < Timing(5, 4, 1, 1).ttl && !NeverLapses(Timing(5, 4, 1, 1))
  {
    RoomIsExact(Timing(5, 4, 1, 1));
  }

  // ---------- A stale refresh ----------

  /**
   * A heartbeat refresh keeps the cluster in step with the single manager exactly when the user it
   * refreshes is still connected there; otherwise a user without any socket is reported online.
   */
  lemma {:induction false} RefreshExact(t: Timing, c: Cluster, m: SocketTable, i: InstanceId, u: UserId)
    requires t.Valid() && t.Sufficient() && Coupled(t, c, m) && Enabled(t, c, Refresh(i, u))
    ensures KeysCoupled(t, Apply(t, c, Refresh(i, u))) <==> u in c.hosts[i].sockets
    ensures Apply(t, c, Refresh(i, u)).db.Online(u, c.now)
  {
    var d := Apply(t, c, Refresh(i, u));
    assert i in d.db.Leases(u);
    assert i in Live(d.db.Leases(u), c.now);
    if u in c.hosts[i].sockets {
      assert KeysCoupled(t, c);
      assert Live(c.db.Leases(u), c.now) == c.db.Leases(u) by { NothingLapsed(t, c, m, u, c.now); }
      RefreshKeys(t, c, i, u);
    }
  }

  function Served(t: Timing, sockets: SocketTable, loop: Loop): Cluster {
    Cluster(map[0 := Host(sockets, loop)], Db(map[7 := map[0 := t.ttl]], map[7 := t.ttl]), 0)
  }

  lemma ThenAnswers(t: Timing, c: Cluster, m: SocketTable, step: Step, rest: seq<Step>, answers: seq<bool>,
                    single: seq<bool>) returns (all: seq<Step>)
    requires Enabled(t, c, step) && Legal(t, Apply(t, c, step), rest)
    requires Answers(t, Apply(t, c, step), rest) == answers && SingleAnswers(Single(m, step), rest) == single
    ensures Legal(t, c, all) && Answers(t, c, all) == Answer(t, c, step) + answers
    ensures SingleAnswers(m, all) == SingleAnswer(m, step) + single
  {
    Prepend(t, c, step, rest);
    all := [step] + rest;
    assert all[1..] == rest;
  }

  const NOBODY: SocketTable := map[]
  const ONE: SocketTable := map[7 := {SOCKET}]

  // User 7 has left while a heartbeat has them listed.
  function Left(t: Timing): Cluster {
    Cluster(map[0 := Host(NOBODY, Working(0, {7}, t.heartbeat, false))], Db(map[], map[]), 0)
  }

  lemma Leaves(t: Timing)
    requires t.Valid()
    ensures var c, step := Served(t, ONE, Working(0, {7}, t.heartbeat, false)), Disconnect(0, 7, SOCKET);
            && Enabled(t, c, step) && Apply(t, c, step) == Left(t) && Answer(t, c, step) == [true]
            && Single(ONE, step) == NOBODY && SingleAnswer(ONE, step) == [true]
  {
    var c := Served(t, ONE, Working(0, {7}, t.heartbeat, false));
    assert ONE[7] - {SOCKET} == {};
    assert Removed(ONE, 7, SOCKET) == NOBODY;
    assert c.db.LeasesWithout(0, 7, 0) == map[];
  }

  lemma Refreshes(t: Timing)
    requires t.Valid()
    ensures var step := Refresh(0, 7);
            && Enabled(t, Left(t), step)
            && Apply(t, Left(t), step) == Served(t, NOBODY, Working(0, {}, t.heartbeat, false))
  {
    FirstLease(t.ttl);
    assert {7} - {7} == {};
  }

  lemma StillOnline(t: Timing)
    requires t.Valid()
    ensures Answer(t, Served(t, NOBODY, Working(0, {}, t.heartbeat, false)), Query(7)) == [true]
  {
    assert 0 in Live(Served(t, NOBODY, Working(0, {}, t.heartbeat, false)).db.Leases(7), 0);
  }

  // The heartbeat had listed user 7; the user leaves, is refreshed and is asked for.
  lemma LeaveAndRefresh(t: Timing) returns (steps: seq<Step>)
    requires t.Valid()
    ensures var c := Served(t, ONE, Working(0, {7}, t.heartbeat, false));
            Legal(t, c, steps) && Answers(t, c, steps) == [true, true]
    ensures SingleAnswers(ONE, steps) == [true, false]
  {
    var there, gone := Served(t, ONE, Working(0, {7}, t.heartbeat, false)), Served(t, NOBODY, Working(0, {}, t.heartbeat, false));
    StillOnline(t);
    steps := ThenAnswers(t, gone, NOBODY, Query(7), [], [], []);
    Refreshes(t);
    steps := ThenAnswers(t, Left(t), NOBODY, Refresh(0, 7), steps, [true], [false]);
    Leaves(t);
    steps := ThenAnswers(t, there, ONE, Disconnect(0, 7, SOCKET), steps, [true], [false]);
  }

  lemma Arrives(t: Timing)
    requires t.Valid()
    ensures var step := Connect(0, 7, SOCKET);
            && Enabled(t, Booting(), step) && Apply(t, Booting(), step) == Served(t, ONE, Sleeping(0, 0))
            && Answer(t, Booting(), step) == [true] && Single(NOBODY, step) == ONE && SingleAnswer(NOBODY, step) == [true]
  {
    FirstLease(t.ttl);
  }

  lemma Beats(t: Timing)
    requires t.Valid()
    ensures var c := Served(t, ONE, Sleeping(0, 0));
            Enabled(t, c, Wake(0)) && Apply(t, c, Wake(0)) == Served(t, ONE, Working(0, {7}, t.heartbeat, false))
  {
    FirstLease(t.ttl);
  }

  /** A legal run whose last answer differs from the single manager's: user 7 has left but is online. */
  lemma {:induction false} StaleRefreshRun(t: Timing) returns (steps: seq<Step>)
    requires t.Valid() && t.Sufficient()
    ensures Legal(t, Booting(), steps) && Answers(t, Booting(), steps) == [true, true, true]
    ensures SingleAnswers(map[], steps) == [true, true, false]
  {
    steps := LeaveAndRefresh(t);
    Beats(t);
    steps := ThenAnswers(t, Served(t, ONE, Sleeping(0, 0)), ONE, Wake(0), steps, [true, true], [true, false]);
    Arrives(t);
    steps := ThenAnswers(t, Booting(), NOBODY, Connect(0, 7, SOCKET), steps, [true, true], [true, false]);
  }
}
