/**
 * How soon the cluster notices a crash: the leases of a dead instance lapse, and a surviving
 * instance's sweeps reach and report the user, whatever the other instances do meanwhile.
 */
module PresenceDetection {
  import opened Basics
  import opened SortedSets
  import opened PresenceDb
  import opened Connections
  import opened PresenceCluster
  import Drain = PresenceDrain

  // ---------- Cluster steps as operations on the shared keys ----------

  ghost function OpOf(c: Cluster, step: Step): Option<Drain.Op> {
    match step
    case Connect(i, u, s) =>
      if i in c.hosts && u !in c.hosts[i].sockets then Some(Drain.Connected(i, u, c.now)) else None
    case Disconnect(i, u, s) =>
      if i in c.hosts && LastSocket(c.hosts[i].sockets, u, s) then Some(Drain.Disconnected(i, u, c.now)) else None
    case Query(u) => Some(Drain.Asked(u, c.now))
    case Refresh(i, u) => Some(Drain.Connected(i, u, c.now))
    case SweepIndex(i, batch) =>
      if i in c.hosts && c.hosts[i].loop.Working? then Some(Drain.Swept(c.hosts[i].loop.start, batch)) else None
    case _ => None
  }

  lemma StepIsOp(t: Timing, c: Cluster, step: Step)
    requires Enabled(t, c, step)
    ensures match OpOf(c, step)
            case None => Apply(t, c, step).db == c.db
            case Some(op) => Drain.Enabled(c.db, op) && Apply(t, c, step).db == Drain.Apply(t.ttl, c.db, op)
  {
  }

  // ---------- What every run keeps ----------

  predicate LoopTimely(t: Timing, now: Time, loop: Loop) {
    match loop
    case Sleeping(wake, _) => now <= wake <= now + t.sweep
    case Working(start, _, _, _) => start <= now <= start + t.work
  }

  ghost predicate Timely(t: Timing, c: Cluster) {
    forall i :: i in c.hosts ==> LoopTimely(t, c.now, c.hosts[i].loop)
  }

  // Leased users are indexed, and no deadline is further away than a lifetime.
  ghost predicate Tidy(db: Db, latest: Time) {
    && (forall u :: db.Leases(u) != map[] ==> u in db.users)
    && forall u :: Drain.DueBy(db, u, latest)
  }

  lemma StepTimely(t: Timing, c: Cluster, step: Step)
    requires t.Valid() && Timely(t, c) && Enabled(t, c, step)
    ensures Timely(t, Apply(t, c, step))
  {
  }

  // No operation but a connect adds a lease or changes one.
  lemma LeaseFrom(ttl: Time, db: Db, op: Drain.Op, v: UserId, i: InstanceId)
    requires Drain.Enabled(db, op) && i in Drain.Apply(ttl, db, op).Leases(v)
    ensures var lease := Drain.Apply(ttl, db, op).Leases(v)[i];
            (op.Connected? && lease == op.at + ttl) || (i in db.Leases(v) && db.Leases(v)[i] == lease)
  {
    if op.Swept? {
      if v in op.batch {
        assert v in Expired(db.users, op.at);
        Drain.SweepTakes(db, op.batch, op.at, v);
      } else {
        Drain.SweepSpares(db, op.batch, op.at, v);
      }
    }
  }

  lemma UserTidy(ttl: Time, db: Db, op: Drain.Op, now: Time, v: UserId)
    requires 0 < ttl && Drain.Enabled(db, op) && Tidy(db, now + ttl) && (op.Connected? ==> op.at == now)
    ensures Drain.Apply(ttl, db, op).Leases(v) != map[] ==> v in Drain.Apply(ttl, db, op).users
    ensures Drain.DueBy(Drain.Apply(ttl, db, op), v, now + ttl)
  {
    var d := Drain.Apply(ttl, db, op);
    assert Drain.DueBy(db, v, now + ttl);
    forall i | i in d.Leases(v)
      ensures d.Leases(v)[i] <= now + ttl
    {
      LeaseFrom(ttl, db, op, v, i);
    }
    match op {
      case Swept(at, batch) =>
        if v in batch {
          assert v in Expired(db.users, at);
          Drain.SweepTakes(db, batch, at, v);
          if v in d.users {
            var i := TopMember(Live(db.Leases(v), at));
          }
        } else {
          Drain.SweepSpares(db, batch, at, v);
        }
      case Disconnected(i, u, at) =>
        if v == u && v in d.users {
          var k := TopMember(db.LeasesWithout(i, u, at));
        }
      case _ =>
    }
  }

  lemma StepTidy(t: Timing, c: Cluster, step: Step)
    requires t.Valid() && Tidy(c.db, c.now + t.ttl) && Enabled(t, c, step)
    ensures Tidy(Apply(t, c, step).db, Apply(t, c, step).now + t.ttl)
  {
    StepIsOp(t, c, step);
    var d := Apply(t, c, step);
    forall v
      ensures d.db.Leases(v) != map[] ==> v in d.db.users
      ensures Drain.DueBy(d.db, v, d.now + t.ttl)
    {
      assert Drain.DueBy(c.db, v, c.now + t.ttl);
      if OpOf(c, step).Some? {
        UserTidy(t.ttl, c.db, OpOf(c, step).value, c.now, v);
      }
    }
  }

  lemma {:induction false} RunTidy(t: Timing, c: Cluster, steps: seq<Step>)
    requires t.Valid() && Timely(t, c) && Tidy(c.db, c.now + t.ttl) && Legal(t, c, steps)
    ensures var d := Run(t, c, steps); Timely(t, d) && Tidy(d.db, d.now + t.ttl) && c.now <= d.now
    decreases |steps|
  {
    if steps != [] {
      StepTimely(t, c, steps[0]);
      StepTidy(t, c, steps[0]);
      RunTidy(t, Apply(t, c, steps[0]), steps[1..]);
    }
  }

  // ---------- A survivor's sweeps ----------

  function Rounds(t: Timing, k: nat): Time {
    k * (t.sweep + t.work)
  }

  lemma OneRound(t: Timing, k: nat)
    ensures Rounds(t, k + 1) == Rounds(t, k) + t.sweep + t.work
  {
  }

  // The latest time by which the loop has done k + 1 more sweeps that look at everything due.
  function DoneBy(t: Timing, loop: Loop, due: Time, k: nat): Time {
    match loop
    case Sleeping(wake, _) => wake + t.work + Rounds(t, k)
    case Working(start, _, _, swept) =>
      start + t.work + if !swept && due <= start then Rounds(t, k) else Rounds(t, k + 1)
  }

  lemma Nonnegative(t: Timing, k: nat)
    requires t.Valid()
    ensures 0 <= Rounds(t, k)
  {
  }

  lemma DeadlineFirst(t: Timing, loop: Loop, due: Time, k: nat)
    requires t.Valid()
    ensures Deadline(t, loop) <= DoneBy(t, loop, due, k)
  {
    Nonnegative(t, k);
    Nonnegative(t, k + 1);
  }

  ghost predicate CountingSweep(c: Cluster, step: Step, h: InstanceId, due: Time) {
    step.SweepIndex? && step.i == h && h in c.hosts && c.hosts[h].loop.Working? && due <= c.hosts[h].loop.start
  }

  // A counting sweep uses up one round; no other step of the run postpones the rounds that are left.
  lemma RoundsNotPostponed(t: Timing, c: Cluster, step: Step, h: InstanceId, due: Time, k: nat)
    requires t.Valid() && Timely(t, c) && Enabled(t, c, step) && h in c.hosts && step != Crash(h) && due <= c.now
    ensures h in Apply(t, c, step).hosts
    ensures !CountingSweep(c, step, h, due) ==>
              DoneBy(t, Apply(t, c, step).hosts[h].loop, due, k) <= DoneBy(t, c.hosts[h].loop, due, k)
    ensures CountingSweep(c, step, h, due) && 0 < k ==>
              DoneBy(t, Apply(t, c, step).hosts[h].loop, due, k - 1) <= DoneBy(t, c.hosts[h].loop, due, k)
  {
    OneRound(t, k);
    assert LoopTimely(t, c.now, c.hosts[h].loop);
  }

  lemma DueShrinks(t: Timing, c: Cluster, step: Step, due: Time)
    requires t.Valid() && Enabled(t, c, step) && due <= c.now
    ensures Expired(Apply(t, c, step).db.users, due) <= Expired(c.db.users, due)
  {
    StepIsOp(t, c, step);
    if OpOf(c, step).Some? {
      Drain.DueShrinks(t.ttl, c.db, OpOf(c, step).value, due);
    }
  }

  predicate Survives(steps: seq<Step>, h: InstanceId) {
    Crash(h) !in steps
  }

  // What was due is gone once a surviving instance has had the time for enough sweeps.
  lemma {:induction false} SurvivorDrains(t: Timing, c: Cluster, steps: seq<Step>, h: InstanceId, due: Time, k: nat)
    requires t.Valid() && Timely(t, c) && h in c.hosts && Survives(steps, h) && Legal(t, c, steps)
    requires due <= c.now && |Expired(c.db.users, due)| <= Drain.BATCH * (k + 1)
    ensures DoneBy(t, c.hosts[h].loop, due, k) < Run(t, c, steps).now ==> Expired(Run(t, c, steps).db.users, due) == {}
    decreases |steps|
  {
    if steps == [] {
      DeadlineFirst(t, c.hosts[h].loop, due, k);
      assert LoopTimely(t, c.now, c.hosts[h].loop);
    } else {
      var step, d := steps[0], Apply(t, c, steps[0]);
      assert steps == [step] + steps[1..];
      StepTimely(t, c, step);
      DueShrinks(t, c, step, due);
      SubsetSize(Expired(d.db.users, due), Expired(c.db.users, due));
      RoundsNotPostponed(t, c, step, h, due, k);
      if CountingSweep(c, step, h, due) {
        Drain.SweepTakesDue(c.db, c.hosts[h].loop.start, step.batch, due);
        if k == 0 {
          NothingDue(t, d, steps[1..], due);
        } else {
          SurvivorDrains(t, d, steps[1..], h, due, k - 1);
        }
      } else {
        SurvivorDrains(t, d, steps[1..], h, due, k);
      }
    }
  }

  lemma {:induction false} NothingDue(t: Timing, c: Cluster, steps: seq<Step>, due: Time)
    requires t.Valid() && Legal(t, c, steps) && due <= c.now && |Expired(c.db.users, due)| <= 0
    ensures Expired(Run(t, c, steps).db.users, due) == {}
    decreases |steps|
  {
    if steps != [] {
      DueShrinks(t, c, steps[0], due);
      SubsetSize(Expired(Apply(t, c, steps[0]).db.users, due), Expired(c.db.users, due));
      NothingDue(t, Apply(t, c, steps[0]), steps[1..], due);
    }
  }

  // ---------- A deserted user ----------

  // No live instance has a socket of the user or is about to refresh the user.
  ghost predicate Deserted(c: Cluster, u: UserId) {
    forall i :: i in c.hosts ==>
      u !in c.hosts[i].sockets && (c.hosts[i].loop.Working? ==> u !in c.hosts[i].loop.pending)
  }

  // Refreshes of the user that heartbeats listed before are over within one bounded iteration.
  ghost predicate OnlyOldRefreshes(c: Cluster, u: UserId, began: Time) {
    forall i :: i in c.hosts ==>
      && u !in c.hosts[i].sockets
      && (c.hosts[i].loop.Working? && u in c.hosts[i].loop.pending ==> c.hosts[i].loop.start <= began)
  }

  lemma {:induction false} OldRefreshesRun(t: Timing, c: Cluster, steps: seq<Step>, u: UserId, began: Time)
    requires t.Valid() && Timely(t, c) && OnlyOldRefreshes(c, u, began) && Legal(t, c, steps)
    requires forall step :: step in steps ==> !Connects(step, u)
    ensures OnlyOldRefreshes(Run(t, c, steps), u, began) && Timely(t, Run(t, c, steps))
    decreases |steps|
  {
    if steps != [] {
      StepTimely(t, c, steps[0]);
      OldRefreshesStep(t, c, steps[0], u, began);
      OldRefreshesRun(t, Apply(t, c, steps[0]), steps[1..], u, began);
    }
  }

  lemma OldRefreshesStep(t: Timing, c: Cluster, step: Step, u: UserId, began: Time)
    requires Enabled(t, c, step) && OnlyOldRefreshes(c, u, began) && !Connects(step, u)
    ensures OnlyOldRefreshes(Apply(t, c, step), u, began)
  {
  }

  /**
   * Desertion is soon complete: once no live instance has a socket of the user, and the user does not connect,
   * no heartbeat is about to refresh the user either as soon as one bounded iteration has passed.
   */
  lemma {:induction false} SoonDeserted(t: Timing, c: Cluster, steps: seq<Step>, u: UserId)
    requires t.Valid() && Timely(t, c) && Legal(t, c, steps) && forall step :: step in steps ==> !Connects(step, u)
    requires forall i :: i in c.hosts ==> u !in c.hosts[i].sockets
    requires c.now + t.work < Run(t, c, steps).now
    ensures Deserted(Run(t, c, steps), u)
  {
    var d := Run(t, c, steps);
    forall i | i in c.hosts && c.hosts[i].loop.Working?
      ensures c.hosts[i].loop.start <= c.now
    {
      assert LoopTimely(t, c.now, c.hosts[i].loop);
    }
    OldRefreshesRun(t, c, steps, u, c.now);
    forall i | i in d.hosts
      ensures u !in d.hosts[i].sockets && (d.hosts[i].loop.Working? ==> u !in d.hosts[i].loop.pending)
    {
      assert LoopTimely(t, d.now, d.hosts[i].loop);
    }
  }

  predicate Connects(step: Step, u: UserId) {
    step.Connect? && step.u == u
  }

  // How often sweeps report the user.
  ghost function Reports(t: Timing, c: Cluster, steps: seq<Step>, u: UserId): nat
    requires Legal(t, c, steps)
    decreases |steps|
  {
    if steps == [] then 0
    else
      (if steps[0].SweepIndex? && u in c.db.SweepReports(steps[0].batch, c.hosts[steps[0].i].loop.start) then 1 else 0)
      + Reports(t, Apply(t, c, steps[0]), steps[1..], u)
  }

  lemma DesertedStep(t: Timing, c: Cluster, step: Step, u: UserId, due: Time)
    requires Enabled(t, c, step) && Deserted(c, u) && !Connects(step, u) && Drain.DueBy(c.db, u, due)
    ensures Deserted(Apply(t, c, step), u) && Drain.DueBy(Apply(t, c, step).db, u, due)
    ensures u in Apply(t, c, step).db.users ==> u in c.db.users
    ensures (step.SweepIndex? && u in c.db.SweepReports(step.batch, c.hosts[step.i].loop.start))
       <==> u in c.db.users && u !in Apply(t, c, step).db.users
  {
    StepIsOp(t, c, step);
    if OpOf(c, step).Some? {
      Drain.OthersStep(t.ttl, c.db, OpOf(c, step).value, u, due);
    }
  }

  lemma {:induction false} DesertedRun(t: Timing, c: Cluster, steps: seq<Step>, u: UserId, due: Time)
    requires Legal(t, c, steps) && Deserted(c, u) && Drain.DueBy(c.db, u, due)
    requires forall step :: step in steps ==> !Connects(step, u)
    ensures Deserted(Run(t, c, steps), u) && Drain.DueBy(Run(t, c, steps).db, u, due)
    ensures Reports(t, c, steps, u) == if u in c.db.users && u !in Run(t, c, steps).db.users then 1 else 0
    ensures u in Run(t, c, steps).db.users ==> u in c.db.users
    decreases |steps|
  {
    if steps != [] {
      DesertedStep(t, c, steps[0], u, due);
      DesertedRun(t, Apply(t, c, steps[0]), steps[1..], u, due);
    }
  }

  /**
   * Bounded detection: take any state of any run and a user whom no live instance serves any more, but whom
   * the index holds. A lifetime later all the user's deadlines have passed; and once a surviving instance has
   * then had the time for one bounded iteration and k + 1 sweeps, with at most 100 (k + 1) entries due, the
   * user has left the index and has been reported exactly once, by whichever instance got there.
   */
  lemma {:induction false} DesertionDetected(t: Timing, c: Cluster, wait: seq<Step>, more: seq<Step>, u: UserId,
                                             h: InstanceId, k: nat)
    requires t.Valid() && Timely(t, c) && Tidy(c.db, c.now + t.ttl) && Deserted(c, u) && u in c.db.users
    requires Legal(t, c, wait) && Legal(t, Run(t, c, wait), more)
    requires forall step :: step in wait || step in more ==> !Connects(step, u)
    requires var e := Run(t, c, wait);
             && c.now + t.ttl <= e.now && h in e.hosts && Survives(more, h)
             && |Expired(e.db.users, c.now + t.ttl)| <= Drain.BATCH * (k + 1)
             && e.now + t.work + Rounds(t, k + 1) < Run(t, e, more).now
    ensures u !in Run(t, Run(t, c, wait), more).db.users
    ensures Reports(t, c, wait, u) + Reports(t, Run(t, c, wait), more, u) == 1
  {
    var due, e := c.now + t.ttl, Run(t, c, wait);
    assert Drain.DueBy(c.db, u, due);
    RunTidy(t, c, wait);
    DesertedRun(t, c, wait, u, due);
    DesertedRun(t, e, more, u, due);
    SurvivorBound(t, e, h, due, k);
    SurvivorDrains(t, e, more, h, due, k);
    var left := Run(t, e, more).db.users;
    assert u in left ==> u in Expired(left, due);
  }

  lemma SurvivorBound(t: Timing, e: Cluster, h: InstanceId, due: Time, k: nat)
    requires t.Valid() && Timely(t, e) && h in e.hosts
    ensures DoneBy(t, e.hosts[h].loop, due, k) <= e.now + t.work + Rounds(t, k + 1)
  {
    OneRound(t, k);
    assert LoopTimely(t, e.now, e.hosts[h].loop);
  }

  lemma InitialTidy(t: Timing, c: Cluster)
    requires t.Valid() && Initial(c)
    ensures Timely(t, c) && Tidy(c.db, c.now + t.ttl)
  {
  }

  /**
   * Crash detection: when the only instance that serves a user crashes and the user does not come back,
   * some survivor reports the user exactly once within a lifetime, a sleep and two bounded iterations, plus
   * one round of sleep and work for each further 100 entries that were due by then.
   */
  lemma {:induction false} CrashDetected(t: Timing, c0: Cluster, before: seq<Step>, i: InstanceId, wait: seq<Step>,
                                         more: seq<Step>, u: UserId, h: InstanceId, k: nat)
    requires t.Valid() && t.Sufficient() && Initial(c0) && Legal(t, c0, before)
    requires var b := Run(t, c0, before); i in b.hosts && u in b.hosts[i].sockets
    requires var c := Apply(t, Run(t, c0, before), Crash(i));
             && Deserted(c, u) && Legal(t, c, wait) && Legal(t, Run(t, c, wait), more)
             && (forall step :: step in wait || step in more ==> !Connects(step, u))
             && c.now + t.ttl <= Run(t, c, wait).now && h in Run(t, c, wait).hosts && Survives(more, h)
             && |Expired(Run(t, c, wait).db.users, c.now + t.ttl)| <= Drain.BATCH * (k + 1)
             && Run(t, c, wait).now + t.work + Rounds(t, k + 1) < Run(t, Run(t, c, wait), more).now
    ensures var c := Apply(t, Run(t, c0, before), Crash(i));
            && u !in Run(t, Run(t, c, wait), more).db.users
            && Reports(t, c, wait, u) + Reports(t, Run(t, c, wait), more, u) == 1
  {
    var b := Run(t, c0, before);
    InitialTidy(t, c0);
    RunTidy(t, c0, before);
    LeaseContinuity(t, c0, before);
    assert i in b.db.Leases(u);
    StepTimely(t, b, Crash(i));
    DesertionDetected(t, Apply(t, b, Crash(i)), wait, more, u, h, k);
  }
}
