/**
 * Presence sweeps at the grain of single Redis commands: any number of sweepers interleaved with
 * each other, with the atomic scripts, with presence reads and with key expiry.
 */
module PresenceSweep {
  import opened Basics
  import opened SortedSets
  import opened PresenceDb

  type SweeperId = nat

  // Where a sweeper is in its sweep. `at` is the time its iteration read, `todo` the users still listed.
  datatype Phase =
    | Idle
    | Listed(at: Time, todo: seq<UserId>)
    | Claimed(at: Time, u: UserId, todo: seq<UserId>)
    | Evicted(at: Time, u: UserId, todo: seq<UserId>)
    | Restoring(at: Time, u: UserId, score: Time, todo: seq<UserId>)
    | Purging(at: Time, u: UserId, todo: seq<UserId>)
    | Checking(at: Time, u: UserId, todo: seq<UserId>)

  // The sweeper took the user out of the index and has not yet settled where the user belongs.
  predicate Holds(p: Phase, u: UserId) {
    (p.Claimed? || p.Evicted? || p.Restoring? || p.Purging?) && p.u == u
  }

  // keyTtl is the EXPIRE deadline of each user's lease key, on the Redis server's clock.
  datatype State = State(db: Db, sweepers: map<SweeperId, Phase>, keyTtl: map<UserId, Time>, now: Time) {
    function PhaseOf(w: SweeperId): Phase {
      if w in sweepers then sweepers[w] else Idle
    }

    function Moved(w: SweeperId, p: Phase, d: Db): State {
      State(d, sweepers[w := p], keyTtl, now)
    }
  }

  datatype Step =
    | ConnectScript(i: InstanceId, u: UserId, at: Time)
    | DisconnectScript(i: InstanceId, u: UserId, at: Time)
    | Query(u: UserId, at: Time)
    | KeyExpires(u: UserId)
    | Tick(d: Time)
    | Begin(w: SweeperId, at: Time, batch: seq<UserId>)
    | Claim(w: SweeperId)
    | Evict(w: SweeperId)
    | Read(w: SweeperId)
    | Restore(w: SweeperId)
    | Purge(w: SweeperId)
    | Check(w: SweeperId, at: Time)
    | End(w: SweeperId)
    | Die(w: SweeperId)

  // Callers read the clock before they call, so a command may carry a time that has passed.
  ghost predicate Enabled(s: State, step: Step) {
    match step
    case ConnectScript(_, _, at) => at <= s.now
    case DisconnectScript(_, _, at) => at <= s.now
    case Query(_, at) => at <= s.now
    case KeyExpires(u) => u in s.keyTtl && s.keyTtl[u] <= s.now
    case Tick(d) => 0 <= d
    case Begin(w, at, batch) => s.PhaseOf(w).Idle? && at <= s.now && IsBatch(s.db.users, at, 100, batch)
    case Claim(w) => s.PhaseOf(w).Listed? && s.PhaseOf(w).todo != []
    case Evict(w) => s.PhaseOf(w).Claimed?
    case Read(w) => s.PhaseOf(w).Evicted?
    case Restore(w) => s.PhaseOf(w).Restoring?
    case Purge(w) => s.PhaseOf(w).Purging?
    case Check(w, at) => s.PhaseOf(w).Checking? && at <= s.now
    case End(w) => s.PhaseOf(w).Listed? && s.PhaseOf(w).todo == []
    case Die(w) => w in s.sweepers
  }

  ghost function Apply(ttl: Time, s: State, step: Step): State
    requires Enabled(s, step)
  {
    match step
    case ConnectScript(i, u, at) => s.(db := s.db.Connect(i, u, at, ttl), keyTtl := s.keyTtl[u := s.now + 2 * ttl])
    case DisconnectScript(i, u, at) => s.(db := s.db.Disconnect(i, u, at))
    case Query(u, at) => s.(db := s.db.Evict(u, at))
    case KeyExpires(u) => s.(db := s.db.WithLeases(u, map[]), keyTtl := s.keyTtl - {u})
    case Tick(d) => s.(now := s.now + d)
    case Begin(w, at, batch) => s.Moved(w, Listed(at, batch), s.db)
    case Claim(w) =>
      var p := s.PhaseOf(w);
      var u, rest := p.todo[0], p.todo[1..];
      if u in s.db.users then s.Moved(w, Claimed(p.at, u, rest), s.db.(users := s.db.users - {u}))
      else s.Moved(w, Listed(p.at, rest), s.db)
    case Evict(w) =>
      var p := s.PhaseOf(w);
      s.Moved(w, Evicted(p.at, p.u, p.todo), s.db.Evict(p.u, p.at))
    case Read(w) =>
      var p := s.PhaseOf(w);
      var z := s.db.Leases(p.u);
      s.Moved(w, if z == map[] then Purging(p.at, p.u, p.todo) else Restoring(p.at, p.u, Top(z), p.todo), s.db)
    case Restore(w) =>
      var p := s.PhaseOf(w);
      s.Moved(w, Listed(p.at, p.todo), s.db.(users := s.db.users[p.u := p.score]))
    case Purge(w) =>
      var p := s.PhaseOf(w);
      s.Moved(w, Checking(p.at, p.u, p.todo), s.db.WithLeases(p.u, map[]))
    case Check(w, at) =>
      var p := s.PhaseOf(w);
      s.Moved(w, Listed(p.at, p.todo), s.db.Evict(p.u, at))
    case End(w) => s.Moved(w, Idle, s.db)
    case Die(w) => s.(sweepers := s.sweepers - {w})
  }

  const START: State := State(Db(map[], map[]), map[], map[], 0)

  ghost predicate Legal(ttl: Time, steps: seq<Step>)
    decreases |steps|, 0
  {
    steps != [] ==> Legal(ttl, steps[..|steps| - 1]) && Enabled(After(ttl, steps[..|steps| - 1]), steps[|steps| - 1])
  }

  // The state a whole history leads to.
  ghost function After(ttl: Time, steps: seq<Step>): State
    requires Legal(ttl, steps)
    decreases |steps|, 1
  {
    if steps == [] then START
    else Apply(ttl, After(ttl, steps[..|steps| - 1]), steps[|steps| - 1])
  }

  // ---------- Coverage ----------

  ghost predicate Covered(s: State) {
    forall u :: s.db.Leases(u) != map[] ==> u in s.db.users || exists w :: Holds(s.PhaseOf(w), u)
  }

  // Only the sweeper that moves can stop holding a user.
  lemma StillCovered(s: State, d: State, w: SweeperId)
    requires Covered(s)
    requires forall x :: x != w ==> d.PhaseOf(x) == s.PhaseOf(x)
    requires forall u {:trigger d.db.Leases(u)} :: d.db.Leases(u) != map[] ==>
               || u in d.db.users
               || Holds(d.PhaseOf(w), u)
               || (s.db.Leases(u) != map[] && u !in s.db.users && !Holds(s.PhaseOf(w), u))
    ensures Covered(d)
  {
    forall u | d.db.Leases(u) != map[] && u !in d.db.users
      ensures exists x :: Holds(d.PhaseOf(x), u)
    {
      if !Holds(d.PhaseOf(w), u) {
        var x :| Holds(s.PhaseOf(x), u);
        assert Holds(d.PhaseOf(x), u);
      }
    }
  }

  lemma {:induction false} StepCovered(ttl: Time, s: State, step: Step)
    requires Covered(s) && Enabled(s, step) && !step.Die?
    ensures Covered(Apply(ttl, s, step))
  {
    var d := Apply(ttl, s, step);
    match step {
      case Begin(w, _, _) => StillCovered(s, d, w);
      case Claim(w) => StillCovered(s, d, w);
      case Evict(w) => StillCovered(s, d, w);
      case Read(w) => StillCovered(s, d, w);
      case Restore(w) => StillCovered(s, d, w);
      case Purge(w) => StillCovered(s, d, w);
      case Check(w, _) => StillCovered(s, d, w);
      case End(w) => StillCovered(s, d, w);
      case Die(_) => assert false;
      case _ =>
        forall u | d.db.Leases(u) != map[] && u !in d.db.users
          ensures exists w :: Holds(d.PhaseOf(w), u)
        {
          assert s.db.Leases(u) != map[] && u !in s.db.users;
          var w :| Holds(s.PhaseOf(w), u);
          assert Holds(d.PhaseOf(w), u);
        }
    }
  }

  /**
   * Sweep coverage: in every history without a sweeper's death, a user with a lease is in the index or is
   * held by a sweep still in progress, so no lease can lapse unseen. DyingSweeper says what a death can do.
   */
  lemma {:induction false} SweepCoverage(ttl: Time, steps: seq<Step>)
    requires Legal(ttl, steps) && forall step :: step in steps ==> !step.Die?
    ensures Covered(After(ttl, steps))
    decreases |steps|
  {
    if steps != [] {
      var before := steps[..|steps| - 1];
      assert steps == before + [steps[|steps| - 1]];
      SweepCoverage(ttl, before);
      StepCovered(ttl, After(ttl, before), steps[|steps| - 1]);
    }
  }

  // ---------- Where deadlines come from ----------

  ghost predicate Did(steps: seq<Step>, i: InstanceId, u: UserId, at: Time) {
    ConnectScript(i, u, at) in steps
  }

  // Some instance refreshed the user's lease, and `score` is when that lease lapses.
  ghost predicate Refreshed(ttl: Time, steps: seq<Step>, u: UserId, score: Time) {
    exists i, at :: Did(steps, i, u, at) && score == at + ttl
  }

  // Every deadline in Redis or in a sweeper's hands is a past refresh plus the lifetime.
  ghost predicate Sourced(ttl: Time, s: State, steps: seq<Step>) {
    && (forall u, i {:trigger i in s.db.Leases(u)} :: i in s.db.Leases(u) ==>
          Did(steps, i, u, s.db.Leases(u)[i] - ttl))
    && (forall u :: u in s.db.users ==> Refreshed(ttl, steps, u, s.db.users[u]))
    && (forall w :: s.PhaseOf(w).Restoring? ==> Refreshed(ttl, steps, s.PhaseOf(w).u, s.PhaseOf(w).score))
  }

  // EXPIRE never beats a lease: the key outlives each of its leases by at least a lifetime.
  ghost predicate Outlived(ttl: Time, s: State) {
    forall u, i {:trigger i in s.db.Leases(u)} :: i in s.db.Leases(u) ==>
      s.db.Leases(u)[i] <= s.now + ttl && u in s.keyTtl && s.db.Leases(u)[i] + ttl <= s.keyTtl[u]
  }

  lemma MoreRefreshed(ttl: Time, steps: seq<Step>, step: Step, u: UserId, score: Time)
    requires Refreshed(ttl, steps, u, score)
    ensures Refreshed(ttl, steps + [step], u, score)
  {
    var i, at :| Did(steps, i, u, at) && score == at + ttl;
    assert Did(steps + [step], i, u, at);
  }

  lemma TopRefreshed(ttl: Time, s: State, steps: seq<Step>, u: UserId, z: Zset<InstanceId>)
    requires z != map[]
    requires forall i :: i in z ==> Did(steps, i, u, z[i] - ttl)
    ensures Refreshed(ttl, steps, u, Top(z))
  {
    var i := TopMember(z);
    assert Did(steps, i, u, Top(z) - ttl);
  }

  // No step but a connect adds a lease or raises one.
  lemma LeasesFrom(ttl: Time, s: State, step: Step, u: UserId, i: InstanceId)
    requires Enabled(s, step) && i in Apply(ttl, s, step).db.Leases(u)
    ensures step == ConnectScript(i, u, Apply(ttl, s, step).db.Leases(u)[i] - ttl)
         || (i in s.db.Leases(u) && s.db.Leases(u)[i] == Apply(ttl, s, step).db.Leases(u)[i])
  {
  }

  lemma IndexFrom(ttl: Time, s: State, step: Step, steps: seq<Step>, u: UserId)
    requires Enabled(s, step) && Sourced(ttl, s, steps) && u in Apply(ttl, s, step).db.users
    ensures Refreshed(ttl, steps + [step], u, Apply(ttl, s, step).db.users[u])
  {
    var d := Apply(ttl, s, step);
    if step.ConnectScript? && step.u == u {
      assert step == ConnectScript(step.i, u, d.db.users[u] - ttl);
      assert Did(steps + [step], step.i, u, d.db.users[u] - ttl);
    } else if step.DisconnectScript? && step.u == u {
      var rest := s.db.LeasesWithout(step.i, u, step.at);
      forall i | i in rest
        ensures Did(steps, i, u, rest[i] - ttl)
      {
        assert i in s.db.Leases(u);
      }
      TopRefreshed(ttl, s, steps, u, rest);
      MoreRefreshed(ttl, steps, step, u, d.db.users[u]);
    } else {
      MoreRefreshed(ttl, steps, step, u, d.db.users[u]);
    }
  }

  lemma ScoreFrom(ttl: Time, s: State, step: Step, steps: seq<Step>, w: SweeperId)
    requires Enabled(s, step) && Sourced(ttl, s, steps) && Apply(ttl, s, step).PhaseOf(w).Restoring?
    ensures Refreshed(ttl, steps + [step], Apply(ttl, s, step).PhaseOf(w).u, Apply(ttl, s, step).PhaseOf(w).score)
  {
    var p := Apply(ttl, s, step).PhaseOf(w);
    if step == Read(w) {
      TopRefreshed(ttl, s, steps, p.u, s.db.Leases(p.u));
    } else {
      assert p == s.PhaseOf(w);
    }
    MoreRefreshed(ttl, steps, step, p.u, p.score);
  }

  lemma StepSourced(ttl: Time, s: State, step: Step, steps: seq<Step>)
    requires Enabled(s, step) && Sourced(ttl, s, steps)
    ensures Sourced(ttl, Apply(ttl, s, step), steps + [step])
  {
    var d := Apply(ttl, s, step);
    forall u, i | i in d.db.Leases(u)
      ensures Did(steps + [step], i, u, d.db.Leases(u)[i] - ttl)
    {
      LeasesFrom(ttl, s, step, u, i);
    }
    forall u | u in d.db.users { IndexFrom(ttl, s, step, steps, u); }
    forall w | d.PhaseOf(w).Restoring? { ScoreFrom(ttl, s, step, steps, w); }
  }

  lemma StepOutlived(ttl: Time, s: State, step: Step)
    requires 0 < ttl && Enabled(s, step) && Outlived(ttl, s)
    ensures Outlived(ttl, Apply(ttl, s, step))
  {
    var d := Apply(ttl, s, step);
    forall u, i | i in d.db.Leases(u)
      ensures d.db.Leases(u)[i] <= d.now + ttl && u in d.keyTtl && d.db.Leases(u)[i] + ttl <= d.keyTtl[u]
    {
      LeasesFrom(ttl, s, step, u, i);
    }
  }

  lemma {:induction false} HistorySourced(ttl: Time, steps: seq<Step>)
    requires 0 < ttl && Legal(ttl, steps)
    ensures Sourced(ttl, After(ttl, steps), steps) && Outlived(ttl, After(ttl, steps))
    decreases |steps|
  {
    if steps != [] {
      var before, step := steps[..|steps| - 1], steps[|steps| - 1];
      HistorySourced(ttl, before);
      assert steps == before + [step];
      StepSourced(ttl, After(ttl, before), step, before);
      StepOutlived(ttl, After(ttl, before), step);
    }
  }

  /**
   * Crash detection: after every history, a user is reported online only if some instance refreshed
   * the user's lease within the last lifetime; an index entry is due no later than a lifetime after
   * some refresh of that user; and when a lease key expires, all its leases lapsed before.
   */
  lemma {:induction false} OnlineMeansRefreshed(ttl: Time, steps: seq<Step>, u: UserId, at: Time)
    requires 0 < ttl && Legal(ttl, steps)
    ensures After(ttl, steps).db.Online(u, at) ==> exists i, r :: Did(steps, i, u, r) && at < r + ttl
    ensures u in After(ttl, steps).db.users ==>
              exists i, r :: Did(steps, i, u, r) && After(ttl, steps).db.users[u] == r + ttl
    ensures Enabled(After(ttl, steps), KeyExpires(u)) ==> !After(ttl, steps).db.Online(u, After(ttl, steps).now)
  {
    HistorySourced(ttl, steps);
    var d := After(ttl, steps);
    if d.db.Online(u, at) {
      var i := TopMember(Live(d.db.Leases(u), at));
      assert i in d.db.Leases(u);
      assert Did(steps, i, u, d.db.Leases(u)[i] - ttl);
    }
    if u in d.db.users {
      var i, r :| Did(steps, i, u, r) && d.db.users[u] == r + ttl;
    }
    if Enabled(d, KeyExpires(u)) {
      forall i | i in d.db.Leases(u)
        ensures d.db.Leases(u)[i] <= d.now
      {
      }
    }
  }

  // ---------- What the non-atomic sweep does not keep ----------

  // A run with the states between its steps.
  ghost predicate Trace(ttl: Time, steps: seq<Step>, states: seq<State>) {
    |states| == |steps| + 1 && forall k :: 0 <= k < |steps| ==> Moves(ttl, states[k], steps[k], states[k + 1])
  }

  ghost predicate Moves(ttl: Time, s: State, step: Step, d: State) {
    Enabled(s, step) && d == Apply(ttl, s, step)
  }

  /** The traces from START are the histories. */
  lemma {:induction false} TraceIsHistory(ttl: Time, steps: seq<Step>, states: seq<State>)
    requires Trace(ttl, steps, states) && states[0] == START
    ensures Legal(ttl, steps) && After(ttl, steps) == states[|steps|]
    decreases |steps|
  {
    if steps != [] {
      TraceIsHistory(ttl, steps[..|steps| - 1], states[..|steps|]);
      assert Moves(ttl, states[|steps| - 1], steps[|steps| - 1], states[|steps|]);
    }
  }

  predicate IsOf(step: Step, w: SweeperId) {
    match step
    case Begin(x, _, _) => x == w
    case Claim(x) => x == w
    case Evict(x) => x == w
    case Read(x) => x == w
    case Restore(x) => x == w
    case Purge(x) => x == w
    case Check(x, _) => x == w
    case End(x) => x == w
    case Die(x) => x == w
    case _ => false
  }

  predicate ConnectOf(step: Step, u: UserId) {
    step.ConnectScript? && step.u == u
  }

  lemma PhaseKept(ttl: Time, s: State, step: Step, w: SweeperId)
    requires Enabled(s, step) && !IsOf(step, w)
    ensures Apply(ttl, s, step).PhaseOf(w) == s.PhaseOf(w)
  {
  }

  lemma {:induction false} PhaseWaits(ttl: Time, steps: seq<Step>, states: seq<State>, k: nat, l: nat, w: SweeperId)
    requires Trace(ttl, steps, states) && k <= l <= |steps| && forall j :: k <= j < l ==> !IsOf(steps[j], w)
    ensures states[l].PhaseOf(w) == states[k].PhaseOf(w)
    decreases l
  {
    if k < l {
      PhaseWaits(ttl, steps, states, k, l - 1, w);
      assert Moves(ttl, states[l - 1], steps[l - 1], states[l]);
      PhaseKept(ttl, states[l - 1], steps[l - 1], w);
    }
  }

  // Where no lease is left at k, every lease at l comes from a connect between.
  lemma {:induction false} LeasesSince(ttl: Time, steps: seq<Step>, states: seq<State>, k: nat, l: nat, u: UserId,
                                       i: InstanceId) returns (j: nat)
    requires Trace(ttl, steps, states) && k <= l <= |steps|
    requires states[k].db.Leases(u) == map[] && i in states[l].db.Leases(u)
    ensures k <= j < l && steps[j] == ConnectScript(i, u, states[l].db.Leases(u)[i] - ttl)
    decreases l
  {
    j := l - 1;
    assert Moves(ttl, states[j], steps[j], states[l]);
    LeasesFrom(ttl, states[j], steps[j], u, i);
    if steps[j] != ConnectScript(i, u, states[l].db.Leases(u)[i] - ttl) {
      j := LeasesSince(ttl, steps, states, k, l - 1, u, i);
    }
  }

  // The connect at j brought the user a lease that is still there.
  predicate Brought(ttl: Time, s: State, step: Step, u: UserId) {
    ConnectOf(step, u) && step.i in s.db.Leases(u) && s.db.Leases(u)[step.i] == step.at + ttl
  }

  ghost predicate SamePresence(a: Db, b: Db) {
    forall v, at :: a.Online(v, at) == b.Online(v, at)
  }

  // The DEL by itself.
  lemma PurgeStep(ttl: Time, s: State, w: SweeperId)
    requires Enabled(s, Purge(w))
    ensures SamePresence(Apply(ttl, s, Purge(w)).db, s.db) <==> s.db.Leases(s.PhaseOf(w).u) == map[]
  {
    var u := s.PhaseOf(w).u;
    var d := Apply(ttl, s, Purge(w));
    if s.db.Leases(u) != map[] {
      var i := TopMember(s.db.Leases(u));
      assert i in Live(s.db.Leases(u), s.db.Leases(u)[i] - 1);
      assert s.db.Online(u, s.db.Leases(u)[i] - 1) && !d.db.Online(u, s.db.Leases(u)[i] - 1);
    } else {
      assert forall v :: d.db.Leases(v) == s.db.Leases(v);
    }
  }

  /**
   * The final DEL of a sweep, over every run: after sweeper w read user u's leases at k and found none, its DEL
   * at l changes somebody's presence if and only if a connect of u came between whose lease is still there.
   * Without a connect of u between, nobody's presence changes.
   */
  lemma {:induction false} PurgeExact(ttl: Time, steps: seq<Step>, states: seq<State>, k: nat, l: nat, w: SweeperId)
    requires Trace(ttl, steps, states) && k < l < |steps| && steps[k] == Read(w) && steps[l] == Purge(w)
    requires forall j :: k < j < l ==> !IsOf(steps[j], w)
    ensures states[k].PhaseOf(w).Evicted? && states[k].db.Leases(states[k].PhaseOf(w).u) == map[]
    ensures var u := states[k].PhaseOf(w).u;
            && (!SamePresence(states[l + 1].db, states[l].db) <==>
                  exists j :: k < j < l && Brought(ttl, states[l], steps[j], u))
            && ((forall j :: k < j < l ==> !ConnectOf(steps[j], u)) ==> SamePresence(states[l + 1].db, states[l].db))
  {
    assert Moves(ttl, states[k], steps[k], states[k + 1]);
    assert Moves(ttl, states[l], steps[l], states[l + 1]);
    PhaseWaits(ttl, steps, states, k + 1, l, w);
    var u := states[k].PhaseOf(w).u;
    PurgeStep(ttl, states[l], w);
    if states[l].db.Leases(u) != map[] {
      var i := TopMember(states[l].db.Leases(u));
      var j := LeasesSince(ttl, steps, states, k + 1, l, u, i);
      assert Brought(ttl, states[l], steps[j], u);
    }
  }

  lemma Do(ttl: Time, steps: seq<Step>, s: State, step: Step, d: State) returns (more: seq<Step>)
    requires Legal(ttl, steps) && After(ttl, steps) == s && Enabled(s, step) && Apply(ttl, s, step) == d
    ensures more == steps + [step] && Legal(ttl, more) && After(ttl, more) == d
  {
    more := steps + [step];
    assert more[..|steps|] == steps;
  }

  const LAPSED := Db(map[7 := map[1 := 5]], map[7 := 5])
  const CLAIMED := Db(map[7 := map[1 := 5]], map[])
  const NOBODY := Db(map[], map[])

  // The lease of user 7 at instance 1 lapses.
  lemma LapseRun() returns (steps: seq<Step>)
    ensures Legal(5, steps) && After(5, steps) == State(LAPSED, map[], map[7 := 10], 5)
  {
    steps := Do(5, [], START, ConnectScript(1, 7, 0), State(LAPSED, map[], map[7 := 10], 0));
    steps := Do(5, steps, State(LAPSED, map[], map[7 := 10], 0), Tick(5), State(LAPSED, map[], map[7 := 10], 5));
  }

  // Sweeper 0 lists and claims the user.
  lemma ClaimRun(before: seq<Step>) returns (steps: seq<Step>)
    requires Legal(5, before) && After(5, before) == State(LAPSED, map[], map[7 := 10], 5)
    ensures Legal(5, steps) && After(5, steps) == State(CLAIMED, map[0 := Claimed(5, 7, [])], map[7 := 10], 5)
  {
    var listed := State(LAPSED, map[0 := Listed(5, [7])], map[7 := 10], 5);
    assert Expired(LAPSED.users, 5) == {7};
    steps := Do(5, before, State(LAPSED, map[], map[7 := 10], 5), Begin(0, 5, [7]), listed);
    assert LAPSED.users - {7} == map[] && Listed(5, [7]).todo[1..] == [];
    steps := Do(5, steps, listed, Claim(0), State(CLAIMED, map[0 := Claimed(5, 7, [])], map[7 := 10], 5));
  }

  // It evicts the lapsed lease and reads an empty set.
  lemma ReadRun(before: seq<Step>) returns (steps: seq<Step>)
    requires Legal(5, before) && After(5, before) == State(CLAIMED, map[0 := Claimed(5, 7, [])], map[7 := 10], 5)
    ensures Legal(5, steps) && After(5, steps) == State(NOBODY, map[0 := Purging(5, 7, [])], map[7 := 10], 5)
  {
    var evicted := State(NOBODY, map[0 := Evicted(5, 7, [])], map[7 := 10], 5);
    assert Live(CLAIMED.Leases(7), 5) == map[];
    assert CLAIMED.leases - {7} == map[];
    steps := Do(5, before, State(CLAIMED, map[0 := Claimed(5, 7, [])], map[7 := 10], 5), Evict(0), evicted);
    steps := Do(5, steps, evicted, Read(0), State(NOBODY, map[0 := Purging(5, 7, [])], map[7 := 10], 5));
  }

  /** A run in which user 7 connects between the sweep's read and its DEL, stays, and is then not online. */
  lemma {:induction false} ConnectLostToPurge() returns (before: seq<Step>, steps: seq<Step>)
    ensures steps == before + [ConnectScript(2, 7, 5), Purge(0)]
    ensures Legal(5, steps) && After(5, steps).now == 5 && !After(5, steps).db.Online(7, 5)
    ensures After(5, steps) == State(Db(map[], map[7 := 10]), map[0 := Checking(5, 7, [])], map[7 := 15], 5)
  {
    before := LapseRun();
    before := ClaimRun(before);
    before := ReadRun(before);
    var s := State(NOBODY, map[0 := Purging(5, 7, [])], map[7 := 10], 5);
    var again := State(Db(map[7 := map[2 := 10]], map[7 := 10]), map[0 := Purging(5, 7, [])], map[7 := 15], 5);
    assert Live(NOBODY.Leases(7), 5) == map[];
    steps := Do(5, before, s, ConnectScript(2, 7, 5), again);
    assert again.db.leases - {7} == map[];
    steps := Do(5, steps, again, Purge(0), Apply(5, again, Purge(0)));
  }

  // ---------- Second reports ----------

  // A sweep's last check of the user, and the report it leads to.
  predicate Settles(s: State, step: Step, u: UserId) {
    step.Check? && s.PhaseOf(step.w).Checking? && s.PhaseOf(step.w).u == u
  }

  predicate Reporting(s: State, step: Step, u: UserId) {
    Settles(s, step, u) && !s.db.Online(u, step.at)
  }

  predicate InHand(p: Phase, u: UserId) {
    Holds(p, u) || (p.Checking? && p.u == u)
  }

  // The index or some sweeper still has the user.
  ghost predicate Reportable(s: State, u: UserId) {
    u in s.db.users || exists w :: InHand(s.PhaseOf(w), u)
  }

  lemma StaysSettled(ttl: Time, s: State, step: Step, u: UserId)
    requires Enabled(s, step) && s.db.Leases(u) == map[] && !ConnectOf(step, u)
    ensures Apply(ttl, s, step).db.Leases(u) == map[]
    ensures Settles(s, step, u) ==> Reporting(s, step, u)
  {
    var d := Apply(ttl, s, step);
    forall i | i in d.db.Leases(u)
      ensures false
    {
      LeasesFrom(ttl, s, step, u, i);
    }
    assert Settles(s, step, u) ==> Live(s.db.Leases(u), step.at) == map[];
  }

  lemma StaysUnreportable(ttl: Time, s: State, step: Step, u: UserId)
    requires Enabled(s, step) && s.db.Leases(u) == map[] && !ConnectOf(step, u) && !Reportable(s, u)
    ensures !Reportable(Apply(ttl, s, step), u)
  {
    var d := Apply(ttl, s, step);
    assert step.DisconnectScript? && step.u == u ==> s.db.LeasesWithout(step.i, u, step.at) == map[];
    forall w
      ensures !InHand(d.PhaseOf(w), u)
    {
      assert !InHand(s.PhaseOf(w), u);
    }
  }

  lemma {:induction false} SettledSince(ttl: Time, steps: seq<Step>, states: seq<State>, k: nat, l: nat, u: UserId)
    requires Trace(ttl, steps, states) && k <= l <= |steps| && states[k].db.Leases(u) == map[]
    requires forall j :: k <= j < l ==> !ConnectOf(steps[j], u)
    ensures states[l].db.Leases(u) == map[] && (!Reportable(states[k], u) ==> !Reportable(states[l], u))
    decreases l
  {
    if k < l {
      SettledSince(ttl, steps, states, k, l - 1, u);
      SettledNext(ttl, steps, states, l - 1, u);
    }
  }

  lemma SettledNext(ttl: Time, steps: seq<Step>, states: seq<State>, k: nat, u: UserId)
    requires Trace(ttl, steps, states) && k < |steps| && states[k].db.Leases(u) == map[] && !ConnectOf(steps[k], u)
    ensures states[k + 1].db.Leases(u) == map[] && (!Reportable(states[k], u) ==> !Reportable(states[k + 1], u))
  {
    assert Moves(ttl, states[k], steps[k], states[k + 1]);
    StaysSettled(ttl, states[k], steps[k], u);
    if !Reportable(states[k], u) {
      StaysUnreportable(ttl, states[k], steps[k], u);
    }
  }

  /**
   * Second reports: after a report of a user, and until a connect of the user, every sweep that gets to its last
   * check of the user reports the user again; and one can get there only if, right after the first report, the
   * index or another sweeper still had the user.
   */
  lemma {:induction false} SecondReport(ttl: Time, steps: seq<Step>, states: seq<State>, k: nat, l: nat, u: UserId)
    requires Trace(ttl, steps, states) && k < l < |steps| && Reporting(states[k], steps[k], u)
    requires forall j :: k < j < l ==> !ConnectOf(steps[j], u)
    ensures Reporting(states[l], steps[l], u) <==> Settles(states[l], steps[l], u)
    ensures Settles(states[l], steps[l], u) ==> Reportable(states[k + 1], u)
  {
    assert Moves(ttl, states[k], steps[k], states[k + 1]);
    SettledSince(ttl, steps, states, k + 1, l, u);
    assert Live(states[l].db.Leases(u), 0) == map[];
    if Settles(states[l], steps[l], u) {
      assert InHand(states[l].PhaseOf(steps[l].w), u);
      assert Live(states[l].db.Leases(u), steps[l].at) == map[];
    }
  }

  const LEFT := Db(map[], map[7 := 10])

  // Sweeper 0 is between users and user 7 is due in the index, without a lease.
  function LeftAt(now: Time): State {
    State(LEFT, map[0 := Listed(5, [])], map[7 := 15], now)
  }

  lemma ListAgain(before: seq<Step>) returns (steps: seq<Step>)
    requires Legal(5, before) && After(5, before) == LeftAt(5)
    ensures steps == before + [Tick(5), Begin(1, 10, [7])]
    ensures Legal(5, steps) && After(5, steps) == LeftAt(10).Moved(1, Listed(10, [7]), LEFT)
  {
    steps := Do(5, before, LeftAt(5), Tick(5), LeftAt(10));
    assert Expired(LEFT.users, 10) == {7};
    steps := Do(5, steps, LeftAt(10), Begin(1, 10, [7]), LeftAt(10).Moved(1, Listed(10, [7]), LEFT));
  }

  // Sweeper 1 claims the user and finds no lease.
  lemma SweepAgain(before: seq<Step>) returns (steps: seq<Step>)
    requires Legal(5, before) && After(5, before) == LeftAt(5)
    ensures steps == before + [Tick(5), Begin(1, 10, [7]), Claim(1), Evict(1), Read(1), Purge(1)]
    ensures Legal(5, steps) && Reporting(After(5, steps), Check(1, 10), 7)
  {
    steps := ListAgain(before);
    var listed := LeftAt(10).Moved(1, Listed(10, [7]), LEFT);
    steps := ClaimAgain(steps, listed);
    steps := SweepAway(steps, listed.Moved(1, Claimed(10, 7, []), NOBODY));
  }

  lemma ClaimAgain(before: seq<Step>, listed: State) returns (steps: seq<Step>)
    requires Legal(5, before) && After(5, before) == listed && listed == LeftAt(10).Moved(1, Listed(10, [7]), LEFT)
    ensures steps == before + [Claim(1)]
    ensures Legal(5, steps) && After(5, steps) == listed.Moved(1, Claimed(10, 7, []), NOBODY)
  {
    assert LEFT.users - {7} == map[] && Listed(10, [7]).todo[1..] == [];
    steps := Do(5, before, listed, Claim(1), listed.Moved(1, Claimed(10, 7, []), NOBODY));
  }

  lemma SweepAway(before: seq<Step>, claimed: State) returns (steps: seq<Step>)
    requires Legal(5, before) && After(5, before) == claimed && claimed.db == NOBODY && claimed.now == 10
    requires claimed.PhaseOf(1) == Claimed(10, 7, [])
    ensures steps == before + [Evict(1), Read(1), Purge(1)]
    ensures Legal(5, steps) && Reporting(After(5, steps), Check(1, 10), 7)
  {
    assert Live(NOBODY.Leases(7), 10) == map[] && NOBODY.leases - {7} == map[];
    var evicted := claimed.Moved(1, Evicted(10, 7, []), NOBODY);
    steps := Do(5, before, claimed, Evict(1), evicted);
    var purging := evicted.Moved(1, Purging(10, 7, []), NOBODY);
    steps := Do(5, steps, evicted, Read(1), purging);
    steps := Do(5, steps, purging, Purge(1), purging.Moved(1, Checking(10, 7, []), NOBODY));
  }

  /** A run in which two sweeps report user 7 without a connect of the user between the reports. */
  lemma {:induction false} ReportedTwice() returns (first: seq<Step>, second: seq<Step>)
    ensures Legal(5, first) && Reporting(After(5, first), Check(0, 5), 7)
    ensures second == first + [Check(0, 5), Tick(5), Begin(1, 10, [7]), Claim(1), Evict(1), Read(1), Purge(1)]
    ensures Legal(5, second) && Reporting(After(5, second), Check(1, 10), 7)
  {
    var before;
    before, first := ConnectLostToPurge();
    var s := State(LEFT, map[0 := Checking(5, 7, [])], map[7 := 15], 5);
    assert Live(LEFT.Leases(7), 5) == map[] && LEFT.leases - {7} == map[];
    assert s.sweepers[0 := Listed(5, [])] == map[0 := Listed(5, [])];
    var checked := Do(5, first, s, Check(0, 5), LeftAt(5));
    second := SweepAgain(checked);
  }

  // ---------- What a sweeper's death does ----------

  // Neither the index nor a sweeper knows of the user.
  ghost predicate Unseen(s: State, u: UserId) {
    u !in s.db.users && forall w :: !Holds(s.PhaseOf(w), u)
  }

  // A sweeper dies that was the last to know of the user.
  ghost predicate Drops(s: State, step: Step, d: State, u: UserId) {
    step.Die? && Holds(s.PhaseOf(step.w), u) && Unseen(d, u)
  }

  // The scripts of the user that put a leased user back into the index.
  predicate Reindexes(step: Step, u: UserId) {
    (step.ConnectScript? || step.DisconnectScript?) && step.u == u
  }

  lemma StaysUnseen(ttl: Time, s: State, step: Step, u: UserId)
    requires Enabled(s, step) && Unseen(s, u) && !Reindexes(step, u)
    ensures Unseen(Apply(ttl, s, step), u)
  {
    var d := Apply(ttl, s, step);
    forall w
      ensures !Holds(d.PhaseOf(w), u)
    {
      assert !Holds(s.PhaseOf(w), u);
    }
  }

  // What leaves the index is held, or has no lease.
  lemma KnownAfter(ttl: Time, s: State, step: Step, u: UserId)
    requires Enabled(s, step) && u in s.db.users && Apply(ttl, s, step).db.Leases(u) != map[]
    ensures !Unseen(Apply(ttl, s, step), u)
  {
    var d := Apply(ttl, s, step);
    if u !in d.db.users && step.Claim? {
      assert Holds(d.PhaseOf(step.w), u);
    }
  }

  lemma HeldAfter(ttl: Time, s: State, step: Step, u: UserId, w: SweeperId)
    requires Enabled(s, step) && Holds(s.PhaseOf(w), u) && Apply(ttl, s, step).db.Leases(u) != map[] && step != Die(w)
    ensures !Unseen(Apply(ttl, s, step), u)
  {
    assert Holds(Apply(ttl, s, step).PhaseOf(w), u) || u in Apply(ttl, s, step).db.users;
  }

  // A user with a lease is lost only by a death, and stays lost only without a script of the user.
  lemma LostByDeath(ttl: Time, s: State, step: Step, u: UserId)
    requires Enabled(s, step) && Unseen(Apply(ttl, s, step), u) && Apply(ttl, s, step).db.Leases(u) != map[]
    ensures !Reindexes(step, u)
    ensures s.db.Leases(u) != map[]
    ensures Unseen(s, u) || Drops(s, step, Apply(ttl, s, step), u)
  {
    if u in s.db.users {
      KnownAfter(ttl, s, step, u);
    } else if !Unseen(s, u) {
      var w :| Holds(s.PhaseOf(w), u);
      if step != Die(w) {
        HeldAfter(ttl, s, step, u, w);
      }
    }
  }

  lemma {:induction false} UnseenSince(ttl: Time, steps: seq<Step>, states: seq<State>, k: nat, l: nat, u: UserId)
    requires Trace(ttl, steps, states) && k <= l <= |steps| && Unseen(states[k], u)
    requires forall j :: k <= j < l ==> !Reindexes(steps[j], u)
    ensures Unseen(states[l], u)
    decreases l
  {
    if k < l {
      UnseenSince(ttl, steps, states, k, l - 1, u);
      UnseenNext(ttl, steps, states, l - 1, u);
    }
  }

  lemma UnseenNext(ttl: Time, steps: seq<Step>, states: seq<State>, k: nat, u: UserId)
    requires Trace(ttl, steps, states) && k < |steps| && Unseen(states[k], u) && !Reindexes(steps[k], u)
    ensures Unseen(states[k + 1], u)
  {
    assert Moves(ttl, states[k], steps[k], states[k + 1]);
    StaysUnseen(ttl, states[k], steps[k], u);
  }

  lemma {:induction false} DroppedBefore(ttl: Time, steps: seq<Step>, states: seq<State>, l: nat, u: UserId)
      returns (k: nat)
    requires Trace(ttl, steps, states) && states[0].db.Leases(u) == map[] && l <= |steps|
    requires Unseen(states[l], u) && states[l].db.Leases(u) != map[]
    ensures k < l && Drops(states[k], steps[k], states[k + 1], u) && forall j :: k < j < l ==> !Reindexes(steps[j], u)
    decreases l
  {
    k := l - 1;
    LostAt(ttl, steps, states, k, u);
    if !Drops(states[k], steps[k], states[l], u) {
      k := DroppedBefore(ttl, steps, states, l - 1, u);
    }
  }

  lemma LostAt(ttl: Time, steps: seq<Step>, states: seq<State>, k: nat, u: UserId)
    requires Trace(ttl, steps, states) && k < |steps|
    requires Unseen(states[k + 1], u) && states[k + 1].db.Leases(u) != map[]
    ensures !Reindexes(steps[k], u) && states[k].db.Leases(u) != map[]
    ensures Unseen(states[k], u) || Drops(states[k], steps[k], states[k + 1], u)
  {
    assert Moves(ttl, states[k], steps[k], states[k + 1]);
    LostByDeath(ttl, states[k], steps[k], u);
  }

  // The last sweeper to know of the user dies at k, and no script of the user has run since.
  ghost predicate Lost(steps: seq<Step>, states: seq<State>, k: nat, u: UserId)
    requires |states| == |steps| + 1
  {
    k < |steps| && Drops(states[k], steps[k], states[k + 1], u) && forall j :: k < j < |steps| ==> !Reindexes(steps[j], u)
  }

  /**
   * Deaths: after every run, a user with a lease is unknown to the index and to every sweeper if and only
   * if at some point a sweeper died that was the last to know of the user, and no connect or disconnect script
   * of the user has run since. Until one does, no sweep can report the user.
   */
  lemma {:induction false} DyingSweeper(ttl: Time, steps: seq<Step>, states: seq<State>, u: UserId)
    requires Trace(ttl, steps, states) && states[0] == START && states[|steps|].db.Leases(u) != map[]
    ensures Unseen(states[|steps|], u) <==> exists k: nat :: Lost(steps, states, k, u)
  {
    if Unseen(states[|steps|], u) {
      var k := DroppedBefore(ttl, steps, states, |steps|, u);
      assert Lost(steps, states, k, u);
    }
    if k: nat :| Lost(steps, states, k, u) {
      UnseenSince(ttl, steps, states, k + 1, |steps|, u);
    }
  }
}
