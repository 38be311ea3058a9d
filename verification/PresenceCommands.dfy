/**
 * Lease continuity at the grain of single Redis commands: the timed maintenance loops of PresenceCluster, each
 * of whose sweeps is a sequence of PresenceSweep's commands with everything else in between.
 */
module PresenceCommands {
  import opened Basics
  import opened SortedSets
  import opened PresenceDb
  import opened Connections
  import Cluster = PresenceCluster
  import Sweep = PresenceSweep

  // A sweeper is named by its instance.
  datatype State = State(hosts: map<InstanceId, Cluster.Host>, redis: Sweep.State)

  datatype Step = Local(local: Cluster.Step) | Command(command: Sweep.Step)

  // The cluster with these shared keys.
  function With(s: State, db: Db): Cluster.Cluster {
    Cluster.Cluster(s.hosts, db, s.redis.now)
  }

  // What an instance's step asks of Redis.
  ghost function CommandOf(s: State, local: Cluster.Step): Option<Sweep.Step> {
    match local
    case Connect(i, u, _) =>
      if i in s.hosts && u !in s.hosts[i].sockets then Some(Sweep.ConnectScript(i, u, s.redis.now)) else None
    case Disconnect(i, u, x) =>
      if i in s.hosts && LastSocket(s.hosts[i].sockets, u, x) then Some(Sweep.DisconnectScript(i, u, s.redis.now)) else None
    case Refresh(i, u) => Some(Sweep.ConnectScript(i, u, s.redis.now))
    case Crash(i) => if i in s.redis.sweepers then Some(Sweep.Die(i)) else None
    case Tick(d) => Some(Sweep.Tick(d))
    case _ => None
  }

  // A live instance sweeps once in each iteration, after its heartbeats. Presence reads and key expiry come at
  // any time; a read may carry a time that has passed.
  ghost predicate Allowed(s: State, command: Sweep.Step) {
    match command
    case Query(_, _) => true
    case KeyExpires(_) => true
    case Begin(w, at, _) =>
      && w in s.hosts && s.hosts[w].loop.Working? && s.hosts[w].loop.pending == {} && !s.hosts[w].loop.swept
      && at == s.hosts[w].loop.start
    case Claim(w) => w in s.hosts
    case Evict(w) => w in s.hosts
    case Read(w) => w in s.hosts
    case Restore(w) => w in s.hosts
    case Purge(w) => w in s.hosts
    case Check(w, _) => w in s.hosts
    case End(w) => w in s.hosts
    case _ => false
  }

  ghost predicate Enabled(t: Cluster.Timing, s: State, step: Step) {
    match step
    case Local(local) =>
      && !local.SweepIndex? && !local.Query? && Cluster.Enabled(t, With(s, s.redis.db), local)
      && (local.Sleep? ==> s.redis.PhaseOf(local.i).Idle?)
    case Command(command) => Allowed(s, command) && Sweep.Enabled(s.redis, command)
  }

  ghost function Apply(t: Cluster.Timing, s: State, step: Step): State
    requires Enabled(t, s, step)
  {
    match step
    case Local(local) =>
      State(Cluster.Apply(t, With(s, s.redis.db), local).hosts,
            match CommandOf(s, local)
            case None => s.redis
            case Some(command) => Sweep.Apply(t.ttl, s.redis, command))
    case Command(command) =>
      State(if command.Begin? then s.hosts[command.w := s.hosts[command.w].(loop := s.hosts[command.w].loop.(swept := true))]
            else s.hosts,
            Sweep.Apply(t.ttl, s.redis, command))
  }

  // What the step does to Redis.
  ghost function RedisStep(s: State, step: Step): Option<Sweep.Step> {
    match step
    case Local(local) => CommandOf(s, local)
    case Command(command) => Some(command)
  }

  ghost predicate Initial(s: State) {
    Cluster.Initial(With(s, s.redis.db)) && s.redis.sweepers == map[] && s.redis.keyTtl == map[]
  }

  // A run with the states between its steps.
  ghost predicate Trace(t: Cluster.Timing, steps: seq<Step>, states: seq<State>) {
    |states| == |steps| + 1 && forall k :: 0 <= k < |steps| ==> Moves(t, states[k], steps[k], states[k + 1])
  }

  ghost predicate Moves(t: Cluster.Timing, s: State, step: Step, d: State) {
    Enabled(t, s, step) && d == Apply(t, s, step)
  }

  predicate Connected(s: State, i: InstanceId, u: UserId) {
    i in s.hosts && u in s.hosts[i].sockets
  }

  // The instance's lease of the user is there and unexpired.
  predicate Leased(s: State, i: InstanceId, u: UserId) {
    i in s.redis.db.Leases(u) && s.redis.now < s.redis.db.Leases(u)[i]
  }

  // The step runs the connect script of the instance for the user, for a first socket or as a heartbeat.
  ghost predicate Renews(s: State, step: Step, i: InstanceId, u: UserId) {
    step.Local? && CommandOf(s, step.local) == Some(Sweep.ConnectScript(i, u, s.redis.now))
  }

  // The step is a sweep's DEL of the user's leases.
  predicate Deletes(s: State, step: Step, u: UserId) {
    step.Command? && step.command.Purge? && s.redis.PhaseOf(step.command.w).Purging? && s.redis.PhaseOf(step.command.w).u == u
  }

  // ---------- What the scripts alone would leave ----------

  // The scripts' effect on keys that no sweep or read touches.
  ghost function Granted(t: Cluster.Timing, steps: seq<Step>, states: seq<State>, n: nat): Db
    requires Trace(t, steps, states) && n <= |steps|
  {
    if n == 0 then states[0].redis.db
    else
      assert Moves(t, states[n - 1], steps[n - 1], states[n]);
      match steps[n - 1]
      case Command(_) => Granted(t, steps, states, n - 1)
      case Local(local) => Cluster.Apply(t, With(states[n - 1], Granted(t, steps, states, n - 1)), local).db
  }

  lemma LocalOnTime(t: Cluster.Timing, s: State, local: Cluster.Step, db: Db)
    requires t.Valid() && t.Sufficient() && Enabled(t, s, Local(local)) && Cluster.OnTime(t, With(s, db))
    ensures Cluster.Enabled(t, With(s, db), local)
    ensures Cluster.OnTime(t, With(Apply(t, s, Local(local)), Cluster.Apply(t, With(s, db), local).db))
  {
    Cluster.StepStaysOnTime(t, With(s, db), local);
    assert Cluster.Apply(t, With(s, db), local)
        == With(Apply(t, s, Local(local)), Cluster.Apply(t, With(s, db), local).db);
  }

  lemma CommandOnTime(t: Cluster.Timing, s: State, command: Sweep.Step, db: Db)
    requires Enabled(t, s, Command(command)) && Cluster.OnTime(t, With(s, db))
    ensures Cluster.OnTime(t, With(Apply(t, s, Command(command)), db))
  {
    var d := Apply(t, s, Command(command));
    forall i | i in d.hosts
      ensures Cluster.HostOnTime(t, db, d.redis.now, i, d.hosts[i])
    {
      assert Cluster.HostOnTime(t, db, s.redis.now, i, s.hosts[i]);
    }
  }

  lemma {:induction false} GrantedOnTime(t: Cluster.Timing, steps: seq<Step>, states: seq<State>, n: nat)
    requires t.Valid() && t.Sufficient() && Trace(t, steps, states) && Initial(states[0]) && n <= |steps|
    ensures Cluster.OnTime(t, With(states[n], Granted(t, steps, states, n)))
  {
    if n > 0 {
      GrantedOnTime(t, steps, states, n - 1);
      assert Moves(t, states[n - 1], steps[n - 1], states[n]);
      match steps[n - 1] {
        case Local(local) => LocalOnTime(t, states[n - 1], local, Granted(t, steps, states, n - 1));
        case Command(command) => CommandOnTime(t, states[n - 1], command, Granted(t, steps, states, n - 1));
      }
    }
  }

  // A connected user's granted lease is unexpired.
  lemma GrantedFresh(t: Cluster.Timing, steps: seq<Step>, states: seq<State>, n: nat, i: InstanceId, u: UserId)
    requires t.Valid() && t.Sufficient() && Trace(t, steps, states) && Initial(states[0]) && n <= |steps|
    requires Connected(states[n], i, u)
    ensures i in Granted(t, steps, states, n).Leases(u) && states[n].redis.now < Granted(t, steps, states, n).Leases(u)[i]
  {
    GrantedOnTime(t, steps, states, n);
    Cluster.OnTimeIsFresh(t, Granted(t, steps, states, n), states[n].redis.now, i, states[n].hosts[i]);
  }

  // ---------- What is left of them ----------

  // Every sweep in progress began in the past.
  ghost predicate SweepsBegan(r: Sweep.State) {
    forall w :: r.PhaseOf(w).Idle? || r.PhaseOf(w).at <= r.now
  }

  lemma SweepsBeganStep(ttl: Time, r: Sweep.State, command: Sweep.Step)
    requires Sweep.Enabled(r, command) && SweepsBegan(r)
    ensures SweepsBegan(Sweep.Apply(ttl, r, command))
  {
    var d := Sweep.Apply(ttl, r, command);
    forall w
      ensures d.PhaseOf(w).Idle? || d.PhaseOf(w).at <= d.now
    {
      assert r.PhaseOf(w).Idle? || r.PhaseOf(w).at <= r.now;
    }
  }

  lemma {:induction false} KeysOutlive(t: Cluster.Timing, steps: seq<Step>, states: seq<State>, n: nat)
    requires t.Valid() && Trace(t, steps, states) && Initial(states[0]) && n <= |steps|
    ensures Sweep.Outlived(t.ttl, states[n].redis) && SweepsBegan(states[n].redis)
  {
    if n > 0 {
      KeysOutlive(t, steps, states, n - 1);
      assert Moves(t, states[n - 1], steps[n - 1], states[n]);
      var command := RedisStep(states[n - 1], steps[n - 1]);
      if command.Some? {
        Sweep.StepOutlived(t.ttl, states[n - 1].redis, command.value);
        SweepsBeganStep(t.ttl, states[n - 1].redis, command.value);
      }
    }
  }

  predicate Wipes(r: Sweep.State, command: Sweep.Step, i: InstanceId, u: UserId) {
    || (command.ConnectScript? && command.i == i && command.u == u)
    || (command.DisconnectScript? && command.i == i && command.u == u)
    || (command.Purge? && r.PhaseOf(command.w).Purging? && r.PhaseOf(command.w).u == u)
  }

  // No command but these touches an unexpired lease.
  lemma CommandKeeps(ttl: Time, r: Sweep.State, command: Sweep.Step, i: InstanceId, u: UserId)
    requires 0 < ttl && Sweep.Enabled(r, command) && Sweep.Outlived(ttl, r) && !Wipes(r, command, i, u)
    requires i in r.db.Leases(u) && r.now < r.db.Leases(u)[i]
    requires SweepsBegan(r)
    ensures var d := Sweep.Apply(ttl, r, command); i in d.db.Leases(u) && d.db.Leases(u)[i] == r.db.Leases(u)[i]
  {
    match command {
      case ConnectScript(j, v, at) => assert v == u ==> i in Live(r.db.Leases(u), at);
      case DisconnectScript(j, v, at) => assert v == u ==> i in r.db.LeasesWithout(j, u, at);
      case Query(v, at) => assert v == u ==> i in Live(r.db.Leases(u), at);
      case Check(w, at) => assert r.PhaseOf(w).u == u ==> i in Live(r.db.Leases(u), at);
      case Evict(w) => assert r.PhaseOf(w).u == u ==> i in Live(r.db.Leases(u), r.PhaseOf(w).at);
      case KeyExpires(v) => assert v != u;
      case _ =>
    }
  }

  // From a DEL of the user's leases on, the instance's connect script for the user has not run.
  ghost predicate LostAt(steps: seq<Step>, states: seq<State>, n: nat, l: nat, i: InstanceId, u: UserId)
    requires |states| == |steps| + 1 && n <= |steps|
  {
    && l < n && Deletes(states[l], steps[l], u)
    && forall m :: l < m < n ==> !Renews(states[m], steps[m], i, u)
  }

  ghost predicate Lost(steps: seq<Step>, states: seq<State>, n: nat, i: InstanceId, u: UserId)
    requires |states| == |steps| + 1 && n <= |steps|
  {
    exists l: nat :: LostAt(steps, states, n, l, i, u)
  }

  lemma LostStep(steps: seq<Step>, states: seq<State>, n: nat, i: InstanceId, u: UserId)
    requires |states| == |steps| + 1 && n < |steps|
    ensures Renews(states[n], steps[n], i, u) ==> !Lost(steps, states, n + 1, i, u)
    ensures !Renews(states[n], steps[n], i, u) ==>
              (Lost(steps, states, n + 1, i, u) <==> Lost(steps, states, n, i, u) || Deletes(states[n], steps[n], u))
  {
    if !Renews(states[n], steps[n], i, u) {
      if Lost(steps, states, n + 1, i, u) {
        var l: nat :| LostAt(steps, states, n + 1, l, i, u);
        assert l == n || LostAt(steps, states, n, l, i, u);
      }
      if l: nat :| LostAt(steps, states, n, l, i, u) {
        assert LostAt(steps, states, n + 1, l, i, u);
      }
      if Deletes(states[n], steps[n], u) {
        assert LostAt(steps, states, n + 1, n, i, u);
      }
    }
  }

  // Who is connected after a step was before, unless the step is the first socket and renews.
  lemma ConnectedBefore(t: Cluster.Timing, s: State, step: Step, i: InstanceId, u: UserId)
    requires Enabled(t, s, step) && Connected(Apply(t, s, step), i, u) && !Renews(s, step, i, u)
    ensures Connected(s, i, u)
    ensures RedisStep(s, step).Some? && Wipes(s.redis, RedisStep(s, step).value, i, u) ==> Deletes(s, step, u)
  {
  }

  // What was granted is still there, or gone as before.
  predicate AsGranted(db: Db, granted: Db, i: InstanceId, u: UserId) {
    i in db.Leases(u) && i in granted.Leases(u) && db.Leases(u)[i] == granted.Leases(u)[i]
  }

  lemma RenewedStep(t: Cluster.Timing, s: State, step: Step, granted: Db, i: InstanceId, u: UserId)
    requires Enabled(t, s, step) && Renews(s, step, i, u) && Cluster.Enabled(t, With(s, granted), step.local)
    ensures AsGranted(Apply(t, s, step).redis.db, Cluster.Apply(t, With(s, granted), step.local).db, i, u)
  {
  }

  lemma GrantedKept(t: Cluster.Timing, s: State, local: Cluster.Step, granted: Db, i: InstanceId, u: UserId)
    requires Enabled(t, s, Local(local)) && Cluster.Enabled(t, With(s, granted), local)
    requires Connected(Apply(t, s, Local(local)), i, u) && !Renews(s, Local(local), i, u)
    requires i in granted.Leases(u) && s.redis.now < granted.Leases(u)[i]
    ensures var d := Cluster.Apply(t, With(s, granted), local).db;
            i in d.Leases(u) && d.Leases(u)[i] == granted.Leases(u)[i]
  {
    ConnectedBefore(t, s, Local(local), i, u);
    match local {
      case Connect(j, v, _) => assert v == u ==> i in Live(granted.Leases(u), s.redis.now);
      case Refresh(j, v) => assert v == u ==> i in Live(granted.Leases(u), s.redis.now);
      case Disconnect(j, v, _) => assert v == u && j != i ==> i in granted.LeasesWithout(j, u, s.redis.now);
      case _ =>
    }
  }

  lemma NotAdded(t: Cluster.Timing, s: State, step: Step, i: InstanceId, u: UserId)
    requires Enabled(t, s, step) && !Renews(s, step, i, u) && i in Apply(t, s, step).redis.db.Leases(u)
    ensures i in s.redis.db.Leases(u) && !Deletes(s, step, u)
  {
    var command := RedisStep(s, step);
    if command.Some? {
      Sweep.LeasesFrom(t.ttl, s.redis, command.value, u, i);
    }
  }

  // A step that does not renew: the DEL takes the lease, and every other step leaves it as it is.
  lemma KeptStep(t: Cluster.Timing, s: State, step: Step, i: InstanceId, u: UserId)
    requires t.Valid() && Enabled(t, s, step) && Connected(Apply(t, s, step), i, u) && !Renews(s, step, i, u)
    requires Sweep.Outlived(t.ttl, s.redis) && SweepsBegan(s.redis) && (i in s.redis.db.Leases(u) ==> Leased(s, i, u))
    ensures var before, after := s.redis.db.Leases(u), Apply(t, s, step).redis.db.Leases(u);
            && (Deletes(s, step, u) || i !in before ==> i !in after)
            && (!Deletes(s, step, u) && i in before ==> i in after && after[i] == before[i])
  {
    ConnectedBefore(t, s, step, i, u);
    if i in Apply(t, s, step).redis.db.Leases(u) {
      NotAdded(t, s, step, i, u);
    }
    var command := RedisStep(s, step);
    if command.Some? {
      if i in s.redis.db.Leases(u) && !Wipes(s.redis, command.value, i, u) {
        CommandKeeps(t.ttl, s.redis, command.value, i, u);
      }
    }
  }

  // A connected user's lease is what was granted, unless a DEL took it.
  ghost predicate Exact(t: Cluster.Timing, steps: seq<Step>, states: seq<State>, n: nat, i: InstanceId, u: UserId)
    requires Trace(t, steps, states) && n <= |steps|
  {
    if Lost(steps, states, n, i, u) then i !in states[n].redis.db.Leases(u)
    else AsGranted(states[n].redis.db, Granted(t, steps, states, n), i, u)
  }

  lemma LeaseRenewed(t: Cluster.Timing, steps: seq<Step>, states: seq<State>, n: nat, i: InstanceId, u: UserId)
    requires t.Valid() && t.Sufficient() && Trace(t, steps, states) && Initial(states[0]) && n < |steps|
    requires Renews(states[n], steps[n], i, u)
    ensures Exact(t, steps, states, n + 1, i, u)
  {
    assert Moves(t, states[n], steps[n], states[n + 1]);
    GrantedOnTime(t, steps, states, n);
    LocalOnTime(t, states[n], steps[n].local, Granted(t, steps, states, n));
    RenewedStep(t, states[n], steps[n], Granted(t, steps, states, n), i, u);
    LostStep(steps, states, n, i, u);
  }

  lemma GrantStays(t: Cluster.Timing, steps: seq<Step>, states: seq<State>, n: nat, i: InstanceId, u: UserId)
    requires t.Valid() && t.Sufficient() && Trace(t, steps, states) && Initial(states[0]) && n < |steps|
    requires Connected(states[n], i, u) && Connected(states[n + 1], i, u) && !Renews(states[n], steps[n], i, u)
    ensures var before, after := Granted(t, steps, states, n).Leases(u), Granted(t, steps, states, n + 1).Leases(u);
            i in before && i in after && after[i] == before[i] && states[n].redis.now < before[i]
  {
    assert Moves(t, states[n], steps[n], states[n + 1]);
    GrantedFresh(t, steps, states, n, i, u);
    if steps[n].Local? {
      GrantedOnTime(t, steps, states, n);
      LocalOnTime(t, states[n], steps[n].local, Granted(t, steps, states, n));
      GrantedKept(t, states[n], steps[n].local, Granted(t, steps, states, n), i, u);
    }
  }

  lemma LeaseKept(t: Cluster.Timing, steps: seq<Step>, states: seq<State>, n: nat, i: InstanceId, u: UserId)
    requires t.Valid() && t.Sufficient() && Trace(t, steps, states) && Initial(states[0]) && n < |steps|
    requires Connected(states[n], i, u) && Connected(states[n + 1], i, u) && !Renews(states[n], steps[n], i, u)
    requires Exact(t, steps, states, n, i, u)
    ensures Exact(t, steps, states, n + 1, i, u)
  {
    assert Moves(t, states[n], steps[n], states[n + 1]);
    GrantStays(t, steps, states, n, i, u);
    KeysOutlive(t, steps, states, n);
    KeptStep(t, states[n], steps[n], i, u);
    LostStep(steps, states, n, i, u);
  }

  lemma ConnectedAt(t: Cluster.Timing, steps: seq<Step>, states: seq<State>, n: nat, i: InstanceId, u: UserId)
    requires Trace(t, steps, states) && n < |steps| && Connected(states[n + 1], i, u) && !Renews(states[n], steps[n], i, u)
    ensures Connected(states[n], i, u)
  {
    assert Moves(t, states[n], steps[n], states[n + 1]);
    ConnectedBefore(t, states[n], steps[n], i, u);
  }

  // The last renewal before n was at k.
  ghost predicate Since(steps: seq<Step>, states: seq<State>, k: nat, n: nat, i: InstanceId, u: UserId)
    requires |states| == |steps| + 1 && k < n <= |steps|
  {
    Renews(states[k], steps[k], i, u) && forall m :: k < m < n ==> !Renews(states[m], steps[m], i, u)
  }

  lemma {:induction false} ConnectedSince(t: Cluster.Timing, steps: seq<Step>, states: seq<State>, k: nat, m: nat, n: nat,
                                          i: InstanceId, u: UserId)
    requires Trace(t, steps, states) && k < m <= n <= |steps| && Connected(states[n], i, u)
    requires Since(steps, states, k, n, i, u)
    ensures Connected(states[m], i, u)
    decreases n
  {
    if m < n {
      ConnectedAt(t, steps, states, n - 1, i, u);
      ConnectedSince(t, steps, states, k, m, n - 1, i, u);
    }
  }

  // A connected user's connect script has run.
  lemma {:induction false} LastRenewal(t: Cluster.Timing, steps: seq<Step>, states: seq<State>, n: nat, i: InstanceId,
                                       u: UserId) returns (k: nat)
    requires Trace(t, steps, states) && Initial(states[0]) && n <= |steps| && Connected(states[n], i, u)
    ensures k < n && Since(steps, states, k, n, i, u)
  {
    assert n != 0;
    k := n - 1;
    if !Renews(states[k], steps[k], i, u) {
      ConnectedAt(t, steps, states, k, i, u);
      k := LastRenewal(t, steps, states, n - 1, i, u);
    }
  }

  lemma {:induction false} LeaseExact(t: Cluster.Timing, steps: seq<Step>, states: seq<State>, n: nat, i: InstanceId,
                                      u: UserId)
    requires t.Valid() && t.Sufficient() && Trace(t, steps, states) && Initial(states[0]) && n <= |steps|
    requires Connected(states[n], i, u)
    ensures Exact(t, steps, states, n, i, u)
  {
    assert n != 0;
    if Renews(states[n - 1], steps[n - 1], i, u) {
      LeaseRenewed(t, steps, states, n - 1, i, u);
    } else {
      ConnectedAt(t, steps, states, n - 1, i, u);
      LeaseExact(t, steps, states, n - 1, i, u);
      LeaseKept(t, steps, states, n - 1, i, u);
    }
  }

  // A connected user's lease is unexpired unless a DEL took it since the last renewal.
  lemma LeasedUnlessLost(t: Cluster.Timing, steps: seq<Step>, states: seq<State>, n: nat, i: InstanceId, u: UserId)
    requires t.Valid() && t.Sufficient() && Trace(t, steps, states) && Initial(states[0]) && n <= |steps|
    requires Connected(states[n], i, u)
    ensures Leased(states[n], i, u) <==> !Lost(steps, states, n, i, u)
    ensures Lost(steps, states, n, i, u) ==> i !in states[n].redis.db.Leases(u)
  {
    LeaseExact(t, steps, states, n, i, u);
    GrantedFresh(t, steps, states, n, i, u);
  }

  // ---------- The DEL that takes a lease ----------

  predicate OfSweeper(step: Step, w: InstanceId) {
    (step.Command? && Sweep.IsOf(step.command, w)) || step == Local(Cluster.Crash(w))
  }

  lemma PhaseKept(t: Cluster.Timing, s: State, step: Step, w: InstanceId)
    requires Enabled(t, s, step) && !OfSweeper(step, w)
    ensures Apply(t, s, step).redis.PhaseOf(w) == s.redis.PhaseOf(w)
  {
  }

  // What a sweeper about to delete has read.
  lemma PurgingFrom(t: Cluster.Timing, s: State, step: Step, w: InstanceId)
    requires Enabled(t, s, step) && Apply(t, s, step).redis.PhaseOf(w).Purging? && OfSweeper(step, w)
    ensures step == Command(Sweep.Read(w)) && s.redis.db.Leases(Apply(t, s, step).redis.PhaseOf(w).u) == map[]
  {
  }

  lemma {:induction false} ReadBefore(t: Cluster.Timing, steps: seq<Step>, states: seq<State>, l: nat, w: InstanceId)
      returns (j: nat)
    requires Trace(t, steps, states) && Initial(states[0]) && l <= |steps| && states[l].redis.PhaseOf(w).Purging?
    ensures j < l && steps[j] == Command(Sweep.Read(w)) && forall m :: j < m < l ==> !OfSweeper(steps[m], w)
    ensures states[j].redis.db.Leases(states[l].redis.PhaseOf(w).u) == map[]
  {
    assert l != 0;
    j := l - 1;
    assert Moves(t, states[j], steps[j], states[l]);
    if OfSweeper(steps[j], w) {
      PurgingFrom(t, states[j], steps[j], w);
    } else {
      PhaseKept(t, states[j], steps[j], w);
      j := ReadBefore(t, steps, states, l - 1, w);
    }
  }

  // A sweeper reads at j that the user has no lease, the instance's last connect script for the user runs at k,
  // and the sweeper's DEL of what it read follows at l.
  ghost predicate TakenBy(steps: seq<Step>, states: seq<State>, n: nat, i: InstanceId, u: UserId, j: nat, k: nat, l: nat)
    requires |states| == |steps| + 1 && n <= |steps|
  {
    && j < k < l < n
    && Deletes(states[l], steps[l], u) && steps[j] == Command(Sweep.Read(steps[l].command.w))
    && (forall m :: j < m < l ==> !OfSweeper(steps[m], steps[l].command.w))
    && Renews(states[k], steps[k], i, u) && forall m :: k < m < n ==> !Renews(states[m], steps[m], i, u)
  }

  lemma {:induction false} FirstDelete(steps: seq<Step>, states: seq<State>, k: nat, l: nat, u: UserId) returns (f: nat)
    requires |states| == |steps| + 1 && k < l < |steps| && Deletes(states[l], steps[l], u)
    ensures k < f <= l && Deletes(states[f], steps[f], u) && forall m :: k < m < f ==> !Deletes(states[m], steps[m], u)
    decreases l
  {
    if m :| k < m < l && Deletes(states[m], steps[m], u) {
      f := FirstDelete(steps, states, k, m, u);
    } else {
      f := l;
    }
  }

  // Until the first DEL after the last renewal the lease is there.
  lemma NotLostYet(steps: seq<Step>, states: seq<State>, k: nat, f: nat, i: InstanceId, u: UserId)
    requires |states| == |steps| + 1 && k < f <= |steps| && Renews(states[k], steps[k], i, u)
    requires forall m :: k < m < f ==> !Deletes(states[m], steps[m], u)
    ensures !Lost(steps, states, f, i, u)
  {
    forall l: nat
      ensures !LostAt(steps, states, f, l, i, u)
    {
      assert !Deletes(states[k], steps[k], u);
    }
  }

  lemma TakenIsLost(steps: seq<Step>, states: seq<State>, n: nat, i: InstanceId, u: UserId, j: nat, k: nat, l: nat)
    requires |states| == |steps| + 1 && n <= |steps| && TakenBy(steps, states, n, i, u, j, k, l)
    ensures Lost(steps, states, n, i, u)
  {
    assert LostAt(steps, states, n, l, i, u);
  }

  lemma LostIsTaken(t: Cluster.Timing, steps: seq<Step>, states: seq<State>, n: nat, i: InstanceId, u: UserId)
      returns (j: nat, k: nat, l: nat)
    requires t.Valid() && t.Sufficient() && Trace(t, steps, states) && Initial(states[0]) && n <= |steps|
    requires Connected(states[n], i, u) && Lost(steps, states, n, i, u)
    ensures TakenBy(steps, states, n, i, u, j, k, l)
  {
    k := LastRenewal(t, steps, states, n, i, u);
    l :| LostAt(steps, states, n, l, i, u);
    assert k < l;
    l := FirstDelete(steps, states, k, l, u);
    j := ReadBefore(t, steps, states, l, steps[l].command.w);
    if k <= j {
      assert k != j;
      NotLostYet(steps, states, k, j, i, u);
      ConnectedSince(t, steps, states, k, j, n, i, u);
      LeasedUnlessLost(t, steps, states, j, i, u);
      assert false;
    }
  }

  /**
   * Lease continuity, command by command: with sufficient timing, in every run and every state, the lease of a
   * user who is connected to a live instance is missing or lapsed if and only if a sweeper read that the user has
   * no lease, then the instance's last connect script for the user ran, and then that sweeper deleted the key.
   */
  lemma {:induction false} LeaseLostExactly(t: Cluster.Timing, steps: seq<Step>, states: seq<State>, n: nat, i: InstanceId,
                                            u: UserId)
    requires t.Valid() && t.Sufficient() && Trace(t, steps, states) && Initial(states[0]) && n <= |steps|
    requires Connected(states[n], i, u)
    ensures !Leased(states[n], i, u) <==> exists j: nat, k: nat, l: nat :: TakenBy(steps, states, n, i, u, j, k, l)
  {
    LeasedUnlessLost(t, steps, states, n, i, u);
    if Lost(steps, states, n, i, u) {
      var j, k, l := LostIsTaken(t, steps, states, n, i, u);
    }
    forall j: nat, k: nat, l: nat | TakenBy(steps, states, n, i, u, j, k, l) {
      TakenIsLost(steps, states, n, i, u, j, k, l);
    }
  }

  // ---------- A run in which it happens ----------

  const T := Cluster.Timing(2, 1, 1, 0)
  const X := Socket(2, 0)
  const ASLEEP := Cluster.Host(map[], Cluster.Sleeping(2, 2))
  const LAPSED := Db(map[7 := map[1 := 2]], map[7 := 2])
  const CLAIMED := Db(map[7 := map[1 := 2]], map[])
  const NOBODY := Db(map[], map[])
  const AGAIN := Db(map[7 := map[2 := 4]], map[7 := 4])

  // Instance 0 sweeps, and instance 2 has the sockets.
  function Sweeping(swept: bool, sockets: SocketTable, db: Db, phase: map<InstanceId, Sweep.Phase>, ttl: Time): State {
    State(map[0 := Cluster.Host(map[], Cluster.Working(2, {}, 3, swept)), 2 := ASLEEP.(sockets := sockets)],
          Sweep.State(db, phase, map[7 := ttl], 2))
  }

  // User 7 connects to instance 1, which crashes. Two others join once the lease has lapsed, and the user connects
  // to one of them between the other's read and its DEL.
  function LossSteps(): seq<Step> {
    [Local(Cluster.Connect(1, 7, Socket(1, 0))), Local(Cluster.Crash(1)), Local(Cluster.Tick(2)), Local(Cluster.Join(0)),
     Local(Cluster.Join(2)), Local(Cluster.Wake(0)), Command(Sweep.Begin(0, 2, [7])), Command(Sweep.Claim(0)),
     Command(Sweep.Evict(0)), Command(Sweep.Read(0)), Local(Cluster.Connect(2, 7, X)), Command(Sweep.Purge(0))]
  }

  function LossStates(): seq<State> {
    var host := Cluster.Host(map[], Cluster.Sleeping(0, 0));
    [State(map[1 := host], Sweep.START),
     State(map[1 := host.(sockets := map[7 := {Socket(1, 0)}])], Sweep.State(LAPSED, map[], map[7 := 4], 0)),
     State(map[], Sweep.State(LAPSED, map[], map[7 := 4], 0)),
     State(map[], Sweep.State(LAPSED, map[], map[7 := 4], 2)),
     State(map[0 := ASLEEP], Sweep.State(LAPSED, map[], map[7 := 4], 2)),
     State(map[0 := ASLEEP, 2 := ASLEEP], Sweep.State(LAPSED, map[], map[7 := 4], 2)),
     Sweeping(false, map[], LAPSED, map[], 4),
     Sweeping(true, map[], LAPSED, map[0 := Sweep.Listed(2, [7])], 4),
     Sweeping(true, map[], CLAIMED, map[0 := Sweep.Claimed(2, 7, [])], 4),
     Sweeping(true, map[], NOBODY, map[0 := Sweep.Evicted(2, 7, [])], 4),
     Sweeping(true, map[], NOBODY, map[0 := Sweep.Purging(2, 7, [])], 4),
     Sweeping(true, map[7 := {X}], AGAIN, map[0 := Sweep.Purging(2, 7, [])], 6),
     Sweeping(true, map[7 := {X}], Db(map[], map[7 := 4]), map[0 := Sweep.Checking(2, 7, [])], 6)]
  }

  lemma OnlySocket(x: Socket)
    ensures Added(map[], 7, x) == map[7 := {x}]
  {
    var nobody: SocketTable := map[];
    assert SocketsOf(nobody, 7) + {x} == {x};
  }

  lemma LossFirst()
    ensures forall k :: 0 <= k < 3 ==> Moves(T, LossStates()[k], LossSteps()[k], LossStates()[k + 1])
  {
    assert Live(NOBODY.Leases(7), 0) == map[];
    assert NOBODY.Connect(1, 7, 0, 2) == LAPSED;
    OnlySocket(Socket(1, 0));
    var host := Cluster.Host(map[], Cluster.Sleeping(0, 0));
    assert map[1 := host.(sockets := map[7 := {Socket(1, 0)}])] - {1} == map[];
  }

  lemma LossSecond()
    ensures forall k :: 3 <= k < 5 ==> Moves(T, LossStates()[k], LossSteps()[k], LossStates()[k + 1])
  {
  }

  lemma LossWakes()
    ensures Moves(T, LossStates()[5], LossSteps()[5], LossStates()[6])
  {
    var none: SocketTable := map[];
    assert none.Keys == {};
  }

  lemma LossBegins()
    ensures Moves(T, LossStates()[6], LossSteps()[6], LossStates()[7])
  {
    assert Expired(LAPSED.users, 2) == {7};
  }

  lemma LossClaims()
    ensures Moves(T, LossStates()[7], LossSteps()[7], LossStates()[8])
  {
    assert LAPSED.users - {7} == map[] && Sweep.Listed(2, [7]).todo[1..] == [];
  }

  lemma LossThird()
    ensures forall k :: 8 <= k < 10 ==> Moves(T, LossStates()[k], LossSteps()[k], LossStates()[k + 1])
  {
    assert Live(CLAIMED.Leases(7), 2) == map[];
    assert CLAIMED.leases - {7} == map[];
  }

  lemma LossConnects()
    ensures Moves(T, LossStates()[10], LossSteps()[10], LossStates()[11])
  {
    assert Live(NOBODY.Leases(7), 2) == map[];
    assert NOBODY.Connect(2, 7, 2, 2) == AGAIN;
    OnlySocket(X);
  }

  lemma LossLast()
    ensures Moves(T, LossStates()[11], LossSteps()[11], LossStates()[12])
  {
    assert AGAIN.leases - {7} == map[];
  }

  /** A run, with sufficient timing, in which a user connects, stays connected, and has no lease. */
  lemma {:induction false} FreshLeaseTaken() returns (steps: seq<Step>, states: seq<State>)
    ensures T.Valid() && T.Sufficient() && Trace(T, steps, states) && Initial(states[0])
    ensures |steps| == 12 && TakenBy(steps, states, 12, 2, 7, 9, 10, 11)
    ensures Connected(states[12], 2, 7) && !states[12].redis.db.Online(7, 2)
  {
    steps, states := LossSteps(), LossStates();
    LossFirst();
    LossSecond();
    LossWakes();
    LossBegins();
    LossClaims();
    LossThird();
    LossConnects();
    LossLast();
    assert Live(states[12].redis.db.Leases(7), 2) == map[];
  }

  // ---------- The next heartbeat ----------

  // By when the loop has refreshed the user, as long as the user stays connected.
  function BeatBy(t: Cluster.Timing, loop: Cluster.Loop, u: UserId): Time {
    match loop
    case Sleeping(wake, next) => Max(wake, next + t.work + t.sweep) + t.work
    case Working(start, pending, next, _) => if u in pending then start + t.work else next + 2 * t.work + t.sweep
  }

  lemma BeatNotPostponed(t: Cluster.Timing, s: State, step: Step, i: InstanceId, u: UserId)
    requires t.Valid() && Enabled(t, s, step) && Connected(s, i, u) && Connected(Apply(t, s, step), i, u)
    requires step != Local(Cluster.Refresh(i, u)) && Cluster.LoopOnTime(t, s.redis.now, s.hosts[i].loop)
    ensures BeatBy(t, Apply(t, s, step).hosts[i].loop, u) <= BeatBy(t, s.hosts[i].loop, u)
  {
  }

  lemma LoopsOnTime(t: Cluster.Timing, steps: seq<Step>, states: seq<State>, n: nat, i: InstanceId)
    requires t.Valid() && t.Sufficient() && Trace(t, steps, states) && Initial(states[0]) && n <= |steps|
    requires i in states[n].hosts
    ensures Cluster.LoopOnTime(t, states[n].redis.now, states[n].hosts[i].loop)
  {
    GrantedOnTime(t, steps, states, n);
    assert Cluster.HostOnTime(t, Granted(t, steps, states, n), states[n].redis.now, i, states[n].hosts[i]);
  }

  lemma {:induction false} BeatComes(t: Cluster.Timing, steps: seq<Step>, states: seq<State>, m: nat, n: nat, i: InstanceId,
                                     u: UserId) returns (k: nat)
    requires t.Valid() && t.Sufficient() && Trace(t, steps, states) && Initial(states[0]) && m <= n <= |steps|
    requires forall l :: m <= l <= n ==> Connected(states[l], i, u)
    requires Connected(states[m], i, u) && BeatBy(t, states[m].hosts[i].loop, u) < states[n].redis.now
    ensures m <= k < n && steps[k] == Local(Cluster.Refresh(i, u))
    decreases n - m
  {
    LoopsOnTime(t, steps, states, m, i);
    assert m != n;
    k := m;
    if steps[m] != Local(Cluster.Refresh(i, u)) {
      assert Moves(t, states[m], steps[m], states[m + 1]);
      BeatNotPostponed(t, states[m], steps[m], i, u);
      k := BeatComes(t, steps, states, m + 1, n, i, u);
    }
  }

  /**
   * The next heartbeat: whatever happened to the lease, a user who stays connected to an instance for longer than
   * a heartbeat, a sleep and two bounded iterations is refreshed in that time and then has an unexpired lease,
   * until another DEL comes.
   */
  lemma {:induction false} HeartbeatRestores(t: Cluster.Timing, steps: seq<Step>, states: seq<State>, m: nat, n: nat,
                                             i: InstanceId, u: UserId) returns (k: nat)
    requires t.Valid() && t.Sufficient() && Trace(t, steps, states) && Initial(states[0]) && m <= n <= |steps|
    requires forall l :: m <= l <= n ==> Connected(states[l], i, u)
    requires states[m].redis.now + t.heartbeat + t.sweep + 2 * t.work < states[n].redis.now
    ensures m <= k < n && steps[k] == Local(Cluster.Refresh(i, u)) && Leased(states[k + 1], i, u)
    ensures Leased(states[n], i, u) || exists l :: k < l < n && Deletes(states[l], steps[l], u)
  {
    LoopsOnTime(t, steps, states, m, i);
    k := BeatComes(t, steps, states, m, n, i, u);
    NotLostYet(steps, states, k, k + 1, i, u);
    LeasedUnlessLost(t, steps, states, k + 1, i, u);
    LeasedUnlessLost(t, steps, states, n, i, u);
    if forall l :: k < l < n ==> !Deletes(states[l], steps[l], u) {
      NotLostYet(steps, states, k, n, i, u);
    }
  }
}
