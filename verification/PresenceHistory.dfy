/**
 * What the history of the presence commands alone says: which lease each instance has for each user, what every
 * script and presence read answers, and which scores the index gets.
 */
module PresenceHistory {
  import opened Basics
  import opened SortedSets
  import opened PresenceDb
  import opened PresenceSweep

  // A lease after the removal of every deadline up to a time.
  function Outlasting(lease: Option<Time>, at: Time): Option<Time> {
    if lease.Some? && lease.value <= at then None else lease
  }

  // The deadline that the first n commands leave of instance i's lease of user u.
  ghost function LeaseOf(ttl: Time, steps: seq<Step>, states: seq<State>, n: nat, u: UserId, i: InstanceId): Option<Time>
    requires Trace(ttl, steps, states) && n <= |steps|
  {
    if n == 0 then None
    else
      assert Moves(ttl, states[n - 1], steps[n - 1], states[n]);
      var before, s := LeaseOf(ttl, steps, states, n - 1, u, i), states[n - 1];
      match steps[n - 1]
      case ConnectScript(j, v, at) =>
        if v != u then before else if j == i then Some(at + ttl) else Outlasting(before, at)
      case DisconnectScript(j, v, at) =>
        if v != u then before else if j == i then None else Outlasting(before, at)
      case Query(v, at) => if v != u then before else Outlasting(before, at)
      case KeyExpires(v) => if v != u then before else None
      case Evict(w) => if s.PhaseOf(w).u != u then before else Outlasting(before, s.PhaseOf(w).at)
      case Purge(w) => if s.PhaseOf(w).u != u then before else None
      case Check(w, at) => if s.PhaseOf(w).u != u then before else Outlasting(before, at)
      case _ => before
  }

  // What one command does to one stored lease.
  lemma StoredStep(ttl: Time, s: State, step: Step, u: UserId, i: InstanceId, x: Time)
    requires Enabled(s, step)
    ensures Stored(Apply(ttl, s, step).db, u, i, x) <==>
              match step
              case ConnectScript(j, v, at) =>
                if v == u && j == i then x == at + ttl else Stored(s.db, u, i, x) && (v == u ==> at < x)
              case DisconnectScript(j, v, at) => Stored(s.db, u, i, x) && (v == u ==> j != i && at < x)
              case Query(v, at) => Stored(s.db, u, i, x) && (v == u ==> at < x)
              case KeyExpires(v) => v != u && Stored(s.db, u, i, x)
              case Evict(w) => Stored(s.db, u, i, x) && (s.PhaseOf(w).u == u ==> s.PhaseOf(w).at < x)
              case Purge(w) => s.PhaseOf(w).u != u && Stored(s.db, u, i, x)
              case Check(w, at) => Stored(s.db, u, i, x) && (s.PhaseOf(w).u == u ==> at < x)
              case _ => Stored(s.db, u, i, x)
  {
    match step {
      case ConnectScript(j, v, at) => ConnectExact(s.db, j, v, at, ttl);
      case DisconnectScript(j, v, at) => DisconnectExact(s.db, j, v, at);
      case Query(v, at) => ReadExact(s.db, v, at);
      case Evict(w) => ReadExact(s.db, s.PhaseOf(w).u, s.PhaseOf(w).at);
      case Check(w, at) => ReadExact(s.db, s.PhaseOf(w).u, at);
      case _ =>
    }
  }

  /** The lease keys are their history: after every run, a lease is stored exactly if the history leaves it. */
  lemma {:induction false} LeasesAreHistory(ttl: Time, steps: seq<Step>, states: seq<State>, n: nat, u: UserId, i: InstanceId)
    requires Trace(ttl, steps, states) && states[0] == START && n <= |steps|
    ensures forall x :: Stored(states[n].db, u, i, x) <==> LeaseOf(ttl, steps, states, n, u, i) == Some(x)
  {
    if n > 0 {
      LeasesAreHistory(ttl, steps, states, n - 1, u, i);
      assert Moves(ttl, states[n - 1], steps[n - 1], states[n]);
      forall x
        ensures Stored(states[n].db, u, i, x) <==> LeaseOf(ttl, steps, states, n, u, i) == Some(x)
      {
        StoredStep(ttl, states[n - 1], steps[n - 1], u, i, x);
      }
    }
  }

  // A lease that the history leaves was last written by this connect script.
  lemma {:induction false} WrittenAt(ttl: Time, steps: seq<Step>, states: seq<State>, n: nat, u: UserId, i: InstanceId)
      returns (k: nat)
    requires Trace(ttl, steps, states) && n <= |steps| && LeaseOf(ttl, steps, states, n, u, i).Some?
    ensures k < n && steps[k] == ConnectScript(i, u, LeaseOf(ttl, steps, states, n, u, i).value - ttl)
  {
    k := n - 1;
    if steps[k] != ConnectScript(i, u, LeaseOf(ttl, steps, states, n, u, i).value - ttl) {
      k := WrittenAt(ttl, steps, states, n - 1, u, i);
    }
  }

  // The connect script at k wrote a lease for the user that is still there after n commands.
  ghost predicate Stands(ttl: Time, steps: seq<Step>, states: seq<State>, n: nat, u: UserId, k: nat)
    requires Trace(ttl, steps, states) && n <= |steps|
  {
    && k < n && steps[k].ConnectScript? && steps[k].u == u
    && LeaseOf(ttl, steps, states, n, u, steps[k].i) == Some(steps[k].at + ttl)
  }

  // A connect script within the last lifetime, of an instance that is not `but`, left a lease that still stands.
  ghost predicate Alive(ttl: Time, steps: seq<Step>, states: seq<State>, n: nat, u: UserId, at: Time, but: Option<InstanceId>)
    requires Trace(ttl, steps, states) && n <= |steps|
  {
    exists k: nat :: Stands(ttl, steps, states, n, u, k) && at < steps[k].at + ttl && Some(steps[k].i) != but
  }

  lemma UnexpiredIsAlive(ttl: Time, steps: seq<Step>, states: seq<State>, n: nat, u: UserId, at: Time, but: Option<InstanceId>)
    requires Trace(ttl, steps, states) && states[0] == START && n <= |steps|
    ensures (exists j: InstanceId :: Some(j) != but && Unexpired(states[n].db, u, j, at)) <==> Alive(ttl, steps, states, n, u, at, but)
  {
    if j: InstanceId :| Some(j) != but && Unexpired(states[n].db, u, j, at) {
      LeasesAreHistory(ttl, steps, states, n, u, j);
      assert Stored(states[n].db, u, j, states[n].db.leases[u][j]);
      var k := WrittenAt(ttl, steps, states, n, u, j);
      assert Stands(ttl, steps, states, n, u, k);
    }
    if Alive(ttl, steps, states, n, u, at, but) {
      var k: nat :| Stands(ttl, steps, states, n, u, k) && at < steps[k].at + ttl && Some(steps[k].i) != but;
      LeasesAreHistory(ttl, steps, states, n, u, steps[k].i);
      assert Stored(states[n].db, u, steps[k].i, steps[k].at + ttl);
      assert Unexpired(states[n].db, u, steps[k].i, at);
    }
  }

  /**
   * Every answer is the history's: a connect finds the user offline exactly if no connect script of the user
   * within the last lifetime left a lease that still stands; a disconnect leaves the user offline exactly if none of
   * another instance did; and a presence read answers online exactly if one did.
   */
  lemma {:induction false} AnswersAreHistory(ttl: Time, steps: seq<Step>, states: seq<State>, n: nat, u: UserId,
                                             i: InstanceId, at: Time)
    requires Trace(ttl, steps, states) && states[0] == START && n <= |steps|
    ensures states[n].db.ConnectReturns(u, at) <==> !Alive(ttl, steps, states, n, u, at, None)
    ensures states[n].db.DisconnectReturns(i, u, at) <==> !Alive(ttl, steps, states, n, u, at, Some(i))
    ensures states[n].db.Online(u, at) <==> Alive(ttl, steps, states, n, u, at, None)
  {
    UnexpiredIsAlive(ttl, steps, states, n, u, at, None);
    UnexpiredIsAlive(ttl, steps, states, n, u, at, Some(i));
    ConnectExact(states[n].db, i, u, at, ttl);
    DisconnectExact(states[n].db, i, u, at);
    ReadExact(states[n].db, u, at);
  }

  // ---------- The index ----------

  // The latest deadline stored for the user.
  ghost predicate Latest(db: Db, u: UserId, x: Time) {
    (exists j :: Stored(db, u, j, x)) && forall k, y :: Stored(db, u, k, y) ==> y <= x
  }

  /** What one command does to a user's score in the index. */
  lemma {:induction false} ScoredStep(ttl: Time, s: State, step: Step, u: UserId, x: Time)
    requires Enabled(s, step)
    ensures Scored(Apply(ttl, s, step).db, u, x) <==>
              match step
              case ConnectScript(_, v, at) => if v == u then x == at + ttl else Scored(s.db, u, x)
              case DisconnectScript(_, v, _) => if v == u then Latest(Apply(ttl, s, step).db, u, x) else Scored(s.db, u, x)
              case Claim(w) => s.PhaseOf(w).todo[0] != u && Scored(s.db, u, x)
              case Restore(w) => if s.PhaseOf(w).u == u then x == s.PhaseOf(w).score else Scored(s.db, u, x)
              case _ => Scored(s.db, u, x)
  {
    match step {
      case ConnectScript(j, v, at) => ConnectExact(s.db, j, v, at, ttl);
      case DisconnectScript(j, v, at) => DisconnectExact(s.db, j, v, at);
      case Query(v, at) => ReadExact(s.db, v, at);
      case Evict(w) => ReadExact(s.db, s.PhaseOf(w).u, s.PhaseOf(w).at);
      case Check(w, at) => ReadExact(s.db, s.PhaseOf(w).u, at);
      case _ =>
    }
  }

  lemma ReadsLatest(ttl: Time, s: State, w: SweeperId)
    requires Enabled(s, Read(w))
    ensures var p := Apply(ttl, s, Read(w)).PhaseOf(w);
            && p.u == s.PhaseOf(w).u && (p.Purging? <==> forall j, y :: !Stored(s.db, p.u, j, y))
            && (p.Restoring? <==> exists j, y :: Stored(s.db, p.u, j, y))
            && (p.Restoring? ==> Latest(s.db, p.u, p.score))
  {
    var u := s.PhaseOf(w).u;
    if s.db.Leases(u) != map[] {
      var j := TopMember(s.db.Leases(u));
      assert Stored(s.db, u, j, Top(s.db.Leases(u)));
    }
  }

  /** A sweep that finds leases re-indexes the user at the latest deadline that it read, whatever came between. */
  lemma {:induction false} RestoresLatest(ttl: Time, steps: seq<Step>, states: seq<State>, k: nat, l: nat, w: SweeperId)
    requires Trace(ttl, steps, states) && k < l < |steps| && steps[k] == Read(w) && steps[l] == Restore(w)
    requires forall j :: k < j < l ==> !IsOf(steps[j], w)
    ensures states[k].PhaseOf(w).Evicted?
    ensures var u := states[k].PhaseOf(w).u;
            forall x :: Scored(states[l + 1].db, u, x) <==> Latest(states[k].db, u, x)
  {
    assert Moves(ttl, states[k], steps[k], states[k + 1]);
    assert Moves(ttl, states[l], steps[l], states[l + 1]);
    PhaseWaits(ttl, steps, states, k + 1, l, w);
    ReadsLatest(ttl, states[k], w);
    var u := states[k].PhaseOf(w).u;
    forall x
      ensures Scored(states[l + 1].db, u, x) <==> Latest(states[k].db, u, x)
    {
      ScoredStep(ttl, states[l], Restore(w), u, x);
    }
  }

  /** A sweep lists the due users, at most a hundred of them and those with the lowest scores. */
  lemma {:induction false} ListsDue(s: State, w: SweeperId, at: Time, batch: seq<UserId>)
    requires Enabled(s, Begin(w, at, batch))
    ensures forall u :: u in batch ==> u in s.db.users && s.db.users[u] <= at
    ensures |batch| <= 100
    ensures forall u :: u in s.db.users && s.db.users[u] <= at && u !in batch ==>
              |batch| == 100 && forall v :: v in batch ==> s.db.users[v] <= s.db.users[u]
  {
    if u :| u in s.db.users && s.db.users[u] <= at && u !in batch {
      DistinctSize(batch);
      SubsetSize(Elements(batch), Expired(s.db.users, at));
      assert u in Expired(s.db.users, at) && u !in Elements(batch);
    }
  }
}
