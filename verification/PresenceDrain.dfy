/**
 * Presence histories with atomic sweeps: connects, disconnects, presence reads and sweeps by any of the
 * instances, in any order, each at its own clock reading. A backlog drains however many operations lie
 * between the sweeps, and no lapse is reported twice.
 */
module PresenceDrain {
  import opened Basics
  import opened SortedSets
  import opened PresenceDb

  const BATCH := 100

  datatype Op =
    | Connected(i: InstanceId, u: UserId, at: Time)
    | Disconnected(i: InstanceId, u: UserId, at: Time)
    | Asked(u: UserId, at: Time)
    | Swept(at: Time, batch: seq<UserId>)

  ghost predicate Enabled(db: Db, op: Op) {
    op.Swept? ==> IsBatch(db.users, op.at, BATCH, op.batch)
  }

  function Apply(ttl: Time, db: Db, op: Op): Db {
    match op
    case Connected(i, u, at) => db.Connect(i, u, at, ttl)
    case Disconnected(i, u, at) => db.Disconnect(i, u, at)
    case Asked(u, at) => db.Evict(u, at)
    case Swept(at, batch) => db.Sweep(batch, at)
  }

  function After(ttl: Time, db: Db, ops: seq<Op>): Db
    decreases |ops|
  {
    if ops == [] then db else Apply(ttl, After(ttl, db, ops[..|ops| - 1]), ops[|ops| - 1])
  }

  ghost predicate Legal(ttl: Time, db: Db, ops: seq<Op>)
    decreases |ops|
  {
    ops != [] ==> Legal(ttl, db, ops[..|ops| - 1]) && Enabled(After(ttl, db, ops[..|ops| - 1]), ops[|ops| - 1])
  }

  // ---------- What a sweep does to one user ----------

  lemma {:induction false} SweepSpares(db: Db, batch: seq<UserId>, at: Time, v: UserId)
    requires v !in batch
    ensures v in db.Sweep(batch, at).users <==> v in db.users
    ensures v in db.users ==> db.Sweep(batch, at).users[v] == db.users[v]
    ensures db.Sweep(batch, at).Leases(v) == db.Leases(v)
    ensures v !in db.SweepReports(batch, at)
    decreases |batch|
  {
    if batch != [] {
      SweepSpares(db.SweepUser(batch[0], at), batch[1..], at, v);
    }
  }

  // A listed user leaves the index, reported, exactly if no lease is unexpired, and else moves past `at`.
  lemma {:induction false} SweepTakes(db: Db, batch: seq<UserId>, at: Time, v: UserId)
    requires Distinct(batch) && v in batch && v in db.users
    ensures v in db.Sweep(batch, at).users <==> db.Online(v, at)
    ensures db.Online(v, at) ==> at < db.Sweep(batch, at).users[v] == Top(Live(db.Leases(v), at))
    ensures db.Sweep(batch, at).Leases(v) == Live(db.Leases(v), at)
    ensures v in db.SweepReports(batch, at) <==> !db.Online(v, at)
    decreases |batch|
  {
    var next, rest := db.SweepUser(batch[0], at), batch[1..];
    assert batch == [batch[0]] + rest;
    if batch[0] == v {
      SweepSpares(next, rest, at, v);
      if db.Online(v, at) {
        var i := TopMember(Live(db.Leases(v), at));
      }
    } else {
      SweepTakes(next, rest, at, v);
    }
  }

  // ---------- The backlog ----------

  // An operation that reads its clock late enough not to write a deadline up to `due`.
  predicate Late(ttl: Time, op: Op, due: Time) {
    && (op.Connected? ==> due < op.at + ttl)
    && (op.Disconnected? ==> due <= op.at)
  }

  function SweepsFrom(ops: seq<Op>, due: Time): nat
    decreases |ops|
  {
    if ops == [] then 0
    else SweepsFrom(ops[..|ops| - 1], due) + if ops[|ops| - 1].Swept? && due <= ops[|ops| - 1].at then 1 else 0
  }

  // No operation refills what was due.
  lemma {:induction false} DueShrinks(ttl: Time, db: Db, op: Op, due: Time)
    requires Enabled(db, op) && Late(ttl, op, due)
    ensures Expired(Apply(ttl, db, op).users, due) <= Expired(db.users, due)
  {
    var d := Apply(ttl, db, op);
    forall v | v in Expired(d.users, due)
      ensures v in Expired(db.users, due)
    {
      match op {
        case Swept(at, batch) =>
          if v in batch {
            SweepTakes(db, batch, at, v);
          } else {
            SweepSpares(db, batch, at, v);
          }
        case Disconnected(i, u, at) =>
          if v == u {
            var k := TopMember(db.LeasesWithout(i, u, at));
            assert false;
          }
        case _ =>
      }
    }
  }

  // A sweep takes a hundred of the due entries or all of them.
  lemma {:induction false} SweepTakesDue(db: Db, at: Time, batch: seq<UserId>, due: Time)
    requires IsBatch(db.users, at, BATCH, batch) && due <= at
    ensures |Expired(db.Sweep(batch, at).users, due)| <= Max(0, |Expired(db.users, due)| - BATCH)
  {
    var rest, left := Expired(db.users, due) - Elements(batch), Expired(db.Sweep(batch, at).users, due);
    forall v | v in left
      ensures v in rest
    {
      if v in batch {
        SweepTakes(db, batch, at, v);
        assert false;
      }
      SweepSpares(db, batch, at, v);
    }
    SubsetSize(left, rest);
    BatchTakesDue(db.users, at, BATCH, batch, due);
  }

  /**
   * Draining: however connects, disconnects, reads and sweeps follow each other, of n index entries due at
   * some time at most n - 100 k are left after k sweeps from then on, and nothing is ever added to them.
   */
  lemma {:induction false} BacklogDrains(ttl: Time, db: Db, ops: seq<Op>, due: Time)
    requires Legal(ttl, db, ops) && forall op :: op in ops ==> Late(ttl, op, due)
    ensures Expired(After(ttl, db, ops).users, due) <= Expired(db.users, due)
    ensures |Expired(After(ttl, db, ops).users, due)| <= Max(0, |Expired(db.users, due)| - 100 * SweepsFrom(ops, due))
    decreases |ops|
  {
    if ops != [] {
      var front, op := ops[..|ops| - 1], ops[|ops| - 1];
      assert ops == front + [op];
      BacklogDrains(ttl, db, front, due);
      var s := After(ttl, db, front);
      DueShrinks(ttl, s, op, due);
      SubsetSize(Expired(Apply(ttl, s, op).users, due), Expired(s.users, due));
      if op.Swept? && due <= op.at {
        SweepTakesDue(s, op.at, op.batch, due);
      }
    }
  }

  // ---------- Reports ----------

  ghost predicate ReportedAt(ttl: Time, db: Db, ops: seq<Op>, k: nat, u: UserId) {
    k < |ops| && ops[k].Swept? && u in After(ttl, db, ops[..k]).SweepReports(ops[k].batch, ops[k].at)
  }

  // No index entry and no lease.
  predicate Forgotten(db: Db, u: UserId) {
    u !in db.users && db.Leases(u) == map[]
  }

  lemma ReportForgets(db: Db, at: Time, batch: seq<UserId>, u: UserId)
    requires IsBatch(db.users, at, BATCH, batch) && u in db.SweepReports(batch, at)
    ensures u in db.users && Forgotten(db.Sweep(batch, at), u)
  {
    if u !in batch {
      SweepSpares(db, batch, at, u);
      assert false;
    }
    SweepTakes(db, batch, at, u);
  }

  lemma StaysForgotten(ttl: Time, db: Db, op: Op, u: UserId)
    requires Enabled(db, op) && Forgotten(db, u) && !(op.Connected? && op.u == u)
    ensures Forgotten(Apply(ttl, db, op), u)
    ensures op.Swept? ==> u !in db.SweepReports(op.batch, op.at)
  {
    match op {
      case Swept(at, batch) => SweepSpares(db, batch, at, u);
      case Disconnected(i, v, at) => assert v == u ==> db.LeasesWithout(i, v, at) == map[];
      case Asked(v, at) => assert v == u ==> Live(db.Leases(v), at) == map[];
      case _ =>
    }
  }

  lemma {:induction false} LegalPrefix(ttl: Time, db: Db, ops: seq<Op>, n: nat)
    requires Legal(ttl, db, ops) && n <= |ops|
    ensures Legal(ttl, db, ops[..n])
    ensures n < |ops| ==> Enabled(After(ttl, db, ops[..n]), ops[n])
    ensures n < |ops| ==> After(ttl, db, ops[..n + 1]) == Apply(ttl, After(ttl, db, ops[..n]), ops[n])
    decreases |ops|
  {
    if n + 1 < |ops| {
      LegalPrefix(ttl, db, ops[..|ops| - 1], n);
      assert ops[..|ops| - 1][..n] == ops[..n] && ops[..|ops| - 1][..n + 1] == ops[..n + 1];
    } else if n + 1 == |ops| {
      assert ops[..n + 1] == ops;
    } else {
      assert ops[..n] == ops;
    }
  }

  // From the report at k on, as long as nothing connects the user.
  lemma {:induction false} ForgottenUntil(ttl: Time, db: Db, ops: seq<Op>, k: nat, l: nat, u: UserId)
    requires Legal(ttl, db, ops) && k < l <= |ops| && ReportedAt(ttl, db, ops, k, u)
    requires forall j :: k < j < l ==> !(ops[j].Connected? && ops[j].u == u)
    ensures Forgotten(After(ttl, db, ops[..l]), u)
    decreases l
  {
    LegalPrefix(ttl, db, ops, l - 1);
    if l == k + 1 {
      ReportForgets(After(ttl, db, ops[..k]), ops[k].at, ops[k].batch, u);
    } else {
      ForgottenUntil(ttl, db, ops, k, l - 1, u);
      StaysForgotten(ttl, After(ttl, db, ops[..l - 1]), ops[l - 1], u);
    }
  }

  /** Reported once: between two reports of a user, whoever swept and whenever, the user connects again. */
  lemma {:induction false} ReportedOnce(ttl: Time, db: Db, ops: seq<Op>, k: nat, l: nat, u: UserId)
    requires Legal(ttl, db, ops) && k < l && ReportedAt(ttl, db, ops, k, u) && ReportedAt(ttl, db, ops, l, u)
    ensures exists j :: k < j < l && ops[j].Connected? && ops[j].u == u
  {
    if forall j :: k < j < l ==> !(ops[j].Connected? && ops[j].u == u) {
      ForgottenUntil(ttl, db, ops, k, l, u);
      LegalPrefix(ttl, db, ops, l);
      StaysForgotten(ttl, After(ttl, db, ops[..l]), ops[l], u);
      assert false;
    }
  }

  // ---------- A lapse is reported ----------

  function Reports(ttl: Time, db: Db, ops: seq<Op>, u: UserId): nat
    decreases |ops|
  {
    if ops == [] then 0
    else
      var front, op := ops[..|ops| - 1], ops[|ops| - 1];
      Reports(ttl, db, front, u)
      + if op.Swept? && u in After(ttl, db, front).SweepReports(op.batch, op.at) then 1 else 0
  }

  // Every deadline of the user is at most `due`.
  ghost predicate DueBy(db: Db, u: UserId, due: Time) {
    && (u in db.users ==> db.users[u] <= due)
    && forall i :: i in db.Leases(u) ==> db.Leases(u)[i] <= due
  }

  predicate Concerns(op: Op, u: UserId) {
    (op.Connected? || op.Disconnected?) && op.u == u
  }

  // A step that is not the user's own leaves the entry, due as before, or a sweep takes it and reports it.
  lemma OthersStep(ttl: Time, db: Db, op: Op, u: UserId, due: Time)
    requires Enabled(db, op) && !Concerns(op, u) && DueBy(db, u, due)
    ensures DueBy(Apply(ttl, db, op), u, due)
    ensures u in Apply(ttl, db, op).users ==> u in db.users
    ensures (op.Swept? && u in db.SweepReports(op.batch, op.at)) <==> u in db.users && u !in Apply(ttl, db, op).users
  {
    match op {
      case Swept(at, batch) =>
        if u in batch {
          SweepTakes(db, batch, at, u);
          if db.Online(u, at) {
            var i := TopMember(Live(db.Leases(u), at));
          }
        } else {
          SweepSpares(db, batch, at, u);
        }
      case Asked(v, at) => AskedStep(db, v, at, u, due);
      case Connected(i, v, at) => assert Apply(ttl, db, op).Leases(u) == db.Leases(u);
      case Disconnected(i, v, at) => assert Apply(ttl, db, op).Leases(u) == db.Leases(u);
    }
  }

  lemma AskedStep(db: Db, v: UserId, at: Time, u: UserId, due: Time)
    requires DueBy(db, u, due)
    ensures DueBy(db.Evict(v, at), u, due)
  {
    var after := db.Evict(v, at);
    forall i | i in after.Leases(u)
      ensures after.Leases(u)[i] <= due
    {
      assert i in db.Leases(u);
    }
  }

  lemma {:induction false} ReportedWhenTaken(ttl: Time, db: Db, ops: seq<Op>, u: UserId, due: Time)
    requires Legal(ttl, db, ops) && u in db.users && DueBy(db, u, due)
    requires forall op :: op in ops ==> !Concerns(op, u)
    ensures DueBy(After(ttl, db, ops), u, due)
    ensures Reports(ttl, db, ops, u) == if u in After(ttl, db, ops).users then 0 else 1
    decreases |ops|
  {
    if ops != [] {
      var front, op := ops[..|ops| - 1], ops[|ops| - 1];
      assert ops == front + [op];
      ReportedWhenTaken(ttl, db, front, u, due);
      OthersStep(ttl, After(ttl, db, front), op, u, due);
    }
  }

  /**
   * A lapse is reported: an indexed user whose deadlines have all passed, and who neither connects nor
   * disconnects again, is reported exactly once within ceil(n / 100) sweeps, where n entries were due.
   */
  lemma {:induction false} LapseIsReported(ttl: Time, db: Db, ops: seq<Op>, u: UserId, due: Time)
    requires Legal(ttl, db, ops) && u in db.users && DueBy(db, u, due)
    requires forall op :: op in ops ==> !Concerns(op, u) && Late(ttl, op, due)
    requires |Expired(db.users, due)| <= 100 * SweepsFrom(ops, due)
    ensures Reports(ttl, db, ops, u) == 1 && u !in After(ttl, db, ops).users
  {
    BacklogDrains(ttl, db, ops, due);
    ReportedWhenTaken(ttl, db, ops, u, due);
    var left := After(ttl, db, ops).users;
    assert Expired(left, due) == {};
    assert u in left ==> u in Expired(left, due);
  }
}
