/** Typing indicators: deadlines and stop events shared in Redis, and sweeps that claim each expiry once. */
module Typing {
  import opened Basics
  import opened SortedSets

  datatype Member = Member(conversation: ConversationId, user: UserId)

  // Who is told, and the stop event they get, kept until the indicator ends.
  datatype Notice = Notice(targets: seq<UserId>, event: nat)

  const LIMIT := 100

  datatype Store = Store(deadlines: Zset<Member>, data: map<Member, Notice>) {

    // A start sets the deadline and the stop event together.
    function Start(m: Member, deadline: Time, notice: Notice): Store {
      Store(deadlines[m := deadline], data[m := notice])
    }

    // A stop removes both together.
    function Stop(m: Member): Store {
      Store(deadlines - {m}, data - {m})
    }

    // The sweep script over the members it listed.
    function Sweep(batch: seq<Member>): Store
      decreases |batch|
    {
      if batch == [] then this else (if batch[0] in deadlines then Stop(batch[0]) else this).Sweep(batch[1..])
    }

    // What the script returns.
    function Claims(batch: seq<Member>): seq<Notice>
      decreases |batch|
    {
      if batch == [] then []
      else (if batch[0] in deadlines && batch[0] in data then [data[batch[0]]] else [])
           + (if batch[0] in deadlines then Stop(batch[0]) else this).Claims(batch[1..])
    }
  }

  const EMPTY: Store := Store(map[], map[])

  // ---------- Histories ----------

  datatype Op =
    | Started(m: Member, at: Time, notice: Notice)
    | Stopped(m: Member)
    | Swept(now: Time, batch: seq<Member>)

  ghost predicate Enabled(s: Store, op: Op) {
    op.Swept? ==> IsBatch(s.deadlines, op.now, LIMIT, op.batch)
  }

  function Apply(ttl: Time, s: Store, op: Op): Store {
    match op
    case Started(m, at, notice) => s.Start(m, at + ttl, notice)
    case Stopped(m) => s.Stop(m)
    case Swept(_, batch) => s.Sweep(batch)
  }

  function After(ttl: Time, s: Store, ops: seq<Op>): Store
    decreases |ops|
  {
    if ops == [] then s else Apply(ttl, After(ttl, s, ops[..|ops| - 1]), ops[|ops| - 1])
  }

  ghost predicate Legal(ttl: Time, s: Store, ops: seq<Op>)
    decreases |ops|
  {
    ops != [] ==> Legal(ttl, s, ops[..|ops| - 1]) && Enabled(After(ttl, s, ops[..|ops| - 1]), ops[|ops| - 1])
  }

  // What the history alone says: the start of m that nothing has ended since.
  function Pending(ops: seq<Op>, m: Member): Option<Op>
    decreases |ops|
  {
    if ops == [] then None
    else
      match ops[|ops| - 1]
      case Started(x, at, notice) => if x == m then Some(ops[|ops| - 1]) else Pending(ops[..|ops| - 1], m)
      case Stopped(x) => if x == m then None else Pending(ops[..|ops| - 1], m)
      case Swept(_, batch) => if m in batch then None else Pending(ops[..|ops| - 1], m)
  }

  lemma {:induction false} SweepEnds(s: Store, batch: seq<Member>)
    requires s.deadlines.Keys == s.data.Keys
    ensures s.Sweep(batch) == Store(s.deadlines - Elements(batch), s.data - Elements(batch))
    decreases |batch|
  {
    if batch == [] {
      assert s.deadlines - {} == s.deadlines && s.data - {} == s.data;
    } else {
      var d := if batch[0] in s.deadlines then s.Stop(batch[0]) else s;
      assert Elements(batch) == {batch[0]} + Elements(batch[1..]);
      SweepEnds(d, batch[1..]);
    }
  }

  /** What a sweep returns: the notices of the listed members, each of which it found pending. */
  lemma {:induction false} SweepClaims(s: Store, batch: seq<Member>)
    requires s.deadlines.Keys == s.data.Keys && Distinct(batch)
    requires forall m :: m in batch ==> m in s.data
    ensures |s.Claims(batch)| == |batch|
    ensures forall k :: 0 <= k < |batch| ==> s.Claims(batch)[k] == s.data[batch[k]]
    decreases |batch|
  {
    if batch != [] {
      var d := s.Stop(batch[0]);
      assert forall m :: m in batch[1..] ==> m != batch[0];
      SweepClaims(d, batch[1..]);
      assert s.Claims(batch) == [s.data[batch[0]]] + d.Claims(batch[1..]);
    }
  }

  /**
   * The store is exactly what the history leaves pending: deadline and stop event of the last start
   * not yet stopped or claimed. The two keys always have the same members.
   */
  lemma {:induction false} StoreIsPending(ttl: Time, ops: seq<Op>)
    requires Legal(ttl, EMPTY, ops)
    ensures After(ttl, EMPTY, ops).deadlines.Keys == After(ttl, EMPTY, ops).data.Keys
    ensures forall m :: m in After(ttl, EMPTY, ops).deadlines <==> Pending(ops, m).Some?
    ensures forall m :: Pending(ops, m).Some? ==>
              && Pending(ops, m).value.Started? && Pending(ops, m).value.m == m
              && After(ttl, EMPTY, ops).deadlines[m] == Pending(ops, m).value.at + ttl
              && After(ttl, EMPTY, ops).data[m] == Pending(ops, m).value.notice
    decreases |ops|
  {
    if ops != [] {
      var before, op := ops[..|ops| - 1], ops[|ops| - 1];
      StoreIsPending(ttl, before);
      if op.Swept? {
        SweepEnds(After(ttl, EMPTY, before), op.batch);
      }
    }
  }

  // The history has ended m's last start, or m never started.
  lemma {:induction false} NotPendingAfter(ops: seq<Op>, k: nat, m: Member)
    requires k < |ops|
    requires ops[k] == Stopped(m) || (ops[k].Swept? && m in ops[k].batch)
    requires forall j :: k < j < |ops| ==> !(ops[j].Started? && ops[j].m == m)
    ensures Pending(ops, m) == None
    decreases |ops|
  {
    if k < |ops| - 1 {
      NotPendingAfter(ops[..|ops| - 1], k, m);
    }
  }

  lemma {:induction false} LegalPrefix(ttl: Time, ops: seq<Op>, n: nat)
    requires Legal(ttl, EMPTY, ops) && n <= |ops|
    ensures Legal(ttl, EMPTY, ops[..n])
    decreases |ops|
  {
    if n < |ops| {
      LegalPrefix(ttl, ops[..|ops| - 1], n);
      assert ops[..|ops| - 1][..n] == ops[..n];
    } else {
      assert ops[..n] == ops;
    }
  }

  /**
   * Exactly once: an indicator claimed by a sweep was started after the last stop or claim of it, so
   * two claims have a start between them and a stopped indicator is not claimed; and the claim comes
   * only once the deadline of the latest start has passed.
   */
  lemma {:induction false} ClaimedOnce(ttl: Time, ops: seq<Op>, k: nat, l: nat, m: Member)
    requires Legal(ttl, EMPTY, ops) && k < l < |ops|
    requires ops[l].Swept? && m in ops[l].batch
    requires ops[k] == Stopped(m) || (ops[k].Swept? && m in ops[k].batch)
    ensures exists j :: k < j < l && ops[j].Started? && ops[j].m == m
    ensures Pending(ops[..l], m).Some? && Pending(ops[..l], m).value.Started?
    ensures Pending(ops[..l], m).value.at + ttl <= ops[l].now
  {
    var before := ops[..l];
    LegalPrefix(ttl, ops, l);
    LegalPrefix(ttl, ops, l + 1);
    assert ops[..l + 1][..l] == before && ops[..l + 1][l] == ops[l];
    StoreIsPending(ttl, before);
    assert m in After(ttl, EMPTY, before).deadlines && After(ttl, EMPTY, before).deadlines[m] <= ops[l].now;
    if forall j :: k < j < l ==> !(ops[j].Started? && ops[j].m == m) {
      NotPendingAfter(before, k, m);
      assert false;
    }
  }

  // ---------- Backlog ----------

  function SweepsFrom(ops: seq<Op>, due: Time): nat
    decreases |ops|
  {
    if ops == [] then 0
    else SweepsFrom(ops[..|ops| - 1], due) + if ops[|ops| - 1].Swept? && due <= ops[|ops| - 1].now then 1 else 0
  }

  // A start that is late enough not to be due itself.
  predicate Late(ttl: Time, op: Op, due: Time) {
    op.Started? ==> due < op.at + ttl
  }

  // A sweep takes a hundred of the due indicators, or all of them.
  lemma SweepTakesDue(s: Store, now: Time, batch: seq<Member>, due: Time)
    requires s.deadlines.Keys == s.data.Keys && IsBatch(s.deadlines, now, LIMIT, batch) && due <= now
    ensures |Expired(s.Sweep(batch).deadlines, due)| <= Max(0, |Expired(s.deadlines, due)| - LIMIT)
  {
    SweepEnds(s, batch);
    assert Expired(s.Sweep(batch).deadlines, due) == Expired(s.deadlines, due) - Elements(batch);
    BatchTakesDue(s.deadlines, now, LIMIT, batch, due);
  }

  lemma DueShrinks(ttl: Time, s: Store, op: Op, due: Time)
    requires s.deadlines.Keys == s.data.Keys && Enabled(s, op) && Late(ttl, op, due)
    ensures Expired(Apply(ttl, s, op).deadlines, due) <= Expired(s.deadlines, due)
  {
    if op.Swept? {
      SweepEnds(s, op.batch);
    }
  }

  lemma {:induction false} KeysStayEqual(ttl: Time, s: Store, ops: seq<Op>)
    requires s.deadlines.Keys == s.data.Keys && Legal(ttl, s, ops)
    ensures After(ttl, s, ops).deadlines.Keys == After(ttl, s, ops).data.Keys
    decreases |ops|
  {
    if ops != [] {
      KeysStayEqual(ttl, s, ops[..|ops| - 1]);
      if ops[|ops| - 1].Swept? {
        SweepEnds(After(ttl, s, ops[..|ops| - 1]), ops[|ops| - 1].batch);
      }
    }
  }

  /**
   * Draining: however starts, stops and sweeps of any instances follow each other, of n indicators due at some
   * time at most n - 100 k are left after k sweeps from then on.
   */
  lemma {:induction false} BacklogDrains(ttl: Time, s: Store, ops: seq<Op>, due: Time)
    requires s.deadlines.Keys == s.data.Keys && Legal(ttl, s, ops) && forall op :: op in ops ==> Late(ttl, op, due)
    ensures |Expired(After(ttl, s, ops).deadlines, due)| <= Max(0, |Expired(s.deadlines, due)| - 100 * SweepsFrom(ops, due))
    decreases |ops|
  {
    if ops != [] {
      var front, op := ops[..|ops| - 1], ops[|ops| - 1];
      assert ops == front + [op];
      BacklogDrains(ttl, s, front, due);
      KeysStayEqual(ttl, s, front);
      var d := After(ttl, s, front);
      DueShrinks(ttl, d, op, due);
      SubsetSize(Expired(Apply(ttl, d, op).deadlines, due), Expired(d.deadlines, due));
      if op.Swept? && due <= op.now {
        SweepTakesDue(d, op.now, op.batch, due);
      }
    }
  }

  // How often sweeps claim the indicator.
  function ClaimsOf(ops: seq<Op>, m: Member): nat
    decreases |ops|
  {
    if ops == [] then 0
    else ClaimsOf(ops[..|ops| - 1], m) + if ops[|ops| - 1].Swept? && m in ops[|ops| - 1].batch then 1 else 0
  }

  predicate Concerns(op: Op, m: Member) {
    (op.Started? || op.Stopped?) && op.m == m
  }

  // Without a start or stop, an indicator keeps its deadline until the one claim that ends it.
  lemma {:induction false} ClaimedWhenGone(ttl: Time, s: Store, ops: seq<Op>, m: Member)
    requires s.deadlines.Keys == s.data.Keys && Legal(ttl, s, ops) && m in s.deadlines
    requires forall op :: op in ops ==> !Concerns(op, m)
    ensures ClaimsOf(ops, m) == if m in After(ttl, s, ops).deadlines then 0 else 1
    ensures m in After(ttl, s, ops).deadlines ==> After(ttl, s, ops).deadlines[m] == s.deadlines[m]
    decreases |ops|
  {
    if ops != [] {
      var front, op := ops[..|ops| - 1], ops[|ops| - 1];
      assert ops == front + [op];
      ClaimedWhenGone(ttl, s, front, m);
      KeysStayEqual(ttl, s, front);
      assert op in ops;
      OneClaimed(ttl, After(ttl, s, front), op, m);
    }
  }

  lemma OneClaimed(ttl: Time, s: Store, op: Op, m: Member)
    requires s.deadlines.Keys == s.data.Keys && Enabled(s, op) && !Concerns(op, m)
    ensures m in Apply(ttl, s, op).deadlines <==> m in s.deadlines && !(op.Swept? && m in op.batch)
    ensures op.Swept? && m in op.batch ==> m in s.deadlines
    ensures m in Apply(ttl, s, op).deadlines ==> Apply(ttl, s, op).deadlines[m] == s.deadlines[m]
  {
    if op.Swept? {
      SweepEnds(s, op.batch);
      assert m in op.batch <==> m in Elements(op.batch);
    }
  }

  /**
   * An indicator that is due, and neither restarted nor stopped, is claimed exactly once within ceil(n / 100)
   * sweeps, where n indicators were due, whatever happens to the others meanwhile.
   */
  lemma {:induction false} ExpiryIsClaimed(ttl: Time, s: Store, ops: seq<Op>, m: Member, due: Time)
    requires s.deadlines.Keys == s.data.Keys && Legal(ttl, s, ops) && m in Expired(s.deadlines, due)
    requires forall op :: op in ops ==> Late(ttl, op, due) && !Concerns(op, m)
    requires |Expired(s.deadlines, due)| <= 100 * SweepsFrom(ops, due)
    ensures ClaimsOf(ops, m) == 1 && m !in After(ttl, s, ops).deadlines
  {
    BacklogDrains(ttl, s, ops, due);
    ClaimedWhenGone(ttl, s, ops, m);
    var left := After(ttl, s, ops).deadlines;
    assert Expired(left, due) == {};
    assert m in left ==> m in Expired(left, due);
  }

  // ---------- The shared keys as they are updated ----------

  class TypingKeys {
    var deadlines: Zset<Member>
    var data: map<Member, Notice>

    constructor ()
      ensures State() == EMPTY
    {
      deadlines, data := map[], map[];
    }

    function State(): Store
      reads this
    {
      Store(deadlines, data)
    }

    method TypingStarted(m: Member, notice: Notice, now: Time, ttl: Time)
      modifies this
      ensures State() == Apply(ttl, old(State()), Started(m, now, notice))
    {
      data := data[m := notice];
      deadlines := deadlines[m := now + ttl];
    }

    method TypingStopped(m: Member)
      modifies this
      ensures State() == Apply(0, old(State()), Stopped(m))
    {
      deadlines := deadlines - {m};
      data := data - {m};
    }

    // The script: a listing, and a loop over the listed members.
    method TypingSweepScript(now: Time) returns (batch: seq<Member>, claims: seq<Notice>)
      modifies this
      ensures IsBatch(old(deadlines), now, 100, batch)
      ensures State() == old(State()).Sweep(batch)
      ensures claims == old(State()).Claims(batch)
    {
      batch := ListExpired(deadlines, now, LIMIT);
      claims := ClaimEach(batch);
    }

    method ClaimEach(batch: seq<Member>) returns (claims: seq<Notice>)
      modifies this
      ensures State() == old(State()).Sweep(batch)
      ensures claims == old(State()).Claims(batch)
    {
      ghost var before := State();
      claims := [];
      var k := 0;
      while k < |batch|
        invariant 0 <= k <= |batch|
        invariant State().Sweep(batch[k..]) == before.Sweep(batch)
        invariant claims + State().Claims(batch[k..]) == before.Claims(batch)
      {
        assert batch[k..][1..] == batch[k + 1..];
        var claim := ClaimOne(batch[k]);
        claims := claims + claim;
        k := k + 1;
      }
    }

    // One listed member: taken if its deadline is still there, and returned if it has data.
    method ClaimOne(m: Member) returns (claim: seq<Notice>)
      modifies this
      ensures State() == if m in old(deadlines) then old(State()).Stop(m) else old(State())
      ensures claim == if m in old(deadlines) && m in old(data) then [old(data)[m]] else []
    {
      claim := [];
      if m in deadlines {
        deadlines := deadlines - {m};
        if m in data {
          claim := [data[m]];
        }
        data := data - {m};
      }
    }
  }
}
