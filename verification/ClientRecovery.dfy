/** The browser's message state: the realtime store, reconnect recovery and the merged conversation view. */
module ClientRecovery {
  import opened Basics
  import opened History

  // The realtime messages of each conversation, in order of arrival.
  type Store = map<ConversationId, seq<Message>>

  function Stored(store: Store, c: ConversationId): seq<Message> {
    if c in store then store[c] else []
  }

  predicate HasId(ms: seq<Message>, id: MessageId) {
    exists m :: m in ms && m.id == id
  }

  function AddRealtimeMessage(store: Store, m: Message): Store {
    if HasId(Stored(store, m.conversation), m.id) then store
    else store[m.conversation := Stored(store, m.conversation) + [m]]
  }

  function AddAll(store: Store, ms: seq<Message>): Store
    decreases |ms|
  {
    if ms == [] then store else AddAll(AddRealtimeMessage(store, ms[0]), ms[1..])
  }

  ghost predicate NoIdTwice(ms: seq<Message>) {
    forall i, j :: 0 <= i < j < |ms| ==> ms[i].id != ms[j].id
  }

  /**
   * Adding a conversation's messages keeps what was stored in place, stores every id exactly once
   * and leaves the other conversations alone.
   */
  lemma {:induction false} AddAllExact(store: Store, ms: seq<Message>, c: ConversationId)
    requires forall m :: m in ms ==> m.conversation == c
    ensures Stored(store, c) <= Stored(AddAll(store, ms), c)
    ensures forall id :: HasId(Stored(AddAll(store, ms), c), id) <==> HasId(Stored(store, c), id) || HasId(ms, id)
    ensures forall m :: m in Stored(AddAll(store, ms), c) ==> m in Stored(store, c) || m in ms
    ensures NoIdTwice(Stored(store, c)) ==> NoIdTwice(Stored(AddAll(store, ms), c))
    ensures forall d :: d != c ==> Stored(AddAll(store, ms), d) == Stored(store, d)
    decreases |ms|
  {
    if ms != [] {
      var m, next := ms[0], AddRealtimeMessage(store, ms[0]);
      AddOneExact(store, m);
      AddAllExact(next, ms[1..], c);
      forall id
        ensures HasId(ms, id) <==> m.id == id || HasId(ms[1..], id)
      {
        assert ms == [m] + ms[1..];
        if m.id == id {
          assert m in ms;
        }
      }
    }
  }

  lemma AddOneExact(store: Store, m: Message)
    ensures var before, after := Stored(store, m.conversation), Stored(AddRealtimeMessage(store, m), m.conversation);
            && before <= after
            && (forall id :: HasId(after, id) <==> HasId(before, id) || m.id == id)
            && (forall x :: x in after ==> x in before || x == m)
            && (NoIdTwice(before) ==> NoIdTwice(after))
  {
    var before, after := Stored(store, m.conversation), Stored(AddRealtimeMessage(store, m), m.conversation);
    forall id
      ensures HasId(after, id) <==> HasId(before, id) || m.id == id
    {
      if HasId(before, id) {
        var x :| x in before && x.id == id;
        assert x in after;
      }
      if m.id == id && !HasId(before, id) {
        assert m in after;
      }
    }
    if NoIdTwice(before) && !HasId(before, m.id) {
      forall i, j | 0 <= i < j < |after|
        ensures after[i].id != after[j].id
      {
        if j == |before| {
          assert before[i] in before;
        }
      }
    }
  }

  // The last message of the sorted list; of equals the one listed later.
  function Newest(ms: seq<Message>): (n: Option<Message>)
    ensures n.None? <==> ms == []
    ensures n.Some? ==> n.value in ms && forall m :: m in ms ==> !Less(KeyOf(n.value), KeyOf(m))
    decreases |ms|
  {
    if ms == [] then None
    else
      var before, last := Newest(ms[..|ms| - 1]), ms[|ms| - 1];
      assert ms == ms[..|ms| - 1] + [last];
      if before.Some? && Less(KeyOf(last), KeyOf(before.value)) then before else Some(last)
  }

  /** It is the last copy in the list of the greatest place. */
  lemma {:induction false} NewestIsLast(ms: seq<Message>) returns (k: nat)
    requires ms != []
    ensures k < |ms| && ms[k] == Newest(ms).value && forall j :: k < j < |ms| ==> Less(KeyOf(ms[j]), KeyOf(ms[k]))
    decreases |ms|
  {
    var front, last := ms[..|ms| - 1], ms[|ms| - 1];
    if front != [] && Less(KeyOf(last), KeyOf(Newest(front).value)) {
      k := NewestIsLast(front);
      assert ms[k] == front[k];
      forall j | k < j < |ms|
        ensures Less(KeyOf(ms[j]), KeyOf(ms[k]))
      {
        assert j < |front| ==> ms[j] == front[j];
      }
    } else {
      k := |ms| - 1;
    }
  }

  const PAGES := 20
  const PAGE_LIMIT := 100

  // What recovery adds for one conversation, given the table as each request finds it.
  function Recovered(tables: seq<Table>, c: ConversationId, known: seq<Message>): seq<Message> {
    var newest := Newest(known);
    if newest.None? then [] else WalkAfter(tables, c, PAGE_LIMIT, KeyOf(newest.value)).items
  }

  class Client {
    var realtimeMessages: Store

    constructor ()
      ensures realtimeMessages == map[]
    {
      realtimeMessages := map[];
    }

    method AddMessage(m: Message)
      modifies this
      ensures realtimeMessages == AddRealtimeMessage(old(realtimeMessages), m)
    {
      realtimeMessages := AddRealtimeMessage(realtimeMessages, m);
    }

    // Recovery of one loaded conversation with its cached history pages.
    method Recover(tables: seq<Table>, c: ConversationId, cached: seq<Message>)
      requires |tables| == 20
      modifies this
      ensures realtimeMessages
           == AddAll(old(realtimeMessages), Recovered(tables, c, cached + Stored(old(realtimeMessages), c)))
      ensures var newest := Newest(cached + Stored(old(realtimeMessages), c));
              && (newest.None? ==> realtimeMessages == old(realtimeMessages))
              && (newest.Some? ==>
                    realtimeMessages == AddAll(old(realtimeMessages), WalkAfter(tables, c, 100, KeyOf(newest.value)).items))
    {
      var newest := Newest(cached + Stored(realtimeMessages, c));
      if newest.None? {
        return;
      }
      ghost var before := realtimeMessages;
      var cursor := KeyOf(newest.value);
      ghost var all := WalkAfter(tables, c, PAGE_LIMIT, cursor).items;
      var pageNumber := 0;
      while pageNumber < PAGES
        invariant 0 <= pageNumber <= PAGES
        invariant AddAll(realtimeMessages, WalkAfter(tables[pageNumber..], c, PAGE_LIMIT, cursor).items) == AddAll(before, all)
      {
        var page := ListAfter(tables[pageNumber], c, PAGE_LIMIT, cursor);
        ghost var here, there := realtimeMessages, tables[pageNumber..];
        assert there[0] == tables[pageNumber] && there[1..] == tables[pageNumber + 1..];
        AddItems(page.items);
        if page.next.None? {
          return;
        }
        cursor := page.next.value;
        pageNumber := pageNumber + 1;
        AddAllJoin(here, page.items, WalkAfter(tables[pageNumber..], c, PAGE_LIMIT, cursor).items);
      }
    }

    // Add the messages of a page, one after the other.
    method AddItems(items: seq<Message>)
      modifies this
      ensures realtimeMessages == AddAll(old(realtimeMessages), items)
    {
      var k := 0;
      while k < |items|
        invariant 0 <= k <= |items|
        invariant AddAll(realtimeMessages, items[k..]) == AddAll(old(realtimeMessages), items)
      {
        assert items[k..][0] == items[k] && items[k..][1..] == items[k + 1..];
        AddMessage(items[k]);
        k := k + 1;
      }
    }
  }

  lemma {:induction false} AddAllJoin(store: Store, p: seq<Message>, q: seq<Message>)
    ensures AddAll(store, p + q) == AddAll(AddAll(store, p), q)
    decreases |p|
  {
    if p == [] {
      assert p + q == q;
    } else {
      assert (p + q)[0] == p[0] && (p + q)[1..] == p[1..] + q;
      AddAllJoin(AddRealtimeMessage(store, p[0]), p[1..], q);
    }
  }

  // The client's copies agree with the table on what identifies a message.
  ghost predicate Consistent(known: seq<Message>, t: Table, c: ConversationId) {
    forall k, m :: k in known && m in Visible(t, c) && k.id == m.id ==> KeyOf(k) == KeyOf(m)
  }

  ghost predicate KnowsAll(known: seq<Message>, t: Table, c: ConversationId) {
    forall m :: m in Visible(t, c) ==> HasId(known, m.id)
  }

  /**
   * Recovery closes every gap on an unchanging table exactly when the client already had each message
   * not newer than its newest one, and at most 2000 messages are newer.
   */
  lemma {:induction false} RecoveryCompleteIff(t: Table, c: ConversationId, known: seq<Message>)
    requires known != [] && Consistent(known, t, c)
    ensures var newest := KeyOf(Newest(known).value);
            KnowsAll(known + Recovered(Repeat(t, PAGES), c, known), t, c)
            <==> && (forall m :: m in Visible(t, c) && !Less(newest, KeyOf(m)) ==> HasId(known, m.id))
                 && |Above(t, c, newest)| <= 2000
  {
    var newest := KeyOf(Newest(known).value);
    var above := Above(t, c, newest);
    var all := Ascending(above);
    var got := Recovered(Repeat(t, PAGES), c, known);
    RecoveryExact(t, c, PAGE_LIMIT, newest, PAGES);
    assert got == Limited(all, 2000);
    AscendingLists(above);
    AscendingSize(above);
    if KnowsAll(known + got, t, c) {
      forall m | m in Visible(t, c) && !Less(newest, KeyOf(m))
        ensures HasId(known, m.id)
      {
        OldMustBeKnown(t, c, known, got, m);
      }
      if |above| > 2000 {
        NewMustBeRecovered(t, c, known, all, got);
      }
    } else if |above| <= 2000 {
      assert got == all;
      GapsClosed(t, c, known, got);
    }
  }

  lemma GapsClosed(t: Table, c: ConversationId, known: seq<Message>, got: seq<Message>)
    requires known != [] && forall m :: m in Above(t, c, KeyOf(Newest(known).value)) ==> m in got
    ensures (forall m :: m in Visible(t, c) && !Less(KeyOf(Newest(known).value), KeyOf(m)) ==> HasId(known, m.id))
            ==> KnowsAll(known + got, t, c)
  {
    if forall m :: m in Visible(t, c) && !Less(KeyOf(Newest(known).value), KeyOf(m)) ==> HasId(known, m.id) {
      forall m | m in Visible(t, c)
        ensures HasId(known + got, m.id)
      {
        HasIdJoin(known, got, m.id);
        if Less(KeyOf(Newest(known).value), KeyOf(m)) {
          assert m in got;
        }
      }
    }
  }

  lemma OldMustBeKnown(t: Table, c: ConversationId, known: seq<Message>, got: seq<Message>, m: Message)
    requires known != [] && KnowsAll(known + got, t, c)
    requires forall x :: x in got ==> x in Above(t, c, KeyOf(Newest(known).value))
    requires m in Visible(t, c) && !Less(KeyOf(Newest(known).value), KeyOf(m))
    ensures HasId(known, m.id)
  {
    var x :| x in known + got && x.id == m.id;
    assert x in got ==> x in Visible(t, c) && x == m;
  }

  // With more than the limit above, the first one past it is neither known nor recovered.
  lemma NewMustBeRecovered(t: Table, c: ConversationId, known: seq<Message>, all: seq<Message>, got: seq<Message>)
    requires known != [] && Consistent(known, t, c)
    requires Lists(all, Above(t, c, KeyOf(Newest(known).value))) && |all| > 2000 && got == all[..2000]
    ensures !KnowsAll(known + got, t, c)
  {
    var m := all[2000];
    assert m in all;
    forall x | x in known + got
      ensures x.id != m.id
    {
      if x in known {
        assert !Less(KeyOf(Newest(known).value), KeyOf(x));
      } else {
        var k :| 0 <= k < 2000 && all[k] == x;
        assert Less(KeyOf(all[k]), KeyOf(m));
        assert x in all;
      }
    }
    assert !HasId(known + got, m.id);
  }

  // ---------- The merged view ----------

  // The last copy of each id.
  function ById(all: seq<Message>): (byId: map<MessageId, Message>)
    ensures forall id :: id in byId ==> byId[id].id == id
    decreases |all|
  {
    if all == [] then map[] else ById(all[..|all| - 1])[all[|all| - 1].id := all[|all| - 1]]
  }

  function Merge(persisted: seq<Message>, realtime: seq<Message>): seq<Message> {
    Ascending(ById(persisted + realtime).Values)
  }

  // m is the copy of its message that comes last.
  ghost predicate LastCopy(all: seq<Message>, m: Message) {
    exists k :: 0 <= k < |all| && all[k] == m && forall j :: k < j < |all| ==> all[j].id != m.id
  }

  lemma {:induction false} ByIdExact(all: seq<Message>, m: Message)
    ensures m.id in ById(all) && ById(all)[m.id] == m <==> LastCopy(all, m)
    ensures m.id in ById(all) <==> HasId(all, m.id)
    decreases |all|
  {
    if all != [] {
      var before, last := all[..|all| - 1], all[|all| - 1];
      assert all == before + [last];
      ByIdExact(before, m);
      if last.id == m.id {
        assert last in all;
        if last == m {
          assert all[|all| - 1] == m;
        }
      } else {
        if LastCopy(before, m) {
          var k :| 0 <= k < |before| && before[k] == m && forall j :: k < j < |before| ==> before[j].id != m.id;
          assert all[k] == m;
        }
        if LastCopy(all, m) {
          var k :| 0 <= k < |all| && all[k] == m && forall j :: k < j < |all| ==> all[j].id != m.id;
          assert before[k] == m;
        }
        if HasId(before, m.id) {
          var x :| x in before && x.id == m.id;
          assert x in all;
        }
      }
    }
  }

  /**
   * The merged view is strictly sorted by (created_at, id) and holds exactly the last copy of every
   * message of either list; so its ids are the union of theirs, each once.
   */
  lemma {:induction false} MergeExact(persisted: seq<Message>, realtime: seq<Message>)
    ensures Increasing(Merge(persisted, realtime))
    ensures forall m :: m in Merge(persisted, realtime) <==> LastCopy(persisted + realtime, m)
    ensures forall id :: HasId(Merge(persisted, realtime), id) <==> HasId(persisted, id) || HasId(realtime, id)
  {
    var all := persisted + realtime;
    var byId := ById(all);
    AscendingLists(byId.Values);
    forall m
      ensures m in Merge(persisted, realtime) <==> LastCopy(all, m)
    {
      ByIdExact(all, m);
      if m in byId.Values {
        var id :| id in byId && byId[id] == m;
      }
    }
    forall id
      ensures HasId(Merge(persisted, realtime), id) <==> HasId(persisted, id) || HasId(realtime, id)
    {
      HasIdJoin(persisted, realtime, id);
      var any := Message(id, 0, 0, false, 0);
      ByIdExact(all, any);
      if id in byId {
        assert byId[id] in byId.Values;
        assert byId[id] in Merge(persisted, realtime);
      }
    }
  }

  lemma HasIdJoin(p: seq<Message>, q: seq<Message>, id: MessageId)
    ensures HasId(p + q, id) <==> HasId(p, id) || HasId(q, id)
  {
    if HasId(p, id) {
      var m :| m in p && m.id == id;
      assert m in p + q;
    }
    if HasId(q, id) {
      var m :| m in q && m.id == id;
      assert m in p + q;
    }
  }

  /**
   * The view of a fully paged history with realtime messages of a later table is the sorted listing
   * of both together.
   */
  lemma {:induction false} MergeWithHistory(t: Table, later: Table, c: ConversationId, realtime: seq<Message>)
    requires t <= later && forall m :: m in realtime ==> m in Visible(later, c)
    ensures Merge(Ascending(Visible(t, c)), realtime)
         == Ascending(set m | m in Visible(later, c) && (m in t || m in realtime))
  {
    var persisted := Ascending(Visible(t, c));
    var both: Table := set m | m in Visible(later, c) && (m in t || m in realtime);
    AscendingLists(Visible(t, c));
    forall m
      ensures m in Merge(persisted, realtime) <==> m in both
    {
      OneVersionMerges(persisted, realtime, later, m);
    }
    MergeExact(persisted, realtime);
    AscendingOnly(both, Merge(persisted, realtime));
  }

  // Where all copies of a message are equal, merging is union.
  lemma OneVersionMerges(persisted: seq<Message>, realtime: seq<Message>, later: Table, m: Message)
    requires forall x :: x in persisted || x in realtime ==> x in later
    ensures m in Merge(persisted, realtime) <==> m in persisted || m in realtime
  {
    MergeExact(persisted, realtime);
    if m in persisted || m in realtime {
      assert HasId(persisted, m.id) || HasId(realtime, m.id);
      var x :| x in Merge(persisted, realtime) && x.id == m.id;
      CopyListed(persisted, realtime, x);
    } else if m in Merge(persisted, realtime) {
      CopyListed(persisted, realtime, m);
      assert false;
    }
  }

  lemma CopyListed(persisted: seq<Message>, realtime: seq<Message>, x: Message)
    requires LastCopy(persisted + realtime, x)
    ensures x in persisted || x in realtime
  {
    assert x in persisted + realtime;
  }
}
