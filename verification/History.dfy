/**
 * Message history: the keyset page queries, the page cutting of the message service, and what a
 * reader who follows its cursors collects while messages keep arriving.
 */
module History {
  import opened Basics

  datatype Message = Message(id: MessageId, conversation: ConversationId, createdAt: Time, deleted: bool, body: nat)

  // What a page cursor says.
  function KeyOf(m: Message): Key {
    Key(m.createdAt, m.id)
  }

  ghost predicate Unique(s: set<Message>) {
    forall a, b :: a in s && b in s && a.id == b.id ==> a == b
  }

  type Table = s: set<Message> | Unique(s)

  // ---------- Sorted listings ----------

  lemma {:induction false} LeastExists(s: Table)
    requires s != {}
    ensures exists m :: m in s && forall x :: x in s && x != m ==> Less(KeyOf(m), KeyOf(x))
    decreases |s|
  {
    var x :| x in s;
    var rest := s - {x};
    if rest == {} {
      assert s == {x};
    } else {
      LeastExists(rest);
      var m :| m in rest && forall y :: y in rest && y != m ==> Less(KeyOf(m), KeyOf(y));
      if Less(KeyOf(x), KeyOf(m)) {
        assert x in s && forall y :: y in s && y != x ==> Less(KeyOf(x), KeyOf(y));
      } else {
        assert m in s && forall y :: y in s && y != m ==> Less(KeyOf(m), KeyOf(y));
      }
    }
  }

  // The messages in ascending order of time, then identifier.
  function Ascending(s: Table): seq<Message>
    decreases |s|
  {
    if s == {} then []
    else
      LeastExists(s);
      var m :| m in s && forall x :: x in s && x != m ==> Less(KeyOf(m), KeyOf(x));
      [m] + Ascending(s - {m})
  }

  function Reversed(q: seq<Message>): (r: seq<Message>)
    ensures |r| == |q|
    ensures forall k :: 0 <= k < |q| ==> r[k] == q[|q| - 1 - k]
  {
    if q == [] then [] else Reversed(q[1..]) + [q[0]]
  }

  ghost predicate Increasing(q: seq<Message>) {
    forall i, j :: 0 <= i < j < |q| ==> Less(KeyOf(q[i]), KeyOf(q[j]))
  }

  // q is the sorted listing of s.
  ghost predicate Lists(q: seq<Message>, s: set<Message>) {
    Increasing(q) && forall m :: m in q <==> m in s
  }

  lemma AscendingHead(s: Table)
    requires s != {}
    ensures var q := Ascending(s);
            && q != [] && q[0] in s && q[1..] == Ascending(s - {q[0]})
            && forall x :: x in s && x != q[0] ==> Less(KeyOf(q[0]), KeyOf(x))
  {
  }

  lemma {:induction false} AscendingLists(s: Table)
    ensures Lists(Ascending(s), s)
    decreases |s|
  {
    if s != {} {
      AscendingHead(s);
      var q := Ascending(s);
      AscendingLists(s - {q[0]});
      ConsLists(q, s);
    }
  }

  lemma ConsLists(q: seq<Message>, s: set<Message>)
    requires q != [] && q[0] in s && Lists(q[1..], s - {q[0]})
    requires forall x :: x in s && x != q[0] ==> Less(KeyOf(q[0]), KeyOf(x))
    ensures Lists(q, s)
  {
    assert q == [q[0]] + q[1..];
    forall i, j | 0 <= i < j < |q|
      ensures Less(KeyOf(q[i]), KeyOf(q[j]))
    {
      assert q[j] == q[1..][j - 1] && q[j] in q[1..];
      if i > 0 {
        assert q[i] == q[1..][i - 1];
      }
    }
  }

  lemma ListsSize(q: seq<Message>, s: set<Message>)
    requires Lists(q, s)
    ensures |q| == |s|
  {
    assert Distinct(q) by {
      forall i, j | 0 <= i < j < |q|
        ensures q[i] != q[j]
      {
        assert Less(KeyOf(q[i]), KeyOf(q[j]));
      }
    }
    DistinctSize(q);
    assert Elements(q) == s;
  }

  lemma {:induction false} SameLists(p: seq<Message>, q: seq<Message>, s: set<Message>)
    requires Lists(p, s) && Lists(q, s)
    ensures p == q
    decreases |p|
  {
    ListsSize(p, s);
    ListsSize(q, s);
    if p != [] {
      assert p[0] in q && q[0] in p;
      TailLists(p, s);
      TailLists(q, s);
      SameLists(p[1..], q[1..], s - {p[0]});
      assert p == [p[0]] + p[1..] && q == [q[0]] + q[1..];
    }
  }

  lemma TailLists(q: seq<Message>, s: set<Message>)
    requires q != [] && Lists(q, s)
    ensures Lists(q[1..], s - {q[0]})
  {
    assert q == [q[0]] + q[1..];
    assert forall x :: x in q[1..] ==> Less(KeyOf(q[0]), KeyOf(x));
  }

  /** The sorted listing of a set is the only increasing list of its elements. */
  lemma {:induction false} AscendingOnly(s: Table, q: seq<Message>)
    requires Lists(q, s)
    ensures q == Ascending(s)
  {
    AscendingLists(s);
    SameLists(q, Ascending(s), s);
  }

  // Where the listing is cut, the front holds the elements before the cut and the back the others.
  lemma CutLists(q: seq<Message>, s: set<Message>, n: nat)
    requires Lists(q, s) && n < |q|
    ensures Lists(q[..n], set m | m in s && Less(KeyOf(m), KeyOf(q[n])))
    ensures Lists(q[n..], set m | m in s && !Less(KeyOf(m), KeyOf(q[n])))
  {
    forall m
      ensures m in q[..n] <==> m in s && Less(KeyOf(m), KeyOf(q[n]))
      ensures m in q[n..] <==> m in s && !Less(KeyOf(m), KeyOf(q[n]))
    {
      if m in q {
        var k :| 0 <= k < |q| && q[k] == m;
        if k < n {
          assert q[..n][k] == m;
        } else {
          assert q[n..][k - n] == m;
        }
      }
    }
  }

  // The same cut seen from the last element of the front.
  lemma CutAfter(q: seq<Message>, s: set<Message>, n: nat)
    requires Lists(q, s) && 0 < n <= |q|
    ensures Lists(q[..n], set m | m in s && !Less(KeyOf(q[n - 1]), KeyOf(m)))
    ensures Lists(q[n..], set m | m in s && Less(KeyOf(q[n - 1]), KeyOf(m)))
  {
    forall m
      ensures m in q[..n] <==> m in s && !Less(KeyOf(q[n - 1]), KeyOf(m))
      ensures m in q[n..] <==> m in s && Less(KeyOf(q[n - 1]), KeyOf(m))
    {
      if m in q {
        var k :| 0 <= k < |q| && q[k] == m;
        if k < n {
          assert q[..n][k] == m;
        } else {
          assert q[n..][k - n] == m;
        }
      }
    }
  }

  // ---------- The page queries ----------

  function Visible(t: Table, c: ConversationId): Table {
    set m | m in t && m.conversation == c && !m.deleted
  }

  function Above(t: Table, c: ConversationId, k: Key): Table {
    set m | m in Visible(t, c) && Less(k, KeyOf(m))
  }

  function Below(t: Table, c: ConversationId, before: Option<Key>): Table {
    set m | m in Visible(t, c) && (before.Some? ==> Less(KeyOf(m), before.value))
  }

  function Limited(q: seq<Message>, limit: nat): seq<Message> {
    if |q| <= limit then q else q[..limit]
  }

  function PageAfter(t: Table, c: ConversationId, limit: nat, after: Key): seq<Message> {
    Limited(Ascending(Above(t, c, after)), limit + 1)
  }

  function PageBefore(t: Table, c: ConversationId, limit: nat, before: Option<Key>): seq<Message> {
    Limited(Reversed(Ascending(Below(t, c, before))), limit + 1)
  }

  datatype Page = Page(items: seq<Message>, next: Option<Key>)

  datatype ListError = InvalidCursor

  datatype ListResult = Listed(page: Page) | Refused(error: ListError)

  function NextCursor(records: seq<Message>, hasMore: bool): Option<Key> {
    if hasMore && records != [] then Some(KeyOf(records[|records| - 1])) else None
  }

  // A message of the conversation, not deleted, that lies past the cursors by time, then identifier.
  predicate Asked(t: Table, c: ConversationId, before: Option<Key>, after: Option<Key>, m: Message) {
    && m in t && m.conversation == c && !m.deleted
    && (after.Some? ==> after.value.createdAt < m.createdAt
                        || (after.value.createdAt == m.createdAt && after.value.id < m.id))
    && (before.Some? ==> m.createdAt < before.value.createdAt
                         || (m.createdAt == before.value.createdAt && m.id < before.value.id))
  }

  // A page holds asked messages only, in order and no more than the limit; it is full if it has a next cursor; and
  // what is asked but not on it lies beyond that cursor.
  ghost predicate IsPage(t: Table, c: ConversationId, limit: nat, before: Option<Key>, after: Option<Key>, page: Page) {
    && (forall m :: m in page.items ==> Asked(t, c, before, after, m))
    && (forall i, j :: 0 <= i < j < |page.items| ==>
          page.items[i].createdAt < page.items[j].createdAt
          || (page.items[i].createdAt == page.items[j].createdAt && page.items[i].id < page.items[j].id))
    && |page.items| <= limit && (page.next.Some? ==> |page.items| == limit)
    && (0 < limit ==> forall m :: Asked(t, c, before, after, m) && m !in page.items ==>
          && page.next.Some?
          && if after.Some? then Less(page.next.value, KeyOf(m)) else Less(KeyOf(m), page.next.value))
  }

  /** A page of a conversation, for an authorized caller. */
  method List(t: Table, c: ConversationId, limit: nat, before: Option<Key>, after: Option<Key>)
      returns (result: ListResult)
    ensures result.Refused? <==> before.Some? && after.Some?
    ensures before.None? && after.Some? ==> result == Listed(ListAfter(t, c, limit, after.value))
    ensures after.None? ==> result == Listed(ListBefore(t, c, limit, before))
    ensures result.Listed? ==> IsPage(t, c, limit, before, after, result.page)
  {
    if before.Some? && after.Some? {
      return Refused(InvalidCursor);
    }
    if after.Some? {
      AfterInTerms(t, c, limit, after.value);
      var records := PageAfter(t, c, limit, after.value);
      LowPageCut(Ascending(Above(t, c, after.value)), limit);
      var hasMore := |records| > limit;
      records := Limited(records, limit);
      return Listed(Page(records, NextCursor(records, hasMore)));
    }
    BeforeInTerms(t, c, limit, before);
    var records := PageBefore(t, c, limit, before);
    HighPageCut(Ascending(Below(t, c, before)), limit);
    var hasMore := |records| > limit;
    records := Limited(records, limit);
    var next := NextCursor(records, hasMore);
    records := Reversed(records);
    return Listed(Page(records, next));
  }

  // Of a sorted listing: the lowest `limit` messages, and the cursor if there are more.
  function LowPage(all: seq<Message>, limit: nat): Page {
    if |all| <= limit || limit == 0 then Page(Limited(all, limit), None)
    else Page(all[..limit], Some(KeyOf(all[limit - 1])))
  }

  // The highest `limit` messages, still in ascending order, and the cursor if there are more.
  function HighPage(all: seq<Message>, limit: nat): Page {
    if |all| <= limit then Page(all, None)
    else if limit == 0 then Page([], None)
    else Page(all[|all| - limit..], Some(KeyOf(all[|all| - limit])))
  }

  // What a page after a cursor holds.
  function ListAfter(t: Table, c: ConversationId, limit: nat, after: Key): Page {
    LowPage(Ascending(Above(t, c, after)), limit)
  }

  // What a page before a cursor holds.
  function ListBefore(t: Table, c: ConversationId, limit: nat, before: Option<Key>): Page {
    HighPage(Ascending(Below(t, c, before)), limit)
  }

  // Cutting a sorted listing keeps it sorted.
  lemma CutIncreasing(all: seq<Message>, i: nat, j: nat)
    requires Increasing(all) && i <= j <= |all|
    ensures Increasing(all[i..j]) && forall m :: m in all[i..j] ==> m in all
  {
  }

  // A page after a cursor, in terms of its messages.
  lemma AfterInTerms(t: Table, c: ConversationId, limit: nat, after: Key)
    ensures IsPage(t, c, limit, None, Some(after), ListAfter(t, c, limit, after))
  {
    var s := Above(t, c, after);
    var all := Ascending(s);
    AscendingLists(s);
    CutIncreasing(all, 0, Min(limit, |all|));
    assert ListAfter(t, c, limit, after).items == all[0..Min(limit, |all|)];
    forall m | Asked(t, c, None, Some(after), m) { BeyondAfter(t, c, limit, after, m); }
  }

  lemma BeyondAfter(t: Table, c: ConversationId, limit: nat, after: Key, m: Message)
    requires Asked(t, c, None, Some(after), m)
    ensures var page := ListAfter(t, c, limit, after);
            0 < limit && m !in page.items ==> page.next.Some? && Less(page.next.value, KeyOf(m))
  {
    var all := Ascending(Above(t, c, after));
    AscendingLists(Above(t, c, after));
    assert m in all;
    var k :| 0 <= k < |all| && all[k] == m;
    if 0 < limit && k < limit {
      assert m == ListAfter(t, c, limit, after).items[k];
    }
  }

  // A page before a cursor, in terms of its messages.
  lemma BeforeInTerms(t: Table, c: ConversationId, limit: nat, before: Option<Key>)
    ensures IsPage(t, c, limit, before, None, ListBefore(t, c, limit, before))
  {
    var s := Below(t, c, before);
    var all := Ascending(s);
    AscendingLists(s);
    CutIncreasing(all, Max(0, |all| - limit), |all|);
    assert ListBefore(t, c, limit, before).items == all[Max(0, |all| - limit)..|all|];
    forall m | Asked(t, c, before, None, m) { BeyondBefore(t, c, limit, before, m); }
  }

  lemma BeyondBefore(t: Table, c: ConversationId, limit: nat, before: Option<Key>, m: Message)
    requires Asked(t, c, before, None, m)
    ensures var page := ListBefore(t, c, limit, before);
            0 < limit && m !in page.items ==> page.next.Some? && Less(KeyOf(m), page.next.value)
  {
    var all := Ascending(Below(t, c, before));
    AscendingLists(Below(t, c, before));
    assert m in all;
    var k :| 0 <= k < |all| && all[k] == m;
    if 0 < limit && |all| - limit <= k {
      assert m == ListBefore(t, c, limit, before).items[k - Max(0, |all| - limit)];
    }
  }

  // How the service cuts the rows of a query, and of a query in descending order.
  function CutRows(records: seq<Message>, limit: nat): Page {
    Page(Limited(records, limit), NextCursor(Limited(records, limit), |records| > limit))
  }

  function CutReversed(records: seq<Message>, limit: nat): Page {
    Page(Reversed(Limited(records, limit)), NextCursor(Limited(records, limit), |records| > limit))
  }

  lemma LowPageCut(all: seq<Message>, limit: nat)
    ensures LowPage(all, limit) == CutRows(Limited(all, limit + 1), limit)
  {
  }

  lemma HighPageCut(all: seq<Message>, limit: nat)
    ensures HighPage(all, limit) == CutReversed(Limited(Reversed(all), limit + 1), limit)
  {
    LastOnes(all, limit);
  }

  // Cutting the reversed listing and reversing back keeps the end of it.
  lemma LastOnes(all: seq<Message>, limit: nat)
    ensures var records := Limited(Reversed(all), limit + 1);
            var kept := Limited(records, limit);
            && (|records| > limit <==> |all| > limit)
            && Reversed(kept) == (if |all| <= limit then all else all[|all| - limit..])
            && (kept != [] ==> kept[|kept| - 1] == all[if |all| <= limit then 0 else |all| - limit])
  {
    FirstOnes(all, limit);
    var kept := Limited(Limited(Reversed(all), limit + 1), limit);
    var tail := if |all| <= limit then all else all[|all| - limit..];
    assert Reversed(kept) == tail;
  }

  lemma FirstOnes(all: seq<Message>, limit: nat)
    ensures var kept := Limited(Limited(Reversed(all), limit + 1), limit);
            && |kept| == Min(|all|, limit)
            && forall k :: 0 <= k < |kept| ==> kept[k] == all[|all| - 1 - k]
  {
  }

  // ---------- Walking forward ----------

  datatype Walk = Walk(items: seq<Message>, ended: bool)

  // Pages read one after the other, each from the table as it is then.
  function WalkAfter(tables: seq<Table>, c: ConversationId, limit: nat, after: Key): Walk
    decreases |tables|
  {
    if tables == [] then Walk([], false)
    else
      var page := ListAfter(tables[0], c, limit, after);
      if page.next.None? then Walk(page.items, true)
      else
        var rest := WalkAfter(tables[1..], c, limit, page.next.value);
        Walk(page.items + rest.items, rest.ended)
  }

  ghost predicate Growing(tables: seq<Table>) {
    forall i, j :: 0 <= i <= j < |tables| ==> tables[i] <= tables[j]
  }

  // The cut that a full page makes in what is above its cursor.
  lemma AboveCut(t: Table, c: ConversationId, after: Key, n: nat)
    requires 0 < n <= |Ascending(Above(t, c, after))|
    ensures var all := Ascending(Above(t, c, after));
            && Lists(all[..n], Above(t, c, after) - Above(t, c, KeyOf(all[n - 1])))
            && all[n..] == Ascending(Above(t, c, KeyOf(all[n - 1])))
            && Above(t, c, KeyOf(all[n - 1])) <= Above(t, c, after)
  {
    var s := Above(t, c, after);
    var all := Ascending(s);
    AscendingLists(s);
    CutAfter(all, s, n);
    var last := all[n - 1];
    assert last in all;
    var back := set m | m in s && Less(KeyOf(last), KeyOf(m));
    assert back == Above(t, c, KeyOf(last));
    assert s - back == set m | m in s && !Less(KeyOf(last), KeyOf(m));
    AscendingOnly(back, all[n..]);
  }

  // What one page tells: increasing, above the cursor, and complete up to its own end.
  lemma AfterPageExact(t: Table, c: ConversationId, limit: nat, after: Key)
    requires 0 < limit
    ensures var page := ListAfter(t, c, limit, after);
            && (page.next.None? ==> Lists(page.items, Above(t, c, after)))
            && (page.next.Some? ==>
                  && page.items != [] && page.next.value == KeyOf(page.items[|page.items| - 1])
                  && Above(t, c, page.next.value) <= Above(t, c, after)
                  && Lists(page.items, Above(t, c, after) - Above(t, c, page.next.value)))
  {
    AscendingLists(Above(t, c, after));
    if |Ascending(Above(t, c, after))| > limit {
      AboveCut(t, c, after, limit);
    }
  }

  lemma JoinIncreasing(p: seq<Message>, q: seq<Message>)
    requires p != [] && Increasing(p) && Increasing(q)
    requires forall m :: m in q ==> Less(KeyOf(p[|p| - 1]), KeyOf(m))
    ensures Increasing(p + q)
  {
    var all := p + q;
    forall i, j | 0 <= i < j < |all|
      ensures Less(KeyOf(all[i]), KeyOf(all[j]))
    {
      if i < |p| <= j {
        assert all[j] == q[j - |p|] && all[j] in q;
      }
    }
  }

  // The walk is increasing, invents nothing, and misses of `existing` at most what lies beyond its own end.
  ghost predicate Recovers(walk: Walk, existing: set<Message>, final: set<Message>) {
    && Increasing(walk.items)
    && (forall m :: m in walk.items ==> m in final)
    && forall m :: m in existing && m !in walk.items ==>
         !walk.ended && walk.items != [] && Less(KeyOf(walk.items[|walk.items| - 1]), KeyOf(m))
  }

  lemma PageThenRest(items: seq<Message>, rest: Walk, all: set<Message>, above: set<Message>,
                     final: set<Message>, finalAbove: set<Message>)
    requires items != [] && Lists(items, all - above) && all <= final && finalAbove <= final
    requires Recovers(rest, above, finalAbove)
    requires forall m :: m in finalAbove ==> Less(KeyOf(items[|items| - 1]), KeyOf(m))
    ensures Recovers(Walk(items + rest.items, rest.ended), all, final)
  {
    JoinIncreasing(items, rest.items);
  }

  /**
   * Recovery under inserts: whatever is inserted between the pages, the walk is strictly increasing
   * and above the cursor, holds only messages of the final table, and misses none that existed when
   * it began and lies before its own end.
   */
  lemma {:induction false} RecoveryMissesNothing(tables: seq<Table>, c: ConversationId, limit: nat, after: Key)
    requires 0 < limit && tables != [] && Growing(tables)
    ensures Recovers(WalkAfter(tables, c, limit, after),
                     Above(tables[0], c, after), Above(tables[|tables| - 1], c, after))
    decreases |tables|
  {
    var final := tables[|tables| - 1];
    AfterPageExact(tables[0], c, limit, after);
    var page := ListAfter(tables[0], c, limit, after);
    AboveGrows(tables[0], final, c, after);
    if page.next.None? {
      assert WalkAfter(tables, c, limit, after) == Walk(page.items, true);
    } else {
      var k, more := page.next.value, tables[1..];
      var rest := WalkAfter(more, c, limit, k);
      assert WalkAfter(tables, c, limit, after) == Walk(page.items + rest.items, rest.ended);
      if more == [] {
        assert rest == Walk([], false);
        LastPage(page.items, Above(tables[0], c, after), Above(tables[0], c, k));
      } else {
        assert page.items[|page.items| - 1] in page.items;
        LaterCursor(final, c, after, k);
        RecoveryMissesNothing(more, c, limit, k);
        AboveGrows(tables[0], more[0], c, k);
        PageThenRest(page.items, rest, Above(tables[0], c, after), Above(tables[0], c, k),
                     Above(final, c, after), Above(final, c, k));
      }
    }
  }

  // The walk stops at its page limit: what it misses lies beyond its last page.
  lemma LastPage(items: seq<Message>, all: set<Message>, above: set<Message>)
    requires items != [] && Lists(items, all - above)
    requires forall m :: m in above ==> Less(KeyOf(items[|items| - 1]), KeyOf(m))
    ensures Recovers(Walk(items + [], false), all, all)
  {
    assert items + [] == items;
  }

  lemma AboveGrows(t: Table, s: Table, c: ConversationId, after: Key)
    requires t <= s
    ensures Above(t, c, after) <= Above(s, c, after)
  {
  }

  lemma LaterCursor(t: Table, c: ConversationId, after: Key, k: Key)
    requires Less(after, k)
    ensures Above(t, c, k) <= Above(t, c, after)
  {
  }

  // ---------- Walking forward on an unchanging table ----------

  function Repeat(t: Table, n: nat): seq<Table> {
    seq(n, _ => t)
  }

  /** On an unchanging table n pages recover exactly the first n * limit missed messages, in order. */
  lemma {:induction false} RecoveryExact(t: Table, c: ConversationId, limit: nat, after: Key, n: nat)
    requires 0 < limit && 0 < n
    ensures WalkAfter(Repeat(t, n), c, limit, after).items == Limited(Ascending(Above(t, c, after)), n * limit)
    ensures WalkAfter(Repeat(t, n), c, limit, after).ended <==> |Above(t, c, after)| <= n * limit
    decreases n
  {
    OnePageMore(limit, n);
    if |Above(t, c, after)| > limit {
      var all, k := FullPage(t, c, limit, after);
      RepeatUnfold(t, c, limit, after, n, k);
      if n > 1 {
        RecoveryExact(t, c, limit, k, n - 1);
      }
      WalkJoins(WalkAfter(Repeat(t, n), c, limit, after), WalkAfter(Repeat(t, n - 1), c, limit, k), all, limit,
                (n - 1) * limit);
    } else {
      OnlyPage(t, c, limit, after, n);
    }
  }

  // A full page followed by a walk over the rest of the listing.
  lemma WalkJoins(walk: Walk, rest: Walk, all: seq<Message>, limit: nat, more: nat)
    requires limit < |all| && walk == Walk(all[..limit] + rest.items, rest.ended)
    requires rest.items == Limited(all[limit..], more) && (rest.ended <==> |all| - limit <= more)
    ensures walk.items == Limited(all, limit + more) && (walk.ended <==> |all| <= limit + more)
  {
    JoinLimited(all, limit, more);
  }

  // A page with more to come, and what is left above its cursor.
  lemma FullPage(t: Table, c: ConversationId, limit: nat, after: Key) returns (all: seq<Message>, k: Key)
    requires 0 < limit < |Above(t, c, after)|
    ensures all == Ascending(Above(t, c, after)) && |all| == |Above(t, c, after)|
    ensures ListAfter(t, c, limit, after) == Page(all[..limit], Some(k))
    ensures all[limit..] == Ascending(Above(t, c, k)) && |Above(t, c, k)| == |all| - limit
  {
    all := Ascending(Above(t, c, after));
    AscendingSize(Above(t, c, after));
    k := KeyOf(all[limit - 1]);
    AboveCut(t, c, after, limit);
    AscendingSize(Above(t, c, k));
  }

  lemma OnePageMore(limit: nat, n: nat)
    requires 0 < n
    ensures n * limit == limit + (n - 1) * limit && 0 <= (n - 1) * limit
  {
  }

  lemma OnlyPage(t: Table, c: ConversationId, limit: nat, after: Key, n: nat)
    requires 0 < n && |Above(t, c, after)| <= limit
    ensures WalkAfter(Repeat(t, n), c, limit, after) == Walk(Ascending(Above(t, c, after)), true)
    ensures |Ascending(Above(t, c, after))| == |Above(t, c, after)|
  {
    AscendingSize(Above(t, c, after));
  }

  lemma RepeatUnfold(t: Table, c: ConversationId, limit: nat, after: Key, n: nat, k: Key)
    requires 0 < n && ListAfter(t, c, limit, after).next == Some(k)
    ensures WalkAfter(Repeat(t, n), c, limit, after).items
         == ListAfter(t, c, limit, after).items + WalkAfter(Repeat(t, n - 1), c, limit, k).items
    ensures WalkAfter(Repeat(t, n), c, limit, after).ended == WalkAfter(Repeat(t, n - 1), c, limit, k).ended
    ensures WalkAfter(Repeat(t, 0), c, limit, k) == Walk([], false)
  {
    assert Repeat(t, n)[1..] == Repeat(t, n - 1);
  }

  lemma AscendingSize(s: Table)
    ensures |Ascending(s)| == |s|
  {
    AscendingLists(s);
    ListsSize(Ascending(s), s);
  }

  lemma JoinLimited(all: seq<Message>, n: nat, more: nat)
    requires n <= |all|
    ensures all[..n] + Limited(all[n..], more) == Limited(all, n + more)
  {
  }

  // ---------- Walking back ----------

  datatype Pages = Pages(pages: seq<Page>, ended: bool)

  function WalkBefore(tables: seq<Table>, c: ConversationId, limit: nat, before: Option<Key>): Pages
    decreases |tables|
  {
    if tables == [] then Pages([], false)
    else
      var page := ListBefore(tables[0], c, limit, before);
      if page.next.None? then Pages([page], true)
      else
        var rest := WalkBefore(tables[1..], c, limit, page.next);
        Pages([page] + rest.pages, rest.ended)
  }

  // The messages of all pages, oldest first; the pages arrive newest first.
  function Flattened(pages: seq<Page>): seq<Message>
    decreases |pages|
  {
    if pages == [] then [] else Flattened(pages[1..]) + pages[0].items
  }

  // A page before a cursor and what is below its own cursor make up all that was below.
  lemma BeforePageExact(t: Table, c: ConversationId, limit: nat, before: Option<Key>)
    requires 0 < limit
    ensures var page := ListBefore(t, c, limit, before);
            && (page.next.None? ==> page.items == Ascending(Below(t, c, before)))
            && (page.next.Some? ==>
                  && (before.Some? ==> Less(page.next.value, before.value))
                  && Ascending(Below(t, c, page.next)) + page.items == Ascending(Below(t, c, before)))
  {
    var s := Below(t, c, before);
    var all := Ascending(s);
    AscendingLists(s);
    if |all| > limit {
      var cut := |all| - limit;
      assert all[cut] in all;
      BelowCut(t, c, before, cut);
      assert all == all[..cut] + all[cut..];
    }
  }

  // The cut that a full page makes in what is below its cursor.
  lemma BelowCut(t: Table, c: ConversationId, before: Option<Key>, cut: nat)
    requires cut < |Ascending(Below(t, c, before))|
    ensures var all := Ascending(Below(t, c, before));
            all[..cut] == Ascending(Below(t, c, Some(KeyOf(all[cut]))))
  {
    var s := Below(t, c, before);
    var all := Ascending(s);
    AscendingLists(s);
    var first := all[cut];
    assert first in all;
    CutLists(all, s, cut);
    var front: Table := set m | m in s && Less(KeyOf(m), KeyOf(first));
    assert front == Below(t, c, Some(KeyOf(first)));
    AscendingOnly(front, all[..cut]);
  }

  // A page with more to come is full, and its cursor is that of a listed message.
  lemma FullPageBefore(t: Table, c: ConversationId, limit: nat, before: Option<Key>)
    requires 0 < limit
    ensures var page := ListBefore(t, c, limit, before);
            && (page.next.None? <==> |Below(t, c, before)| <= limit)
            && (page.next.Some? ==>
                  && |Below(t, c, page.next)| == |Below(t, c, before)| - limit
                  && exists m :: m in Visible(t, c) && KeyOf(m) == page.next.value)
  {
    var all := Ascending(Below(t, c, before));
    AscendingLists(Below(t, c, before));
    AscendingSize(Below(t, c, before));
    if |all| > limit {
      var cut := |all| - limit;
      BelowCut(t, c, before, cut);
      AscendingSize(Below(t, c, Some(KeyOf(all[cut]))));
      assert all[cut] in all;
    }
  }

  lemma WalkUnfold(tables: seq<Table>, c: ConversationId, limit: nat, before: Option<Key>)
    requires tables != []
    ensures var page, walk := ListBefore(tables[0], c, limit, before), WalkBefore(tables, c, limit, before);
            var rest := WalkBefore(tables[1..], c, limit, page.next);
            && (page.next.None? ==> walk.ended && Flattened(walk.pages) == page.items)
            && (page.next.Some? ==> walk.ended == rest.ended && Flattened(walk.pages) == Flattened(rest.pages) + page.items)
  {
    var page, walk := ListBefore(tables[0], c, limit, before), WalkBefore(tables, c, limit, before);
    if page.next.None? {
      assert walk.pages[1..] == [];
    } else {
      assert walk.pages[1..] == WalkBefore(tables[1..], c, limit, page.next).pages;
    }
  }

  // Every request finds the same below the cursor.
  ghost predicate SameBelow(tables: seq<Table>, c: ConversationId, before: Option<Key>, s: Table) {
    forall j :: 0 <= j < |tables| ==> Below(tables[j], c, before) == Below(s, c, before)
  }

  lemma SameBelowNext(tables: seq<Table>, c: ConversationId, before: Option<Key>, k: Option<Key>, s: Table)
    requires tables != [] && SameBelow(tables, c, before, s)
    requires k.Some? && (before.Some? ==> Less(k.value, before.value))
    ensures SameBelow(tables[1..], c, k, s) && Below(tables[0], c, k) == Below(s, c, k)
  {
    forall j | 0 <= j < |tables|
      ensures Below(tables[j], c, k) == Below(s, c, k)
    {
      NarrowBelow(tables[j], s, c, before, k);
    }
  }

  // How many messages n pages hold.
  function Room(n: nat, limit: nat): nat {
    if n == 0 then 0 else limit + Room(n - 1, limit)
  }

  lemma {:induction false} RoomIsProduct(n: nat, limit: nat)
    ensures Room(n, limit) == n * limit
  {
    if n > 0 {
      RoomIsProduct(n - 1, limit);
      OnePageMore(limit, n);
    }
  }

  // n requests reach the end exactly if they can hold it all, and then have it all.
  lemma {:induction false} WalkBelow(tables: seq<Table>, c: ConversationId, limit: nat, before: Option<Key>, s: Table)
    requires 0 < limit && (tables != [] || 0 < |Below(s, c, before)|) && SameBelow(tables, c, before, s)
    ensures var walk := WalkBefore(tables, c, limit, before);
            && (walk.ended <==> |Below(s, c, before)| <= Room(|tables|, limit))
            && (walk.ended ==> Flattened(walk.pages) == Ascending(Below(s, c, before)))
    decreases |tables|
  {
    if tables != [] {
      var next := ListBefore(tables[0], c, limit, before).next;
      assert Below(tables[0], c, before) == Below(s, c, before);
      BeforePageExact(tables[0], c, limit, before);
      FullPageBefore(tables[0], c, limit, before);
      WalkUnfold(tables, c, limit, before);
      if next.Some? {
        SameBelowNext(tables, c, before, next, s);
        WalkBelow(tables[1..], c, limit, next, s);
      }
    }
  }

  lemma NarrowBelow(t: Table, s: Table, c: ConversationId, before: Option<Key>, k: Option<Key>)
    requires Below(t, c, before) == Below(s, c, before)
    requires k.Some? && (before.Some? ==> Less(k.value, before.value))
    ensures Below(t, c, k) == Below(s, c, k)
  {
    assert forall m :: m in Below(t, c, k) <==> m in Below(t, c, before) && Less(KeyOf(m), k.value);
    assert forall m :: m in Below(s, c, k) <==> m in Below(s, c, before) && Less(KeyOf(m), k.value);
  }

  // The rest of the walk, after the first page.
  lemma RestOfWalk(tables: seq<Table>, c: ConversationId, limit: nat, next: Option<Key>)
    requires 0 < limit && tables != [] && next.Some? && 0 < |Below(tables[0], c, next)|
    requires SameBelow(tables, c, next, tables[0])
    ensures var rest := WalkBefore(tables[1..], c, limit, next);
            && (rest.ended <==> |Below(tables[0], c, next)| <= Room(|tables| - 1, limit))
            && (rest.ended ==> Flattened(rest.pages) == Ascending(Below(tables[0], c, next)))
  {
    forall j | 0 <= j < |tables[1..]|
      ensures Below(tables[1..][j], c, next) == Below(tables[0], c, next)
    {
      assert tables[1..][j] == tables[j + 1];
    }
    WalkBelow(tables[1..], c, limit, next, tables[0]);
  }

  lemma HistoryInRoom(tables: seq<Table>, c: ConversationId, limit: nat)
    requires 0 < limit && tables != []
    requires var next := ListBefore(tables[0], c, limit, None).next; next.Some? ==> SameBelow(tables, c, next, tables[0])
    ensures var walk := WalkBefore(tables, c, limit, None);
            && (walk.ended <==> |Below(tables[0], c, None)| <= Room(|tables|, limit))
            && (walk.ended ==> Flattened(walk.pages) == Ascending(Below(tables[0], c, None)))
  {
    var next := ListBefore(tables[0], c, limit, None).next;
    BeforePageExact(tables[0], c, limit, None);
    FullPageBefore(tables[0], c, limit, None);
    WalkUnfold(tables, c, limit, None);
    if next.Some? {
      RestOfWalk(tables, c, limit, next);
    }
  }

  /**
   * History walk: n requests that follow `before` cursors, while what is below the first page's cursor stays as it
   * is, come to the end if and only if the history at the first request fits n pages; and then the reversed
   * concatenation of the pages is that history, sorted.
   */
  lemma {:induction false} HistoryComplete(tables: seq<Table>, c: ConversationId, limit: nat)
    requires 0 < limit && tables != []
    requires var next := ListBefore(tables[0], c, limit, None).next; next.Some? ==> SameBelow(tables, c, next, tables[0])
    ensures var walk := WalkBefore(tables, c, limit, None);
            && (walk.ended <==> |Visible(tables[0], c)| <= |tables| * limit)
            && (walk.ended ==> Flattened(walk.pages) == Ascending(Visible(tables[0], c)))
  {
    HistoryInRoom(tables, c, limit);
    RoomIsProduct(|tables|, limit);
    assert Below(tables[0], c, None) == Visible(tables[0], c);
  }

  // Nothing is lost from the conversation, and what arrives is newer than all that was there.
  ghost predicate OnlyNewer(t: Table, s: Table, c: ConversationId) {
    && Visible(s, c) <= Visible(t, c)
    && forall m, x :: m in Visible(t, c) && m !in Visible(s, c) && x in Visible(s, c) ==> Less(KeyOf(x), KeyOf(m))
  }

  lemma NewerNotBelow(t: Table, s: Table, c: ConversationId, x: Message)
    requires OnlyNewer(t, s, c) && x in Visible(s, c)
    ensures Below(t, c, Some(KeyOf(x))) == Below(s, c, Some(KeyOf(x)))
  {
  }

  /** So the walk is complete while new messages arrive, each newer than all that was there at the first request. */
  lemma {:induction false} HistoryUnderInserts(tables: seq<Table>, c: ConversationId, limit: nat)
    requires 0 < limit && tables != [] && forall j :: 0 <= j < |tables| ==> OnlyNewer(tables[j], tables[0], c)
    ensures var walk := WalkBefore(tables, c, limit, None);
            && (walk.ended <==> |Visible(tables[0], c)| <= |tables| * limit)
            && (walk.ended ==> Flattened(walk.pages) == Ascending(Visible(tables[0], c)))
  {
    FullPageBefore(tables[0], c, limit, None);
    var next := ListBefore(tables[0], c, limit, None).next;
    if next.Some? {
      var x :| x in Visible(tables[0], c) && KeyOf(x) == next.value;
      forall j | 0 <= j < |tables| { NewerNotBelow(tables[j], tables[0], c, x); }
    }
    HistoryComplete(tables, c, limit);
  }
}
