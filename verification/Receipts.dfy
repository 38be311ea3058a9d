/**
 * Message receipts: who must acknowledge which message, and the three ways receipts are marked.
 * Each service call is one transaction.
 */
module Receipts {
  import opened Basics

  datatype MessageRow = MessageRow(id: MessageId, conversation: ConversationId, sender: UserId, createdAt: Time)

  function KeyOf(m: MessageRow): Key {
    Key(m.createdAt, m.id)
  }

  function Later(a: Key, b: Key): Key {
    if AtMost(a, b) then b else a
  }

  datatype ReceiptKey = ReceiptKey(message: MessageId, user: UserId)

  datatype Receipt = Receipt(deliveredAt: Option<Time>, readAt: Option<Time>)

  datatype Db = Db(members: map<ConversationId, set<UserId>>, messages: map<MessageId, MessageRow>,
                   receipts: map<ReceiptKey, Receipt>) {

    function Recipients(m: MessageRow): set<UserId> {
      (if m.conversation in members then members[m.conversation] else {}) - {m.sender}
    }

    // A new message: one blank receipt per member other than the sender.
    function Create(m: MessageRow): Db {
      Db(members, messages[m.id := m],
         receipts + map u | u in Recipients(m) :: ReceiptKey(m.id, u) := Receipt(None, None))
    }

    // The undelivered receipts of a message for some users.
    function ToDeliver(message: MessageId, users: set<UserId>): set<ReceiptKey> {
      set k | k in receipts && k.message == message && k.user in users && receipts[k].deliveredAt.None?
    }

    // The undelivered receipts of a user.
    function PendingOf(user: UserId): set<ReceiptKey> {
      set k | k in receipts && k.user == user && receipts[k].deliveredAt.None?
    }

    // The user's receipts in a conversation, by the place of their message.
    predicate InHistory(k: ReceiptKey, c: ConversationId, user: UserId) {
      k in receipts && k.user == user && k.message in messages && messages[k.message].conversation == c
    }

    // The user's unread receipts in a conversation, up to and with a place.
    function ToRead(c: ConversationId, user: UserId, target: Key): set<ReceiptKey> {
      set k | k in receipts && InHistory(k, c, user) && receipts[k].readAt.None? && AtMost(KeyOf(messages[k.message]), target)
    }

    function Deliver(sel: set<ReceiptKey>, now: Time): Db {
      Db(members, messages, map k | k in receipts :: if k in sel then receipts[k].(deliveredAt := Some(now)) else receipts[k])
    }

    function Read(sel: set<ReceiptKey>, now: Time): Db {
      Db(members, messages, map k | k in receipts ::
        if k in sel then Receipt(if receipts[k].deliveredAt.Some? then receipts[k].deliveredAt else Some(now), Some(now))
        else receipts[k])
    }

    function ReadThrough(c: ConversationId, user: UserId, target: Key, now: Time): Db {
      Read(ToRead(c, user, target), now)
    }

    function ReadKeys(): set<ReceiptKey> {
      set k | k in receipts && receipts[k].readAt.Some?
    }

    function DeliveredKeys(): set<ReceiptKey> {
      set k | k in receipts && receipts[k].deliveredAt.Some?
    }

    // What the unread count counts.
    function Unread(c: ConversationId, user: UserId): set<ReceiptKey> {
      set k | k in receipts && InHistory(k, c, user) && receipts[k].readAt.None?
    }
  }

  // ---------- Read-through algebra ----------

  // A call to mark read: the place it reads through, and its time.
  datatype ReadCall = ReadCall(target: Key, at: Time)

  function ReadAll(db: Db, c: ConversationId, u: UserId, calls: seq<ReadCall>): Db
    decreases |calls|
  {
    if calls == [] then db
    else
      var last := calls[|calls| - 1];
      ReadAll(db, c, u, calls[..|calls| - 1]).ReadThrough(c, u, last.target, last.at)
  }

  // The receipts all the calls report, with how often.
  function ReadReports(db: Db, c: ConversationId, u: UserId, calls: seq<ReadCall>): multiset<ReceiptKey>
    decreases |calls|
  {
    if calls == [] then multiset{}
    else
      var front := calls[..|calls| - 1];
      ReadReports(db, c, u, front) + multiset(ReadAll(db, c, u, front).ToRead(c, u, calls[|calls| - 1].target))
  }

  function Latest(calls: seq<ReadCall>): (m: Key)
    requires calls != []
    ensures exists k :: 0 <= k < |calls| && calls[k].target == m
    ensures forall k :: 0 <= k < |calls| ==> AtMost(calls[k].target, m)
    decreases |calls|
  {
    var last := calls[|calls| - 1].target;
    if |calls| == 1 then last else Later(Latest(calls[..|calls| - 1]), last)
  }

  // What a read-through leaves to a later one, and what the two read together.
  lemma ThenReadThrough(db: Db, once: Db, c: ConversationId, u: UserId, a: Key, b: Key, t: Time)
    requires once.messages == db.messages && once.receipts.Keys == db.receipts.Keys
    requires once.ReadKeys() == db.ReadKeys() + db.ToRead(c, u, a)
    ensures once.ToRead(c, u, b) == db.ToRead(c, u, b) - db.ToRead(c, u, a)
    ensures db.ToRead(c, u, a) + once.ToRead(c, u, b) == db.ToRead(c, u, Later(a, b))
    ensures once.ReadThrough(c, u, b, t).ReadKeys() == db.ReadKeys() + db.ToRead(c, u, Later(a, b))
  {
    var twice := once.ReadThrough(c, u, b, t);
    forall k
      ensures k in once.ToRead(c, u, b) <==> k in db.ToRead(c, u, b) && k !in db.ToRead(c, u, a)
    {
      assert k in once.ReadKeys() <==> k in db.ReadKeys() || k in db.ToRead(c, u, a);
      assert k in db.receipts.Keys <==> k in once.receipts.Keys;
    }
    forall k
      ensures k in twice.ReadKeys() <==> k in once.ReadKeys() || k in once.ToRead(c, u, b)
    {
      assert k in twice.receipts <==> k in once.receipts;
    }
  }

  /**
   * Read-through algebra: any list of read-throughs, in any order, reads what one read-through of the
   * latest target reads, and the calls together report exactly those receipts, each once.
   */
  lemma {:induction false} ReadThroughAll(db: Db, c: ConversationId, u: UserId, calls: seq<ReadCall>)
    requires calls != []
    ensures var done := ReadAll(db, c, u, calls);
            && done.messages == db.messages && done.receipts.Keys == db.receipts.Keys
            && done.ReadKeys() == db.ReadKeys() + db.ToRead(c, u, Latest(calls))
    ensures ReadReports(db, c, u, calls) == multiset(db.ToRead(c, u, Latest(calls)))
    decreases |calls|
  {
    var front, last := calls[..|calls| - 1], calls[|calls| - 1];
    var once := ReadAll(db, c, u, front);
    if front == [] {
      FirstReadThrough(db, c, u, last);
    } else {
      ReadThroughAll(db, c, u, front);
      ThenReadThrough(db, once, c, u, Latest(front), last.target, last.at);
      JoinReports(db.ToRead(c, u, Latest(front)), once.ToRead(c, u, last.target), db.ToRead(c, u, Latest(calls)));
    }
  }

  lemma FirstReadThrough(db: Db, c: ConversationId, u: UserId, call: ReadCall)
    ensures db.ReadThrough(c, u, call.target, call.at).ReadKeys() == db.ReadKeys() + db.ToRead(c, u, call.target)
  {
    var done := db.ReadThrough(c, u, call.target, call.at);
    forall k
      ensures k in done.ReadKeys() <==> k in db.ReadKeys() || k in db.ToRead(c, u, call.target)
    {
      assert k in done.receipts <==> k in db.receipts;
    }
  }

  lemma JoinReports<T>(a: set<T>, b: set<T>, both: set<T>)
    requires a !! b && a + b == both
    ensures multiset(a) + multiset(b) == multiset(both)
  {
  }

  /** What stays unread is what was unread strictly after the target. */
  lemma {:induction false} UnreadAfter(db: Db, c: ConversationId, u: UserId, target: Key, now: Time)
    ensures db.ReadThrough(c, u, target, now).Unread(c, u)
         == set k | k in db.Unread(c, u) && !AtMost(KeyOf(db.messages[k.message]), target)
    ensures |db.ReadThrough(c, u, target, now).Unread(c, u)| == |db.Unread(c, u)| - |db.ToRead(c, u, target)|
  {
    var after := db.ReadThrough(c, u, target, now);
    forall k
      ensures k in after.Unread(c, u) <==> k in db.Unread(c, u) && !AtMost(KeyOf(db.messages[k.message]), target)
    {
      assert k in after.receipts <==> k in db.receipts;
    }
    assert db.Unread(c, u) == after.Unread(c, u) + db.ToRead(c, u, target);
    assert after.Unread(c, u) !! db.ToRead(c, u, target);
  }

  // ---------- Histories of a conversation's receipts ----------

  datatype Op =
    | Sent(m: MessageRow)
    | MarkedDelivered(message: MessageId, users: set<UserId>)
    | MarkedPending(user: UserId)
    | MarkedRead(c: ConversationId, user: UserId, target: Key)

  datatype Timed = Timed(op: Op, at: Time)

  predicate Enabled(db: Db, op: Op) {
    op.Sent? ==> op.m.id !in db.messages && op.m.conversation in db.members && op.m.sender in db.members[op.m.conversation]
  }

  // The receipts an operation marks and reports.
  function Marked(db: Db, op: Op): set<ReceiptKey> {
    match op
    case Sent(_) => {}
    case MarkedDelivered(message, users) => db.ToDeliver(message, users)
    case MarkedPending(user) => db.PendingOf(user)
    case MarkedRead(c, user, target) => db.ToRead(c, user, target)
  }

  function Apply(db: Db, op: Op, now: Time): Db {
    match op
    case Sent(m) => db.Create(m)
    case MarkedDelivered(_, _) => db.Deliver(Marked(db, op), now)
    case MarkedPending(_) => db.Deliver(Marked(db, op), now)
    case MarkedRead(_, _, _) => db.Read(Marked(db, op), now)
  }

  ghost predicate Legal(db: Db, now: Time, ops: seq<Timed>)
    decreases |ops|
  {
    ops != [] ==> now <= ops[0].at && Enabled(db, ops[0].op) && Legal(Apply(db, ops[0].op, ops[0].at), ops[0].at, ops[1..])
  }

  function Run(db: Db, ops: seq<Timed>): Db
    decreases |ops|
  {
    if ops == [] then db else Run(Apply(db, ops[0].op, ops[0].at), ops[1..])
  }

  // Every message has exactly one receipt per non-sender member, and the times of each are in order.
  ghost predicate Sound(db: Db, now: Time) {
    && (forall k :: k in db.receipts <==> k.message in db.messages && k.user in db.Recipients(db.messages[k.message]))
    && (forall i :: i in db.messages ==> db.messages[i].id == i)
    && forall k :: k in db.receipts ==> InOrder(db.receipts[k], now)
  }

  predicate InOrder(r: Receipt, now: Time) {
    && (r.deliveredAt.Some? ==> r.deliveredAt.value <= now)
    && (r.readAt.Some? ==> r.deliveredAt.Some? && r.deliveredAt.value <= r.readAt.value <= now)
  }

  // No receipt is lost, and no time once set ever changes.
  ghost predicate Preserved(db: Db, after: Db) {
    && after.members == db.members
    && (forall i :: i in db.messages ==> i in after.messages && after.messages[i] == db.messages[i])
    && forall k :: k in db.receipts ==>
         && k in after.receipts
         && (db.receipts[k].deliveredAt.Some? ==> after.receipts[k].deliveredAt == db.receipts[k].deliveredAt)
         && (db.receipts[k].readAt.Some? ==> after.receipts[k].readAt == db.receipts[k].readAt)
  }

  lemma StepSound(db: Db, op: Op, before: Time, now: Time)
    requires Sound(db, before) && before <= now && Enabled(db, op)
    ensures Sound(Apply(db, op, now), now) && Preserved(db, Apply(db, op, now))
  {
    var after := Apply(db, op, now);
    if op.Sent? {
      forall k
        ensures k in after.receipts <==> k.message in after.messages && k.user in after.Recipients(after.messages[k.message])
      {
        assert k.message == op.m.id ==> (k in after.receipts <==> k.user in db.Recipients(op.m));
      }
    }
  }

  /**
   * Receipt history: in every run with a clock that does not go back, each message keeps exactly one
   * receipt per non-sender member; delivered_at and read_at are each set at most once and never change;
   * read implies delivered, not later.
   */
  lemma {:induction false} ReceiptHistory(db: Db, now: Time, ops: seq<Timed>)
    requires Sound(db, now) && Legal(db, now, ops)
    ensures Preserved(db, Run(db, ops))
    ensures Sound(Run(db, ops), if ops == [] then now else ops[|ops| - 1].at)
    decreases |ops|
  {
    if ops != [] {
      var next := Apply(db, ops[0].op, ops[0].at);
      StepSound(db, ops[0].op, now, ops[0].at);
      ReceiptHistory(next, ops[0].at, ops[1..]);
    }
  }

  // Operation j of the run marks the receipt, for delivery or for reading, at the time x.
  ghost predicate SetAt(db: Db, ops: seq<Timed>, j: nat, k: ReceiptKey, x: Time, reading: bool) {
    && j < |ops| && ops[j].at == x && k in Marked(Run(db, ops[..j]), ops[j].op)
    && (reading ==> ops[j].op.MarkedRead?)
  }

  lemma FirstOp(db: Db, ops: seq<Timed>, k: ReceiptKey, j: nat, x: Time, reading: bool)
    requires ops != [] && SetAt(Apply(db, ops[0].op, ops[0].at), ops[1..], j, k, x, reading)
    ensures SetAt(db, ops, j + 1, k, x, reading)
  {
    assert ops[..j + 1][1..] == ops[1..][..j] && ops[..j + 1][0] == ops[0];
  }

  /**
   * Times are clocks: a delivery time that a run sets is the time of an operation that marked the receipt when it was
   * undelivered, and a read time that of a read-through that reached it.
   */
  lemma {:induction false} TimesAreClocks(db: Db, now: Time, ops: seq<Timed>, k: ReceiptKey)
    requires Sound(db, now) && Legal(db, now, ops) && k in Run(db, ops).receipts
    ensures var r := Run(db, ops).receipts[k];
            && (r.deliveredAt.Some? && !(k in db.receipts && db.receipts[k].deliveredAt.Some?) ==>
                  exists j: nat :: SetAt(db, ops, j, k, r.deliveredAt.value, false))
            && (r.readAt.Some? && !(k in db.receipts && db.receipts[k].readAt.Some?) ==>
                  exists j: nat :: SetAt(db, ops, j, k, r.readAt.value, true))
    decreases |ops|
  {
    if ops != [] {
      var next, r := Apply(db, ops[0].op, ops[0].at), Run(db, ops).receipts[k];
      StepSound(db, ops[0].op, now, ops[0].at);
      ReceiptHistory(next, ops[0].at, ops[1..]);
      TimesAreClocks(next, ops[0].at, ops[1..], k);
      if k in next.receipts {
        StepTimes(db, ops[0].op, now, ops[0].at, k);
      }
      assert Run(db, ops[..0]) == db;
      if r.deliveredAt.Some? && !(k in next.receipts && next.receipts[k].deliveredAt.Some?) {
        var j: nat :| SetAt(next, ops[1..], j, k, r.deliveredAt.value, false);
        FirstOp(db, ops, k, j, r.deliveredAt.value, false);
      } else if r.deliveredAt.Some? && !(k in db.receipts && db.receipts[k].deliveredAt.Some?) {
        assert SetAt(db, ops, 0, k, r.deliveredAt.value, false);
      }
      if r.readAt.Some? && !(k in next.receipts && next.receipts[k].readAt.Some?) {
        var j: nat :| SetAt(next, ops[1..], j, k, r.readAt.value, true);
        FirstOp(db, ops, k, j, r.readAt.value, true);
      } else if r.readAt.Some? && !(k in db.receipts && db.receipts[k].readAt.Some?) {
        assert SetAt(db, ops, 0, k, r.readAt.value, true);
      }
    }
  }

  // The times that one operation sets.
  lemma StepTimes(db: Db, op: Op, before: Time, now: Time, k: ReceiptKey)
    requires Sound(db, before) && before <= now && Enabled(db, op) && k in Apply(db, op, now).receipts
    ensures var r := Apply(db, op, now).receipts[k];
            && (r.deliveredAt.Some? && !(k in db.receipts && db.receipts[k].deliveredAt.Some?) ==>
                  k in Marked(db, op) && r.deliveredAt.value == now)
            && (r.readAt.Some? && !(k in db.receipts && db.receipts[k].readAt.Some?) ==>
                  op.MarkedRead? && k in Marked(db, op) && r.readAt.value == now)
  {
    if op.Sent? && k.message == op.m.id {
      assert k !in db.receipts;
    }
  }

  // The read events of a run, and the delivery events of its delivery calls.
  function ReadEvents(db: Db, ops: seq<Timed>): multiset<ReceiptKey>
    decreases |ops|
  {
    if ops == [] then multiset{}
    else (if ops[0].op.MarkedRead? then multiset(Marked(db, ops[0].op)) else multiset{})
         + ReadEvents(Apply(db, ops[0].op, ops[0].at), ops[1..])
  }

  function DeliveryEvents(db: Db, ops: seq<Timed>): multiset<ReceiptKey>
    decreases |ops|
  {
    if ops == [] then multiset{}
    else (if ops[0].op.MarkedRead? then multiset{} else multiset(Marked(db, ops[0].op)))
         + DeliveryEvents(Apply(db, ops[0].op, ops[0].at), ops[1..])
  }

  /** Every receipt is reported read exactly once if the run read it, and delivered at most once. */
  lemma {:induction false} ReportedOnce(db: Db, now: Time, ops: seq<Timed>, k: ReceiptKey)
    requires Sound(db, now) && Legal(db, now, ops)
    ensures ReadEvents(db, ops)[k] == if k in Run(db, ops).ReadKeys() && k !in db.ReadKeys() then 1 else 0
    ensures DeliveryEvents(db, ops)[k] <= 1
    ensures DeliveryEvents(db, ops)[k] == 1 ==> k in Run(db, ops).DeliveredKeys() && k !in db.DeliveredKeys()
    ensures k in Run(db, ops).DeliveredKeys() && k !in db.DeliveredKeys() ==>
              DeliveryEvents(db, ops)[k] == 1 || ReadEvents(db, ops)[k] == 1
    decreases |ops|
  {
    if ops != [] {
      var next := Apply(db, ops[0].op, ops[0].at);
      StepSound(db, ops[0].op, now, ops[0].at);
      ReportedOnce(next, ops[0].at, ops[1..], k);
      ReceiptHistory(next, ops[0].at, ops[1..]);
      StepReports(db, ops[0].op, now, ops[0].at, k);
    }
  }

  lemma StepReports(db: Db, op: Op, before: Time, now: Time, k: ReceiptKey)
    requires Sound(db, before) && before <= now && Enabled(db, op)
    ensures var after := Apply(db, op, now);
            && (k in after.ReadKeys() <==> k in db.ReadKeys() || (op.MarkedRead? && k in Marked(db, op)))
            && (k in after.DeliveredKeys() <==> k in db.DeliveredKeys() || k in Marked(db, op))
            && (k in Marked(db, op) && op.MarkedRead? ==> k !in db.ReadKeys())
            && (k in Marked(db, op) && !op.MarkedRead? ==> k !in db.DeliveredKeys())
  {
    if op.Sent? && k.message == op.m.id {
      assert k !in db.receipts;
    }
  }

  // ---------- The repository and service as they run ----------

  datatype ReadError = ConversationNotFound | AccessDenied | MessageNotFound

  datatype ReadResult = Events(events: seq<ReceiptKey>) | Failed(error: ReadError)

  // Keys in the order of their messages' places.
  ghost predicate InMarkOrder(db: Db, ks: seq<ReceiptKey>) {
    && (forall k :: k in ks ==> k.message in db.messages)
    && forall i, j :: 0 <= i < j < |ks| ==> AtMost(KeyOf(db.messages[ks[i].message]), KeyOf(db.messages[ks[j].message]))
  }

  // Where a key goes among keys already in order, after its equals.
  function Inserted(messages: map<MessageId, MessageRow>, ks: seq<ReceiptKey>, k: ReceiptKey): (r: seq<ReceiptKey>)
    requires k.message in messages && forall x :: x in ks ==> x.message in messages
    ensures multiset(r) == multiset(ks) + multiset{k}
    decreases |ks|
  {
    if ks == [] then [k]
    else
      var last := ks[|ks| - 1];
      assert ks == ks[..|ks| - 1] + [last];
      if AtMost(KeyOf(messages[last.message]), KeyOf(messages[k.message])) then ks + [k]
      else Inserted(messages, ks[..|ks| - 1], k) + [last]
  }

  lemma AppendInOrder(db: Db, ks: seq<ReceiptKey>, k: ReceiptKey)
    requires InMarkOrder(db, ks) && k.message in db.messages
    requires forall x :: x in ks ==> AtMost(KeyOf(db.messages[x.message]), KeyOf(db.messages[k.message]))
    ensures InMarkOrder(db, ks + [k])
  {
  }

  lemma LastIsLatest(db: Db, ks: seq<ReceiptKey>, x: ReceiptKey)
    requires InMarkOrder(db, ks) && x in ks
    ensures AtMost(KeyOf(db.messages[x.message]), KeyOf(db.messages[ks[|ks| - 1].message]))
  {
    var i :| 0 <= i < |ks| && ks[i] == x;
  }

  lemma {:induction false} InsertedInOrder(db: Db, ks: seq<ReceiptKey>, k: ReceiptKey)
    requires k.message in db.messages && InMarkOrder(db, ks)
    ensures InMarkOrder(db, Inserted(db.messages, ks, k))
    decreases |ks|
  {
    if ks == [] {
    } else {
      var front, last := ks[..|ks| - 1], ks[|ks| - 1];
      assert ks == front + [last];
      assert InMarkOrder(db, front);
      if AtMost(KeyOf(db.messages[last.message]), KeyOf(db.messages[k.message])) {
        forall x | x in ks { LastIsLatest(db, ks, x); }
        AppendInOrder(db, ks, k);
      } else {
        InsertedInOrder(db, front, k);
        var head := Inserted(db.messages, front, k);
        forall x | x in head
          ensures AtMost(KeyOf(db.messages[x.message]), KeyOf(db.messages[last.message]))
        {
          assert x in multiset(front) + multiset{k};
          if x in front { LastIsLatest(db, ks, x); }
        }
        AppendInOrder(db, head, last);
      }
    }
  }

  class ReceiptStore {
    var members: map<ConversationId, set<UserId>>
    var messages: map<MessageId, MessageRow>
    var receipts: map<ReceiptKey, Receipt>

    function State(): Db
      reads this
    {
      Db(members, messages, receipts)
    }

    constructor (members: map<ConversationId, set<UserId>>)
      ensures State() == Db(members, map[], map[]) && Sound(State(), 0)
    {
      this.members, messages, receipts := members, map[], map[];
    }

    // The receipt is of the message, for a member of its conversation who did not send it.
    predicate IsRecipient(m: MessageRow, k: ReceiptKey)
      reads this`members
    {
      k.message == m.id && m.conversation in members && k.user in members[m.conversation] && k.user != m.sender
    }

    // The receipts of a new message: one for every member but the sender.
    method Create(m: MessageRow)
      modifies this`messages, this`receipts
      ensures State() == old(State()).Create(m)
      ensures messages == old(messages)[m.id := m]
      ensures forall k :: (k in receipts <==> k in old(receipts) || IsRecipient(m, k))
      ensures forall k :: k in receipts ==> receipts[k] == if IsRecipient(m, k) then Receipt(None, None) else old(receipts)[k]
    {
      ghost var before := State();
      var all := if m.conversation in members then members[m.conversation] else {};
      var todo := all;
      var added: map<ReceiptKey, Receipt> := map[];
      while todo != {}
        invariant todo <= all
        invariant forall k :: k in added <==> k.message == m.id && k.user in all && k.user !in todo && k.user != m.sender
        invariant forall k :: k in added ==> added[k] == Receipt(None, None)
        decreases |todo|
      {
        var u :| u in todo;
        todo := todo - {u};
        if u != m.sender {
          added := added[ReceiptKey(m.id, u) := Receipt(None, None)];
        }
      }
      BlankReceipts(added, m.id, before.Recipients(m));
      messages := messages[m.id := m];
      receipts := receipts + added;
    }

    // Set the delivery time of each selected receipt.
    method DeliverEach(sel: set<ReceiptKey>, now: Time) returns (marked: seq<ReceiptKey>)
      requires sel <= receipts.Keys
      modifies this`receipts
      ensures State() == old(State()).Deliver(sel, now)
      ensures Distinct(marked) && Elements(marked) == sel
    {
      ghost var before := receipts;
      marked := [];
      var todo := sel;
      while todo != {}
        invariant todo <= sel && receipts.Keys == before.Keys
        invariant forall k :: k in receipts ==>
                    receipts[k] == if k in sel - todo then before[k].(deliveredAt := Some(now)) else before[k]
        invariant Distinct(marked) && forall k :: k in marked <==> k in sel && k !in todo
        decreases |todo|
      {
        var k :| k in todo;
        receipts := receipts[k := receipts[k].(deliveredAt := Some(now))];
        marked := marked + [k];
        todo := todo - {k};
      }
    }

    method MarkDelivered(message: MessageId, users: seq<UserId>, now: Time) returns (marked: seq<ReceiptKey>)
      modifies this`receipts
      ensures State() == Apply(old(State()), MarkedDelivered(message, Elements(users)), now)
      ensures Distinct(marked) && Elements(marked) == Marked(old(State()), MarkedDelivered(message, Elements(users)))
      ensures receipts.Keys == old(receipts).Keys
      ensures forall k :: k in marked <==>
                k in old(receipts) && k.message == message && k.user in users && old(receipts)[k].deliveredAt == None
      ensures forall k :: k in receipts ==>
                receipts[k] == if k in marked then Receipt(Some(now), old(receipts)[k].readAt) else old(receipts)[k]
    {

      if users == [] {
        assert State() == State().Deliver({}, now);
        return [];
      }
      marked := DeliverEach(State().ToDeliver(message, Elements(users)), now);
    }

    method MarkPendingDelivered(user: UserId, now: Time) returns (marked: seq<ReceiptKey>)
      modifies this`receipts
      ensures State() == Apply(old(State()), MarkedPending(user), now)
      ensures Distinct(marked) && Elements(marked) == Marked(old(State()), MarkedPending(user))
      ensures receipts.Keys == old(receipts).Keys
      ensures forall k :: k in marked <==> k in old(receipts) && k.user == user && old(receipts)[k].deliveredAt == None
      ensures forall k :: k in receipts ==>
                receipts[k] == if k in marked then Receipt(Some(now), old(receipts)[k].readAt) else old(receipts)[k]
    {
      marked := DeliverEach(State().PendingOf(user), now);
    }

    // Set the read time of each selected receipt, and the delivery time where it is missing; the result is sorted.
    method ReadEach(sel: set<ReceiptKey>, now: Time) returns (marked: seq<ReceiptKey>)
      requires sel <= receipts.Keys && forall k :: k in sel ==> k.message in messages
      modifies this`receipts
      ensures State() == old(State()).Read(sel, now)
      ensures Distinct(marked) && Elements(marked) == sel && InMarkOrder(State(), marked)
    {
      ghost var before := receipts;
      ghost var all := multiset(sel);
      marked := [];
      var todo := sel;
      while todo != {}
        invariant todo <= sel && receipts.Keys == before.Keys
        invariant forall k :: k in receipts ==>
                    receipts[k] == if k in sel - todo
                      then Receipt(if before[k].deliveredAt.Some? then before[k].deliveredAt else Some(now), Some(now))
                      else before[k]
        invariant InMarkOrder(old(State()), marked)
        invariant multiset(marked) + multiset(todo) == all
        decreases |todo|
      {
        var k :| k in todo;
        var r := receipts[k];
        receipts := receipts[k := Receipt(if r.deliveredAt.Some? then r.deliveredAt else Some(now), Some(now))];
        InsertedInOrder(old(State()), marked, k);
        marked := Inserted(messages, marked, k);
        todo := todo - {k};
      }
      SetListed(marked, sel);
    }

    // Key everything up to a message read, for a member of its conversation.
    method MarkRead(c: ConversationId, message: MessageId, user: UserId, now: Time) returns (result: ReadResult)
      modifies this`receipts
      ensures result.Failed? ==> State() == old(State())
      ensures result == Failed(ConversationNotFound) <==> c !in members
      ensures result == Failed(AccessDenied) <==> c in members && user !in members[c]
      ensures result == Failed(MessageNotFound) <==>
                c in members && user in members[c] && (message !in messages || messages[message].conversation != c)
      ensures result.Events? ==>
                var op := MarkedRead(c, user, KeyOf(messages[message]));
                && State() == Apply(old(State()), op, now)
                && Distinct(result.events) && Elements(result.events) == Marked(old(State()), op)
                && InMarkOrder(State(), result.events)
      ensures receipts.Keys == old(receipts).Keys
      ensures result.Events? ==> forall k :: k in result.events <==>
                && k in old(receipts) && k.user == user && old(receipts)[k].readAt == None
                && k.message in messages && messages[k.message].conversation == c
                && (messages[k.message].createdAt < messages[message].createdAt
                    || (messages[k.message].createdAt == messages[message].createdAt
                        && messages[k.message].id <= messages[message].id))
      ensures result.Events? ==> forall k :: k in receipts ==>
                receipts[k] == if k !in result.events then old(receipts)[k]
                  else Receipt(if old(receipts)[k].deliveredAt == None then Some(now) else old(receipts)[k].deliveredAt, Some(now))
    {
      if c !in members {
        return Failed(ConversationNotFound);
      }
      if user !in members[c] {
        return Failed(AccessDenied);
      }
      if message !in messages || messages[message].conversation != c {
        return Failed(MessageNotFound);
      }
      var marked := ReadEach(State().ToRead(c, user, KeyOf(messages[message])), now);
      assert forall k :: k in marked <==> k in Elements(marked);
      return Events(marked);
    }
  }

  lemma BlankReceipts(added: map<ReceiptKey, Receipt>, message: MessageId, users: set<UserId>)
    requires forall k :: k in added <==> k.message == message && k.user in users
    requires forall k :: k in added ==> added[k] == Receipt(None, None)
    ensures added == map u | u in users :: ReceiptKey(message, u) := Receipt(None, None)
  {
    var blank := map u | u in users :: ReceiptKey(message, u) := Receipt(None, None);
    forall k
      ensures k in blank <==> k in added
    {
      if k in added {
        assert k == ReceiptKey(message, k.user);
      }
    }
  }

  lemma SetListed(ks: seq<ReceiptKey>, sel: set<ReceiptKey>)
    requires multiset(ks) == multiset(sel)
    ensures Distinct(ks) && Elements(ks) == sel
  {
    forall i, j | 0 <= i < j < |ks|
      ensures ks[i] != ks[j]
    {
      assert ks == ks[..j] + [ks[j]] + ks[j + 1..];
      assert multiset(ks) == multiset(ks[..j]) + multiset{ks[j]} + multiset(ks[j + 1..]);
      assert multiset(sel)[ks[j]] <= 1;
      assert ks[i] in ks[..j];
    }
    forall k
      ensures k in ks <==> k in sel
    {
      assert k in multiset(ks) <==> k in multiset(sel);
    }
  }
}
