/**
 * Sends crossing connects: a send commits its message and then reads presence, a connect writes
 * presence and then reads pending receipts, and any number of both are interleaved. What a presence read
 * answers is left open here; DeliveryCluster and DeliverySweep answer from the shared keys.
 */
module Delivery {
  import opened Basics
  import opened Connections
  import opened Receipts

  // A send after its commit: presence is read one recipient after the other, then the online ones are marked.
  datatype SendPhase = Asking(todo: set<UserId>, online: set<UserId>) | Finished

  // An open WebSocket, and whether its start-up has marked the pending receipts.
  datatype Connection = Connection(user: UserId, ready: bool)

  datatype State = State(db: Db, sends: map<MessageId, SendPhase>, connections: map<Socket, Connection>,
                         delivered: seq<ReceiptKey>, readFirst: set<ReceiptKey>)

  datatype Step =
    | Commit(m: MessageRow)
    | Answer(message: MessageId, user: UserId, online: bool)
    | MarkOnline(message: MessageId, at: Time, reports: seq<ReceiptKey>)
    | Connect(x: Socket, user: UserId)
    | MarkPending(x: Socket, user: UserId, at: Time, reports: seq<ReceiptKey>)
    | Disconnect(x: Socket)
    | Vanish(host: InstanceId)
    | ReadMessages(c: ConversationId, user: UserId, target: Key, at: Time)

  ghost predicate Enabled(s: State, step: Step) {
    match step
    case Commit(m) => Receipts.Enabled(s.db, Sent(m))
    case Answer(message, u, _) => message in s.sends && s.sends[message].Asking? && u in s.sends[message].todo
    case MarkOnline(message, _, reports) =>
      && message in s.sends && s.sends[message].Asking? && s.sends[message].todo == {}
      && Distinct(reports) && Elements(reports) == s.db.ToDeliver(message, s.sends[message].online)
    case Connect(x, _) => x !in s.connections
    case MarkPending(x, u, _, reports) =>
      && x in s.connections && !s.connections[x].ready && s.connections[x].user == u
      && Distinct(reports) && Elements(reports) == s.db.PendingOf(u)
    case Disconnect(x) => x in s.connections
    case Vanish(_) => true
    case ReadMessages(_, _, _, _) => true
  }

  ghost function Apply(s: State, step: Step): State
    requires Enabled(s, step)
  {
    match step
    case Commit(m) => s.(db := s.db.Create(m), sends := s.sends[m.id := Asking(s.db.Recipients(m), {})])
    case Answer(message, u, online) =>
      var p := s.sends[message];
      s.(sends := s.sends[message := Asking(p.todo - {u}, if online then p.online + {u} else p.online)])
    case MarkOnline(message, at, reports) =>
      s.(db := s.db.Deliver(s.db.ToDeliver(message, s.sends[message].online), at),
         sends := s.sends[message := Finished], delivered := s.delivered + reports)
    case Connect(x, u) => s.(connections := s.connections[x := Connection(u, false)])
    case MarkPending(x, u, at, reports) =>
      s.(db := s.db.Deliver(s.db.PendingOf(u), at),
         connections := s.connections[x := Connection(u, true)], delivered := s.delivered + reports)
    case Disconnect(x) => s.(connections := s.connections - {x})
    case Vanish(host) => s.(connections := map x | x in s.connections && x.host != host :: s.connections[x])
    case ReadMessages(c, u, target, at) =>
      var sel := s.db.ToRead(c, u, target);
      s.(db := s.db.Read(sel, at), readFirst := s.readFirst + (set k | k in sel && k !in s.db.DeliveredKeys()))
  }

  ghost predicate Legal(s: State, steps: seq<Step>)
    decreases |steps|, 0
  {
    steps != [] ==> Legal(s, steps[..|steps| - 1]) && Enabled(After(s, steps[..|steps| - 1]), steps[|steps| - 1])
  }

  ghost function After(s: State, steps: seq<Step>): State
    requires Legal(s, steps)
    decreases |steps|, 1
  {
    if steps == [] then s else Apply(After(s, steps[..|steps| - 1]), steps[|steps| - 1])
  }

  function Start(members: map<ConversationId, set<UserId>>): State {
    State(Db(members, map[], map[]), map[], map[], [], {})
  }

  lemma OneMore(s: State, steps: seq<Step>, step: Step)
    requires Legal(s, steps) && Enabled(After(s, steps), step)
    ensures Legal(s, steps + [step]) && After(s, steps + [step]) == Apply(After(s, steps), step)
  {
    assert (steps + [step])[..|steps|] == steps;
  }

  // ---------- What the transactions do to the delivered receipts ----------

  lemma DeliverEffect(db: Db, sel: set<ReceiptKey>, at: Time)
    ensures db.Deliver(sel, at).receipts.Keys == db.receipts.Keys
    ensures db.Deliver(sel, at).DeliveredKeys() == db.DeliveredKeys() + (sel * db.receipts.Keys)
  {
    forall k
      ensures k in db.Deliver(sel, at).DeliveredKeys() <==> k in db.DeliveredKeys() || (k in sel && k in db.receipts)
    {
      assert k in db.Deliver(sel, at).receipts <==> k in db.receipts;
    }
  }

  lemma ReadEffect(db: Db, sel: set<ReceiptKey>, at: Time)
    ensures db.Read(sel, at).receipts.Keys == db.receipts.Keys
    ensures db.Read(sel, at).DeliveredKeys() == db.DeliveredKeys() + (sel * db.receipts.Keys)
  {
    forall k
      ensures k in db.Read(sel, at).DeliveredKeys() <==> k in db.DeliveredKeys() || (k in sel && k in db.receipts)
    {
      assert k in db.Read(sel, at).receipts <==> k in db.receipts;
    }
  }

  lemma CreateEffect(db: Db, m: MessageRow)
    requires m.id !in db.messages && forall k :: k in db.receipts ==> k.message in db.messages
    ensures forall k :: k in db.Create(m).receipts <==> k in db.receipts || (k.message == m.id && k.user in db.Recipients(m))
    ensures db.Create(m).DeliveredKeys() == db.DeliveredKeys()
  {
    var after := db.Create(m);
    forall k
      ensures k in after.receipts <==> k in db.receipts || (k.message == m.id && k.user in db.Recipients(m))
      ensures k in after.DeliveredKeys() <==> k in db.DeliveredKeys()
    {
      if k.message == m.id && k.user in db.Recipients(m) {
        assert k == ReceiptKey(m.id, k.user);
      }
    }
  }

  // Receipts and sends belong to the messages; delivered receipts exist.
  ghost predicate Matched(s: State) {
    && (forall k :: k in s.db.receipts <==> k.message in s.db.messages && k.user in s.db.Recipients(s.db.messages[k.message]))
    && s.sends.Keys == s.db.messages.Keys
    && (forall i :: i in s.db.messages ==> s.db.messages[i].id == i)
    && (forall k :: k in s.db.receipts && s.db.receipts[k].readAt.Some? ==> s.db.receipts[k].deliveredAt.Some?)
    && forall i :: i in s.sends && s.sends[i].Asking? ==>
         s.sends[i].todo <= s.db.Recipients(s.db.messages[i]) && s.sends[i].online <= s.db.Recipients(s.db.messages[i])
  }

  lemma CommitMatched(s: State, m: MessageRow)
    requires Matched(s) && Enabled(s, Commit(m))
    ensures Matched(Apply(s, Commit(m)))
  {
    CreateEffect(s.db, m);
  }

  lemma StepMatched(s: State, step: Step)
    requires Matched(s) && Enabled(s, step)
    ensures Matched(Apply(s, step))
  {
    match step {
      case Commit(m) => CommitMatched(s, m);
      case MarkOnline(message, at, _) => DeliverEffect(s.db, s.db.ToDeliver(message, s.sends[message].online), at);
      case MarkPending(x, u, at, _) => DeliverEffect(s.db, s.db.PendingOf(u), at);
      case ReadMessages(c, u, target, at) => ReadEffect(s.db, s.db.ToRead(c, u, target), at);
      case _ =>
    }
  }

  lemma {:induction false} RunMatched(s: State, steps: seq<Step>)
    requires Matched(s) && Legal(s, steps)
    ensures Matched(After(s, steps))
    decreases |steps|
  {
    if steps != [] {
      RunMatched(s, steps[..|steps| - 1]);
      StepMatched(After(s, steps[..|steps| - 1]), steps[|steps| - 1]);
    }
  }

  // ---------- When a receipt stays undelivered ----------

  // A start-up of the recipient, or a read that reaches the message.
  predicate CatchesUp(step: Step, row: MessageRow, u: UserId) {
    || (step.MarkPending? && step.user == u)
    || (step.ReadMessages? && step.user == u && step.c == row.conversation && AtMost(KeyOf(row), step.target))
  }

  // One of these came after the message was committed.
  predicate CaughtUp(steps: seq<Step>, row: MessageRow, u: UserId)
    decreases |steps|
  {
    steps != [] &&
      var front := steps[..|steps| - 1];
      (CatchesUp(steps[|steps| - 1], row, u) && Commit(row) in front) || CaughtUp(front, row, u)
  }

  // The message is not committed yet.
  ghost predicate Fresh(steps: seq<Step>, i: MessageId) {
    forall step :: step in steps ==> !(step.Commit? && step.m.id == i) && !(step.Answer? && step.message == i)
  }

  // What the history says of one message and one recipient.
  ghost predicate PairExact(s: State, steps: seq<Step>, row: MessageRow, u: UserId) {
    var i, k := row.id, ReceiptKey(row.id, u);
    var yes, no, caught := Answer(i, u, true) in steps, Answer(i, u, false) in steps, CaughtUp(steps, row, u);
    i in s.sends && i in s.db.messages && s.db.messages[i] == row && u in s.db.Recipients(row) ==>
      && Commit(row) in steps
      && (match s.sends[i]
          case Asking(todo, online) =>
            && (u in todo ==> !yes && !no && u !in online)
            && (u !in todo ==> (yes <==> u in online) && (no <==> u !in online))
            && (k in s.db.DeliveredKeys() <==> caught)
          case Finished => (yes <==> !no) && (k in s.db.DeliveredKeys() <==> caught || yes))
  }

  lemma AppendIn(steps: seq<Step>, step: Step)
    ensures forall x :: x in steps + [step] <==> x in steps || x == step
    ensures forall row, u :: CaughtUp(steps + [step], row, u) <==>
              CaughtUp(steps, row, u) || (CatchesUp(step, row, u) && Commit(row) in steps)
  {
    assert (steps + [step])[..|steps|] == steps;
  }

  lemma {:induction false} FreshIsBehind(steps: seq<Step>, row: MessageRow, u: UserId)
    requires Fresh(steps, row.id)
    ensures Commit(row) !in steps && !CaughtUp(steps, row, u)
    decreases |steps|
  {
    if steps != [] {
      var front := steps[..|steps| - 1];
      assert steps == front + [steps[|steps| - 1]];
      FreshIsBehind(front, row, u);
    }
  }

  lemma {:induction false} RunFresh(s: State, steps: seq<Step>, i: MessageId)
    requires Matched(s) && s.db.messages == map[] && Legal(s, steps) && i !in After(s, steps).db.messages
    ensures Fresh(steps, i)
    decreases |steps|
  {
    if steps != [] {
      var front, step := steps[..|steps| - 1], steps[|steps| - 1];
      assert steps == front + [step];
      RunMatched(s, front);
      NotCommittedBy(After(s, front), step, i);
      RunFresh(s, front, i);
    }
  }

  lemma NotCommittedBy(s: State, step: Step, i: MessageId)
    requires Matched(s) && Enabled(s, step) && i !in Apply(s, step).db.messages
    ensures i !in s.db.messages && !(step.Commit? && step.m.id == i) && !(step.Answer? && step.message == i)
  {
  }

  // A step that leaves this receipt and this send alone, and is no answer or catching-up for the pair.
  lemma PairUntouched(s: State, d: State, steps: seq<Step>, step: Step, row: MessageRow, u: UserId)
    requires PairExact(s, steps, row, u)
    requires d.db.members == s.db.members && row.id in s.sends && row.id in d.sends && d.sends[row.id] == s.sends[row.id]
    requires row.id in s.db.messages && row.id in d.db.messages && d.db.messages[row.id] == s.db.messages[row.id]
    requires ReceiptKey(row.id, u) in d.db.DeliveredKeys() <==> ReceiptKey(row.id, u) in s.db.DeliveredKeys()
    requires !(step.Answer? && step.message == row.id && step.user == u) && !CatchesUp(step, row, u)
    ensures PairExact(d, steps + [step], row, u)
  {
    AppendIn(steps, step);
  }

  // A step that delivers this receipt by catching up.
  lemma PairCaughtUp(s: State, d: State, steps: seq<Step>, step: Step, row: MessageRow, u: UserId)
    requires PairExact(s, steps, row, u)
    requires d.db.members == s.db.members && row.id in s.sends && row.id in d.sends && d.sends[row.id] == s.sends[row.id]
    requires row.id in s.db.messages && row.id in d.db.messages && d.db.messages[row.id] == s.db.messages[row.id]
    requires ReceiptKey(row.id, u) in d.db.DeliveredKeys() && CatchesUp(step, row, u)
    ensures PairExact(d, steps + [step], row, u)
  {
    AppendIn(steps, step);
  }

  ghost predicate IsPair(s: State, row: MessageRow, u: UserId) {
    row.id in s.db.messages && s.db.messages[row.id] == row && u in s.db.Recipients(row)
  }

  lemma PairPending(s: State, steps: seq<Step>, step: Step, row: MessageRow, u: UserId)
    requires Matched(s) && IsPair(s, row, u) && PairExact(s, steps, row, u) && step.MarkPending? && Enabled(s, step)
    ensures PairExact(Apply(s, step), steps + [step], row, u)
  {
    var d, k := Apply(s, step), ReceiptKey(row.id, u);
    DeliverEffect(s.db, s.db.PendingOf(step.user), step.at);
    if step.user == u {
      assert k in s.db.DeliveredKeys() || k in s.db.PendingOf(u);
      PairCaughtUp(s, d, steps, step, row, u);
    } else {
      PairUntouched(s, d, steps, step, row, u);
    }
  }

  lemma PairRead(s: State, steps: seq<Step>, step: Step, row: MessageRow, u: UserId)
    requires Matched(s) && IsPair(s, row, u) && PairExact(s, steps, row, u) && step.ReadMessages? && Enabled(s, step)
    ensures PairExact(Apply(s, step), steps + [step], row, u)
  {
    var d, k := Apply(s, step), ReceiptKey(row.id, u);
    var sel := s.db.ToRead(step.c, step.user, step.target);
    ReadEffect(s.db, sel, step.at);
    if CatchesUp(step, row, u) {
      assert k in s.db.DeliveredKeys() || k in sel;
      PairCaughtUp(s, d, steps, step, row, u);
    } else {
      assert k !in sel;
      PairUntouched(s, d, steps, step, row, u);
    }
  }

  lemma PairMarked(s: State, steps: seq<Step>, step: Step, row: MessageRow, u: UserId)
    requires Matched(s) && IsPair(s, row, u) && PairExact(s, steps, row, u) && step.MarkOnline? && Enabled(s, step)
    ensures PairExact(Apply(s, step), steps + [step], row, u)
  {
    var d, k := Apply(s, step), ReceiptKey(row.id, u);
    DeliverEffect(s.db, s.db.ToDeliver(step.message, s.sends[step.message].online), step.at);
    if step.message == row.id {
      AppendIn(steps, step);
      assert u in s.sends[row.id].online ==> k in s.db.DeliveredKeys() || k in s.db.ToDeliver(row.id, s.sends[row.id].online);
    } else {
      PairUntouched(s, d, steps, step, row, u);
    }
  }

  lemma PairAnswered(s: State, steps: seq<Step>, step: Step, row: MessageRow, u: UserId)
    requires Matched(s) && IsPair(s, row, u) && PairExact(s, steps, row, u) && step.Answer? && Enabled(s, step)
    ensures PairExact(Apply(s, step), steps + [step], row, u)
  {
    AppendIn(steps, step);
  }

  lemma PairCommitted(s: State, steps: seq<Step>, step: Step, row: MessageRow, u: UserId)
    requires Matched(s) && step == Commit(row) && Enabled(s, step) && Fresh(steps, row.id)
    ensures PairExact(Apply(s, step), steps + [step], row, u)
  {
    AppendIn(steps, step);
    FreshIsBehind(steps, row, u);
    CreateEffect(s.db, row);
    assert ReceiptKey(row.id, u) !in s.db.receipts;
  }

  lemma PairStep(s: State, steps: seq<Step>, step: Step, row: MessageRow, u: UserId)
    requires Matched(s) && IsPair(s, row, u) && PairExact(s, steps, row, u) && Enabled(s, step)
    ensures PairExact(Apply(s, step), steps + [step], row, u)
  {
    match step {
      case Commit(m) =>
        CreateEffect(s.db, m);
        PairUntouched(s, Apply(s, step), steps, step, row, u);
      case Answer(_, _, _) => PairAnswered(s, steps, step, row, u);
      case MarkOnline(_, _, _) => PairMarked(s, steps, step, row, u);
      case MarkPending(_, _, _, _) => PairPending(s, steps, step, row, u);
      case ReadMessages(_, _, _, _) => PairRead(s, steps, step, row, u);
      case _ => PairUntouched(s, Apply(s, step), steps, step, row, u);
    }
  }

  lemma {:induction false} PairHistory(s: State, steps: seq<Step>, row: MessageRow, u: UserId)
    requires Matched(s) && s.db.messages == map[] && Legal(s, steps) && IsPair(After(s, steps), row, u)
    ensures PairExact(After(s, steps), steps, row, u)
    decreases |steps|
  {
    var front, step := steps[..|steps| - 1], steps[|steps| - 1];
    assert steps == front + [step];
    var before := After(s, front);
    RunMatched(s, front);
    if IsPair(before, row, u) {
      PairHistory(s, front, row, u);
      PairStep(before, front, step, row, u);
    } else {
      RunFresh(s, front, row.id);
      PairCommitted(before, front, step, row, u);
    }
  }

  /**
   * When a finished send leaves a recipient's receipt undelivered: exactly when its presence read found the
   * recipient offline, and since the commit no connection of the recipient has started up and the recipient
   * has not read that far. It does not matter whether the recipient has an open connection.
   */
  lemma {:induction false} MissedExactly(members: map<ConversationId, set<UserId>>, steps: seq<Step>, row: MessageRow,
                                         u: UserId)
    requires Legal(Start(members), steps)
    requires var s := After(Start(members), steps); IsPair(s, row, u) && row.id in s.sends && s.sends[row.id].Finished?
    ensures ReceiptKey(row.id, u) !in After(Start(members), steps).db.DeliveredKeys()
       <==> Answer(row.id, u, false) in steps && !CaughtUp(steps, row, u)
  {
    PairHistory(Start(members), steps, row, u);
  }

  // ---------- No missed delivery ----------

  // For a ready connection's user, the message is delivered or its send will still find the user online.
  ghost predicate Awaited(s: State, k: ReceiptKey) {
    || k in s.db.DeliveredKeys()
    || (k.message in s.sends && s.sends[k.message].Asking?
        && (k.user in s.sends[k.message].todo || k.user in s.sends[k.message].online))
  }

  ghost predicate NothingMissed(s: State) {
    forall x, k :: x in s.connections && s.connections[x].ready && k in s.db.receipts && k.user == s.connections[x].user ==>
      Awaited(s, k)
  }

  // A presence read that finds nobody offline who has an open connection.
  predicate FindsConnected(s: State, step: Step) {
    step.Answer? && !step.online ==> forall x :: x in s.connections ==> s.connections[x].user != step.user
  }

  lemma StepAwaited(s: State, step: Step, x: Socket, k: ReceiptKey)
    requires Matched(s) && NothingMissed(s) && Enabled(s, step) && FindsConnected(s, step)
    requires var d := Apply(s, step);
             x in d.connections && d.connections[x].ready && k in d.db.receipts && k.user == d.connections[x].user
    ensures Awaited(Apply(s, step), k)
  {
    match step {
      case Commit(m) => CreateEffect(s.db, m);
      case MarkOnline(message, at, _) => DeliverEffect(s.db, s.db.ToDeliver(message, s.sends[message].online), at);
      case MarkPending(y, u, at, _) => DeliverEffect(s.db, s.db.PendingOf(u), at);
      case ReadMessages(c, u, target, at) => ReadEffect(s.db, s.db.ToRead(c, u, target), at);
      case _ =>
    }
  }

  // As long as presence reads find the connected, every step keeps ready connections from missing anything.
  lemma StepMissesNothing(s: State, step: Step)
    requires Matched(s) && NothingMissed(s) && Enabled(s, step) && FindsConnected(s, step)
    ensures Matched(Apply(s, step)) && NothingMissed(Apply(s, step))
  {
    StepMatched(s, step);
    var d := Apply(s, step);
    forall x, k | x in d.connections && d.connections[x].ready && k in d.db.receipts && k.user == d.connections[x].user {
      StepAwaited(s, step, x, k);
    }
  }

  lemma ReadyMissesNothing(s: State, message: MessageId, x: Socket)
    requires Matched(s) && NothingMissed(s)
    ensures message in s.db.messages && message in s.sends && s.sends[message].Finished?
            && x in s.connections && s.connections[x].ready
            && s.connections[x].user in s.db.Recipients(s.db.messages[message]) ==>
              ReceiptKey(message, s.connections[x].user) in s.db.DeliveredKeys()
  {
    if message in s.db.messages && x in s.connections {
      var k := ReceiptKey(message, s.connections[x].user);
      assert k in s.db.receipts <==> k.user in s.db.Recipients(s.db.messages[message]);
    }
  }

  // ---------- Exactly one report ----------

  ghost predicate Reported(s: State) {
    && Distinct(s.delivered)
    && (forall k :: k in s.db.DeliveredKeys() <==> k in s.delivered || k in s.readFirst)
    && (forall k :: k in s.delivered ==> k !in s.readFirst)
    && forall k :: k in s.db.receipts ==> k.message in s.db.messages
  }

  lemma StepReported(s: State, step: Step)
    requires Reported(s) && Enabled(s, step)
    ensures Reported(Apply(s, step))
  {
    match step {
      case Commit(m) => CreateEffect(s.db, m);
      case MarkOnline(message, at, reports) =>
        DeliverEffect(s.db, s.db.ToDeliver(message, s.sends[message].online), at);
        assert forall k :: k in reports <==> k in Elements(reports);
        DistinctJoin(s.delivered, reports);
      case MarkPending(x, u, at, reports) =>
        DeliverEffect(s.db, s.db.PendingOf(u), at);
        assert forall k :: k in reports <==> k in Elements(reports);
        DistinctJoin(s.delivered, reports);
      case ReadMessages(c, u, target, at) => ReadEffect(s.db, s.db.ToRead(c, u, target), at);
      case _ =>
    }
  }

  lemma {:induction false} RunReported(s: State, steps: seq<Step>)
    requires Reported(s) && Legal(s, steps)
    ensures Reported(After(s, steps))
    decreases |steps|
  {
    if steps != [] {
      RunReported(s, steps[..|steps| - 1]);
      StepReported(After(s, steps[..|steps| - 1]), steps[|steps| - 1]);
    }
  }

  // Nothing is delivered, reported or missed at the start.
  lemma StartGood(members: map<ConversationId, set<UserId>>)
    ensures Reported(Start(members)) && Matched(Start(members)) && NothingMissed(Start(members))
  {
  }

  /**
   * In every run the delivery of a receipt is reported by exactly one send or connect, unless reading
   * the message came first, and then by neither.
   */
  lemma {:induction false} ExactlyOneReport(members: map<ConversationId, set<UserId>>, steps: seq<Step>, k: ReceiptKey)
    requires Legal(Start(members), steps)
    ensures var s := After(Start(members), steps);
            multiset(s.delivered)[k] == if k in s.db.DeliveredKeys() && k !in s.readFirst then 1 else 0
  {
    StartGood(members);
    RunReported(Start(members), steps);
    DistinctCount(After(Start(members), steps).delivered, k);
  }
}
