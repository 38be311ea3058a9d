/**
 * Deliveries at the grain of single Redis commands, where a presence sweep may be anywhere between its
 * commands: exactly when a send misses a recipient, and a run in which it misses one with an open connection.
 */
module DeliverySweep {
  import opened Basics
  import opened Connections
  import opened SortedSets
  import opened PresenceDb
  import Receipts
  import Chat = Delivery
  import Sweep = PresenceSweep

  datatype State = State(presence: Sweep.State, chat: Chat.State)

  datatype Step =
    | Command(command: Sweep.Step)
    | Handle(tx: Chat.Step)
    | Ask(message: MessageId, u: UserId, at: Time)

  ghost predicate Enabled(s: State, step: Step) {
    match step
    case Command(command) => Sweep.Enabled(s.presence, command)
    case Handle(tx) => !tx.Answer? && Chat.Enabled(s.chat, tx)
    case Ask(message, u, at) =>
      Sweep.Enabled(s.presence, Sweep.Query(u, at)) && Chat.Enabled(s.chat, Chat.Answer(message, u, true))
  }

  // What the step does to the chat; a presence read answers from the leases it finds.
  function ChatOf(s: State, step: Step): Option<Chat.Step> {
    match step
    case Command(_) => None
    case Handle(tx) => Some(tx)
    case Ask(message, u, at) => Some(Chat.Answer(message, u, s.presence.db.Online(u, at)))
  }

  ghost function Apply(ttl: Time, s: State, step: Step): State
    requires Enabled(s, step)
  {
    match step
    case Command(command) => s.(presence := Sweep.Apply(ttl, s.presence, command))
    case Handle(tx) => s.(chat := Chat.Apply(s.chat, tx))
    case Ask(message, u, at) =>
      State(Sweep.Apply(ttl, s.presence, Sweep.Query(u, at)),
            Chat.Apply(s.chat, Chat.Answer(message, u, s.presence.db.Online(u, at))))
  }

  ghost predicate Legal(ttl: Time, s: State, steps: seq<Step>)
    decreases |steps|, 0
  {
    steps != [] ==>
      Legal(ttl, s, steps[..|steps| - 1]) && Enabled(After(ttl, s, steps[..|steps| - 1]), steps[|steps| - 1])
  }

  ghost function After(ttl: Time, s: State, steps: seq<Step>): State
    requires Legal(ttl, s, steps)
    decreases |steps|, 1
  {
    if steps == [] then s else Apply(ttl, After(ttl, s, steps[..|steps| - 1]), steps[|steps| - 1])
  }

  function Start(members: map<ConversationId, set<UserId>>): State {
    State(Sweep.START, Chat.Start(members))
  }

  // ---------- When a send misses a recipient ----------

  // The chat's part of a run.
  ghost function Chats(ttl: Time, s: State, steps: seq<Step>): seq<Chat.Step>
    requires Legal(ttl, s, steps)
    decreases |steps|
  {
    if steps == [] then []
    else
      var front := steps[..|steps| - 1];
      match ChatOf(After(ttl, s, front), steps[|steps| - 1])
      case None => Chats(ttl, s, front)
      case Some(tx) => Chats(ttl, s, front) + [tx]
  }

  // The send read the user's presence when the user had no unexpired lease.
  ghost predicate AskedInVain(ttl: Time, s: State, steps: seq<Step>, message: MessageId, u: UserId)
    requires Legal(ttl, s, steps)
    decreases |steps|
  {
    steps != [] &&
    var front, step := steps[..|steps| - 1], steps[|steps| - 1];
    || (step.Ask? && step.message == message && step.u == u && !After(ttl, s, front).presence.db.Online(u, step.at))
    || AskedInVain(ttl, s, front, message, u)
  }

  lemma {:induction false} ChatsRun(ttl: Time, s: State, steps: seq<Step>)
    requires Legal(ttl, s, steps)
    ensures Chat.Legal(s.chat, Chats(ttl, s, steps))
    ensures Chat.After(s.chat, Chats(ttl, s, steps)) == After(ttl, s, steps).chat
    decreases |steps|
  {
    if steps != [] {
      var front := steps[..|steps| - 1];
      ChatsRun(ttl, s, front);
      var tx := ChatOf(After(ttl, s, front), steps[|steps| - 1]);
      if tx.Some? {
        Chat.OneMore(s.chat, Chats(ttl, s, front), tx.value);
      }
    }
  }

  lemma {:induction false} NoIsInVain(ttl: Time, s: State, steps: seq<Step>, message: MessageId, u: UserId)
    requires Legal(ttl, s, steps)
    ensures Chat.Answer(message, u, false) in Chats(ttl, s, steps) <==> AskedInVain(ttl, s, steps, message, u)
    decreases |steps|
  {
    if steps != [] {
      NoIsInVain(ttl, s, steps[..|steps| - 1], message, u);
    }
  }

  /**
   * When a finished send leaves a recipient's receipt undelivered, over every run of single commands: exactly
   * when its presence read found no unexpired lease of the recipient, and since the commit no connection of the
   * recipient has started up and the recipient has not read that far. So an open connection whose start-up came
   * before the commit is missed exactly when the read finds no unexpired lease.
   */
  lemma {:induction false} SendMissesExactly(ttl: Time, members: map<ConversationId, set<UserId>>, steps: seq<Step>,
                                             row: Receipts.MessageRow, u: UserId)
    requires Legal(ttl, Start(members), steps)
    requires var s := After(ttl, Start(members), steps).chat;
             Chat.IsPair(s, row, u) && row.id in s.sends && s.sends[row.id].Finished?
    ensures Receipts.ReceiptKey(row.id, u) !in After(ttl, Start(members), steps).chat.db.DeliveredKeys()
       <==> && AskedInVain(ttl, Start(members), steps, row.id, u)
            && !Chat.CaughtUp(Chats(ttl, Start(members), steps), row, u)
  {
    ChatsRun(ttl, Start(members), steps);
    NoIsInVain(ttl, Start(members), steps, row.id, u);
    Chat.MissedExactly(members, Chats(ttl, Start(members), steps), row, u);
  }

  // ---------- A run that misses an open connection ----------

  lemma Do(ttl: Time, s: State, steps: seq<Step>, step: Step) returns (more: seq<Step>)
    requires Legal(ttl, s, steps) && Enabled(After(ttl, s, steps), step)
    ensures more == steps + [step] && Legal(ttl, s, more)
    ensures After(ttl, s, more) == Apply(ttl, After(ttl, s, steps), step)
  {
    more := steps + [step];
    assert more[..|steps|] == steps;
  }

  function Commands(commands: seq<Sweep.Step>): (steps: seq<Step>)
    ensures |steps| == |commands|
  {
    if commands == [] then [] else Commands(commands[..|commands| - 1]) + [Command(commands[|commands| - 1])]
  }

  lemma {:induction false} CommandsRun(ttl: Time, members: map<ConversationId, set<UserId>>, commands: seq<Sweep.Step>)
    requires Sweep.Legal(ttl, commands)
    ensures Legal(ttl, Start(members), Commands(commands))
    ensures After(ttl, Start(members), Commands(commands)) == State(Sweep.After(ttl, commands), Chat.Start(members))
    decreases |commands|
  {
    if commands != [] {
      var front := commands[..|commands| - 1];
      CommandsRun(ttl, members, front);
      var all := Do(ttl, Start(members), Commands(front), Command(commands[|commands| - 1]));
    }
  }

  const MEMBERS: map<ConversationId, set<UserId>> := map[1 := {7, 8}]
  const X := Socket(2, 0)
  const MESSAGE := Receipts.MessageRow(0, 1, 8, 0)

  // The chat once user 7's connection is open and ready, and once the message is committed.
  function Ready(): Chat.State {
    Chat.Start(MEMBERS).(connections := map[X := Chat.Connection(7, true)])
  }

  function Committed(todo: set<UserId>): Chat.State {
    Ready().(db := Ready().db.Create(MESSAGE), sends := map[0 := Chat.Asking(todo, {})])
  }

  function Opened(): Chat.State {
    Chat.Start(MEMBERS).(connections := map[X := Chat.Connection(7, false)])
  }

  lemma DeliverNone(db: Receipts.Db, sel: set<Receipts.ReceiptKey>, at: Time)
    requires sel == {}
    ensures db.Deliver(sel, at) == db
  {
  }

  lemma Opens()
    ensures var step := Chat.Connect(X, 7);
            Chat.Enabled(Chat.Start(MEMBERS), step) && Chat.Apply(Chat.Start(MEMBERS), step) == Opened()
  {
  }

  lemma Readies()
    ensures var step := Chat.MarkPending(X, 7, 5, []);
            Chat.Enabled(Opened(), step) && Chat.Apply(Opened(), step) == Ready()
  {
    var none := Opened().db.PendingOf(7);
    assert none == {};
    DeliverNone(Opened().db, none, 5);
    assert Elements<Receipts.ReceiptKey>([]) == {};
  }

  lemma Commits()
    ensures Chat.Enabled(Ready(), Chat.Commit(MESSAGE)) && Chat.Apply(Ready(), Chat.Commit(MESSAGE)) == Committed({7})
  {
    assert Ready().db.Recipients(MESSAGE) == {7};
  }

  lemma Asks()
    ensures var step := Chat.Answer(0, 7, false);
            && Chat.Enabled(Committed({7}), step) && Chat.Enabled(Committed({7}), Chat.Answer(0, 7, true))
            && Chat.Apply(Committed({7}), step) == Committed({})
  {
    assert {7} - {7} == {};
  }

  function Done(): Chat.State {
    Committed({}).(sends := map[0 := Chat.Finished])
  }

  lemma Finishes()
    ensures var step := Chat.MarkOnline(0, 5, []);
            Chat.Enabled(Committed({}), step) && Chat.Apply(Committed({}), step) == Done()
  {
    var none := Committed({}).db.ToDeliver(0, {});
    assert none == {};
    DeliverNone(Committed({}).db, none, 5);
    assert Elements<Receipts.ReceiptKey>([]) == {};
  }

  lemma OpenAndReady(s: State, steps: seq<Step>) returns (more: seq<Step>)
    requires Legal(5, Start(MEMBERS), steps) && After(5, Start(MEMBERS), steps) == s && s.chat == Chat.Start(MEMBERS)
    ensures Legal(5, Start(MEMBERS), more) && After(5, Start(MEMBERS), more) == State(s.presence, Ready())
  {
    Opens();
    more := Do(5, Start(MEMBERS), steps, Handle(Chat.Connect(X, 7)));
    Readies();
    more := Do(5, Start(MEMBERS), more, Handle(Chat.MarkPending(X, 7, 5, [])));
  }

  lemma CommitTo7(s: State, steps: seq<Step>) returns (more: seq<Step>)
    requires Legal(5, Start(MEMBERS), steps) && After(5, Start(MEMBERS), steps) == s && s.chat == Ready()
    ensures Legal(5, Start(MEMBERS), more) && After(5, Start(MEMBERS), more) == State(s.presence, Committed({7}))
  {
    Commits();
    more := Do(5, Start(MEMBERS), steps, Handle(Chat.Commit(MESSAGE)));
  }

  lemma AskAndFinish(s: State, steps: seq<Step>) returns (more: seq<Step>)
    requires Legal(5, Start(MEMBERS), steps) && After(5, Start(MEMBERS), steps) == s && s.chat == Committed({7})
    requires 5 <= s.presence.now && !s.presence.db.Online(7, 5)
    ensures Legal(5, Start(MEMBERS), more)
    ensures After(5, Start(MEMBERS), more).chat == Done()
  {
    Asks();
    more := Do(5, Start(MEMBERS), steps, Ask(0, 7, 5));
    Finishes();
    more := Do(5, Start(MEMBERS), more, Handle(Chat.MarkOnline(0, 5, [])));
  }

  lemma Undelivered()
    ensures Receipts.ReceiptKey(0, 7) in Done().db.receipts
    ensures Receipts.ReceiptKey(0, 7) !in Done().db.DeliveredKeys()
    ensures 0 in Done().db.messages && Done().db.messages[0] == MESSAGE && 7 in Done().db.Recipients(MESSAGE)
  {
    assert Ready().db.Recipients(MESSAGE) == {7};
  }

  /**
   * A run in which user 7 connects at instance 2 while a sweep is about to delete the user's lease key, finishes
   * the start-up, keeps the connection open, and is sent a message that the finished send leaves undelivered.
   */
  lemma {:induction false} DeliveryLostToPurge() returns (steps: seq<Step>)
    ensures Legal(5, Start(MEMBERS), steps)
    ensures var s := After(5, Start(MEMBERS), steps).chat;
            && 0 in s.db.messages && 0 in s.sends && s.sends[0].Finished? && 7 in s.db.Recipients(s.db.messages[0])
            && X in s.connections && s.connections[X] == Chat.Connection(7, true)
            && Receipts.ReceiptKey(0, 7) in s.db.receipts && Receipts.ReceiptKey(0, 7) !in s.db.DeliveredKeys()
  {
    var before, all := Sweep.ConnectLostToPurge();
    var connect, purge := Sweep.ConnectScript(2, 7, 5), Sweep.Purge(0);
    var upTo := before + [connect];
    assert all == upTo + [purge] && all[..|upTo|] == upTo;
    CommandsRun(5, MEMBERS, upTo);
    var s := State(Sweep.After(5, upTo), Chat.Start(MEMBERS));
    steps := OpenAndReady(s, Commands(upTo));
    steps := Do(5, Start(MEMBERS), steps, Command(purge));
    var purged := After(5, Start(MEMBERS), steps);
    assert purged.presence == Sweep.After(5, all);
    steps := CommitTo7(purged, steps);
    steps := AskAndFinish(State(purged.presence, Committed({7})), steps);
    Undelivered();
  }
}
