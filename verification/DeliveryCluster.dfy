/**
 * Deliveries over the timed cluster: connects write their lease, disconnects and crashes take their sockets
 * away, and a presence read answers from the leases, one recipient after the other, all at the time the
 * read began. Every other step of the cluster may come between.
 */
module DeliveryCluster {
  import opened Basics
  import opened Connections
  import opened PresenceDb
  import opened SortedSets
  import Cluster = PresenceCluster
  import Receipts
  import Chat = Delivery

  // `asked` is when the presence read of a send began.
  datatype State = State(cluster: Cluster.Cluster, chat: Chat.State, asked: map<MessageId, Time>)

  datatype Step =
    | Open(u: UserId, x: Socket)
    | Close(u: UserId, x: Socket)
    | Crash(i: InstanceId)
    | Upkeep(up: Cluster.Step)
    | Handle(tx: Chat.Step)
    | BeginAsk(message: MessageId)
    | Ask(message: MessageId, u: UserId)

  // The cluster's steps that touch no socket, and the transactions of the handlers.
  predicate IsUpkeep(step: Cluster.Step) {
    !step.Connect? && !step.Disconnect? && !step.Crash?
  }

  predicate IsTransaction(step: Chat.Step) {
    step.Commit? || step.MarkOnline? || step.MarkPending? || step.ReadMessages?
  }

  ghost predicate Enabled(t: Cluster.Timing, s: State, step: Step) {
    match step
    case Open(u, x) =>
      Cluster.Enabled(t, s.cluster, Cluster.Connect(x.host, u, x)) && Chat.Enabled(s.chat, Chat.Connect(x, u))
    case Close(u, x) =>
      && Cluster.Enabled(t, s.cluster, Cluster.Disconnect(x.host, u, x))
      && Chat.Enabled(s.chat, Chat.Disconnect(x)) && s.chat.connections[x].user == u
    case Crash(i) => Cluster.Enabled(t, s.cluster, Cluster.Crash(i))
    case Upkeep(up) => IsUpkeep(up) && Cluster.Enabled(t, s.cluster, up)
    case Handle(tx) => IsTransaction(tx) && Chat.Enabled(s.chat, tx)
    case BeginAsk(message) => message in s.chat.sends && message !in s.asked
    case Ask(message, u) => message in s.asked && Chat.Enabled(s.chat, Chat.Answer(message, u, true))
  }

  ghost function AnswerOf(s: State, message: MessageId, u: UserId): Chat.Step
    requires message in s.asked
  {
    Chat.Answer(message, u, s.cluster.db.Online(u, s.asked[message]))
  }

  ghost function Apply(t: Cluster.Timing, s: State, step: Step): State
    requires Enabled(t, s, step)
  {
    match step
    case Open(u, x) =>
      s.(cluster := Cluster.Apply(t, s.cluster, Cluster.Connect(x.host, u, x)), chat := Chat.Apply(s.chat, Chat.Connect(x, u)))
    case Close(u, x) =>
      s.(cluster := Cluster.Apply(t, s.cluster, Cluster.Disconnect(x.host, u, x)), chat := Chat.Apply(s.chat, Chat.Disconnect(x)))
    case Crash(i) =>
      s.(cluster := Cluster.Apply(t, s.cluster, Cluster.Crash(i)), chat := Chat.Apply(s.chat, Chat.Vanish(i)))
    case Upkeep(up) => s.(cluster := Cluster.Apply(t, s.cluster, up))
    case Handle(tx) => s.(chat := Chat.Apply(s.chat, tx))
    case BeginAsk(message) => s.(asked := s.asked[message := s.cluster.now])
    case Ask(message, u) =>
      s.(cluster := s.cluster.(db := s.cluster.db.Evict(u, s.asked[message])),
         chat := Chat.Apply(s.chat, AnswerOf(s, message, u)))
  }

  ghost predicate Legal(t: Cluster.Timing, s: State, steps: seq<Step>)
    decreases |steps|
  {
    steps != [] ==> Enabled(t, s, steps[0]) && Legal(t, Apply(t, s, steps[0]), steps[1..])
  }

  ghost function Run(t: Cluster.Timing, s: State, steps: seq<Step>): State
    requires Legal(t, s, steps)
    decreases |steps|
  {
    if steps == [] then s else Run(t, Apply(t, s, steps[0]), steps[1..])
  }

  function Start(c: Cluster.Cluster, members: map<ConversationId, set<UserId>>): State {
    State(c, Chat.Start(members), map[])
  }

  // ---------- What every run keeps ----------

  // Open connections are local sockets of live instances.
  ghost predicate Attached(s: State) {
    forall x :: x in s.chat.connections ==>
      x.host in s.cluster.hosts && x in SocketsOf(s.cluster.hosts[x.host].sockets, s.chat.connections[x].user)
  }

  ghost predicate Good(t: Cluster.Timing, s: State) {
    && Cluster.OnTime(t, s.cluster) && Attached(s)
    && Chat.Matched(s.chat) && Chat.NothingMissed(s.chat)
    && forall m :: m in s.asked ==> s.asked[m] <= s.cluster.now
  }

  lemma SocketsStay(t: Cluster.Timing, c: Cluster.Cluster, up: Cluster.Step, i: InstanceId)
    requires IsUpkeep(up) && Cluster.Enabled(t, c, up) && i in c.hosts
    ensures i in Cluster.Apply(t, c, up).hosts && Cluster.Apply(t, c, up).hosts[i].sockets == c.hosts[i].sockets
    ensures c.now <= Cluster.Apply(t, c, up).now
  {
  }

  lemma OpenAttached(t: Cluster.Timing, s: State, u: UserId, x: Socket)
    requires Attached(s) && Enabled(t, s, Open(u, x))
    ensures Attached(Apply(t, s, Open(u, x)))
  {
  }

  lemma CloseAttached(t: Cluster.Timing, s: State, u: UserId, x: Socket)
    requires Attached(s) && Enabled(t, s, Close(u, x))
    ensures Attached(Apply(t, s, Close(u, x)))
  {
  }

  lemma StepAttached(t: Cluster.Timing, s: State, step: Step)
    requires Attached(s) && Enabled(t, s, step)
    ensures Attached(Apply(t, s, step))
  {
    match step {
      case Open(u, x) => OpenAttached(t, s, u, x);
      case Close(u, x) => CloseAttached(t, s, u, x);
      case Upkeep(up) =>
        forall i | i in s.cluster.hosts { SocketsStay(t, s.cluster, up, i); }
      case _ =>
    }
  }

  // The heart of it: with sufficient timing a read finds everyone who has an open connection.
  lemma AskFindsConnected(t: Cluster.Timing, s: State, message: MessageId, u: UserId)
    requires t.Valid() && t.Sufficient() && Good(t, s) && message in s.asked
    ensures Chat.FindsConnected(s.chat, AnswerOf(s, message, u))
  {
    forall x | x in s.chat.connections && s.chat.connections[x].user == u
      ensures s.cluster.db.Online(u, s.asked[message])
    {
      Cluster.OnTimeIsFresh(t, s.cluster.db, s.cluster.now, x.host, s.cluster.hosts[x.host]);
      assert x.host in s.cluster.db.Leases(u);
      assert x.host in Live(s.cluster.db.Leases(u), s.asked[message]);
    }
  }

  lemma AskOnTime(t: Cluster.Timing, c: Cluster.Cluster, u: UserId, at: Time)
    requires t.Valid() && t.Sufficient() && Cluster.OnTime(t, c) && at <= c.now
    ensures Cluster.OnTime(t, c.(db := c.db.Evict(u, at)))
  {
    Cluster.EvictKeepsFresh(c.db, u, at, c.now);
    Cluster.ReadStaysOnTime(t, c, c.db.Evict(u, at));
  }

  lemma StepOnTime(t: Cluster.Timing, s: State, step: Step)
    requires t.Valid() && t.Sufficient() && Good(t, s) && Enabled(t, s, step)
    ensures Cluster.OnTime(t, Apply(t, s, step).cluster) && s.cluster.now <= Apply(t, s, step).cluster.now
  {
    match step {
      case Open(u, x) => Cluster.StepStaysOnTime(t, s.cluster, Cluster.Connect(x.host, u, x));
      case Close(u, x) => Cluster.StepStaysOnTime(t, s.cluster, Cluster.Disconnect(x.host, u, x));
      case Crash(i) => Cluster.StepStaysOnTime(t, s.cluster, Cluster.Crash(i));
      case Upkeep(up) => Cluster.StepStaysOnTime(t, s.cluster, up);
      case Ask(message, u) => AskOnTime(t, s.cluster, u, s.asked[message]);
      case _ =>
    }
  }

  lemma StepMissesNothing(t: Cluster.Timing, s: State, step: Step)
    requires t.Valid() && t.Sufficient() && Good(t, s) && Enabled(t, s, step)
    ensures Chat.Matched(Apply(t, s, step).chat) && Chat.NothingMissed(Apply(t, s, step).chat)
  {
    match step {
      case Open(u, x) => Chat.StepMissesNothing(s.chat, Chat.Connect(x, u));
      case Close(u, x) => Chat.StepMissesNothing(s.chat, Chat.Disconnect(x));
      case Crash(i) => Chat.StepMissesNothing(s.chat, Chat.Vanish(i));
      case Handle(tx) => Chat.StepMissesNothing(s.chat, tx);
      case Ask(message, u) =>
        AskFindsConnected(t, s, message, u);
        Chat.StepMissesNothing(s.chat, AnswerOf(s, message, u));
      case _ =>
    }
  }

  lemma {:induction false} RunGood(t: Cluster.Timing, s: State, steps: seq<Step>)
    requires t.Valid() && t.Sufficient() && Good(t, s) && Legal(t, s, steps)
    ensures Good(t, Run(t, s, steps))
    decreases |steps|
  {
    if steps != [] {
      StepOnTime(t, s, steps[0]);
      StepAttached(t, s, steps[0]);
      StepMissesNothing(t, s, steps[0]);
      RunGood(t, Apply(t, s, steps[0]), steps[1..]);
    }
  }

  /**
   * No missed delivery: with sufficient timing, in every interleaving of sends, connects, disconnects, reads,
   * heartbeats, sweeps, crashes and new instances, once a send has finished and a recipient's connection that is
   * still open has finished its start-up, the recipient's receipt is delivered, whichever of the two saw the other.
   */
  lemma {:induction false} NoMissedDelivery(t: Cluster.Timing, c: Cluster.Cluster, members: map<ConversationId, set<UserId>>,
                                            steps: seq<Step>, message: MessageId, x: Socket)
    requires t.Valid() && t.Sufficient() && Cluster.Initial(c) && Legal(t, Start(c, members), steps)
    ensures var s := Run(t, Start(c, members), steps).chat;
            message in s.db.messages && message in s.sends && s.sends[message].Finished?
            && x in s.connections && s.connections[x].ready
            && s.connections[x].user in s.db.Recipients(s.db.messages[message]) ==>
              Receipts.ReceiptKey(message, s.connections[x].user) in s.db.DeliveredKeys()
  {
    StartGood(t, c, members);
    RunGood(t, Start(c, members), steps);
    Chat.ReadyMissesNothing(Run(t, Start(c, members), steps).chat, message, x);
  }

  lemma StartGood(t: Cluster.Timing, c: Cluster.Cluster, members: map<ConversationId, set<UserId>>)
    requires t.Valid() && Cluster.Initial(c)
    ensures Good(t, Start(c, members))
  {
    Chat.StartGood(members);
  }
}
