/** Direct conversations: one canonical key a pair, and one conversation a key however creations race. */
module DirectConversations {
  import opened Basics

  type CreatorId = nat

  // ---------- The key ----------

  // Python's order on strings.
  predicate Before(a: string, b: string) {
    if a == [] then b != []
    else b != [] && (a[0] < b[0] || (a[0] == b[0] && Before(a[1..], b[1..])))
  }

  // The texts of two identifiers, the smaller first, with a colon between.
  function DirectKey(first: string, second: string): string {
    if Before(second, first) then second + ":" + first else first + ":" + second
  }

  lemma {:induction false} OneWay(a: string, b: string)
    requires a != b
    ensures Before(a, b) <==> !Before(b, a)
    decreases |a|
  {
    if a != [] && b != [] && a[0] == b[0] {
      assert a == [a[0]] + a[1..] && b == [b[0]] + b[1..];
      OneWay(a[1..], b[1..]);
    }
  }

  lemma FirstOf(a: string, b: string)
    ensures (a + ":" + b)[0] == if a == [] then ':' else a[0]
    ensures a != [] ==> a[0] in a && (a + ":" + b)[1..] == a[1..] + ":" + b
    ensures a == [] ==> (a + ":" + b)[1..] == b
  {
  }

  // The two strings differ first at k, or the first ends there.
  ghost predicate FirstDifference(a: string, b: string, k: nat) {
    && k <= |a| && k < |b| && a[..k] == b[..k] && (k < |a| ==> a[k] < b[k])
  }

  /** The order is the lexicographic one: the first difference decides, and a prefix comes first. */
  lemma {:induction false} BeforeAtDifference(a: string, b: string)
    ensures Before(a, b) <==> exists k: nat :: FirstDifference(a, b, k)
  {
    if a != [] && b != [] && a[0] == b[0] {
      BeforeAtDifference(a[1..], b[1..]);
      assert a == [a[0]] + a[1..] && b == [b[0]] + b[1..];
      if k: nat :| FirstDifference(a[1..], b[1..], k) {
        assert a[..k + 1] == [a[0]] + a[1..][..k] && b[..k + 1] == [b[0]] + b[1..][..k];
        assert FirstDifference(a, b, k + 1);
      }
      if k: nat :| FirstDifference(a, b, k) {
        assert k != 0;
        assert a[1..][..k - 1] == a[..k][1..] && b[1..][..k - 1] == b[..k][1..];
        assert FirstDifference(a[1..], b[1..], k - 1);
      }
    } else if Before(a, b) {
      assert FirstDifference(a, b, 0);
    } else if k: nat :| FirstDifference(a, b, k) {
      assert false;
    }
  }

  /** The key is the text of the smaller identifier, a colon, and the text of the larger. */
  lemma {:induction false} SmallerFirst(a: string, b: string, k: nat)
    requires FirstDifference(a, b, k)
    ensures DirectKey(a, b) == a + ":" + b && DirectKey(b, a) == a + ":" + b
  {
    BeforeAtDifference(a, b);
    assert a != b;
    OneWay(a, b);
  }

  // Where the only separator is cut, both halves are determined.
  lemma {:induction false} CutAtColon(a: string, b: string, c: string, d: string)
    requires ':' !in a && ':' !in c && a + ":" + b == c + ":" + d
    ensures a == c && b == d
    decreases |a|
  {
    FirstOf(a, b);
    FirstOf(c, d);
    if a == [] {
    } else {
      assert c != [] && a[0] == c[0];
      CutAtColon(a[1..], b, c[1..], d);
      assert a == [a[0]] + a[1..] && c == [c[0]] + c[1..];
    }
  }

  /** Two pairs have the same key exactly when they are the same unordered pair. */
  lemma {:induction false} KeyIsThePair(a: string, b: string, c: string, d: string)
    requires ':' !in a && ':' !in b && ':' !in c && ':' !in d
    ensures DirectKey(a, b) == DirectKey(c, d) <==> (a == c && b == d) || (a == d && b == c)
  {
    if a != b {
      OneWay(a, b);
    }
    if DirectKey(a, b) == DirectKey(c, d) {
      var p, q := if Before(b, a) then b else a, if Before(b, a) then a else b;
      var r, s := if Before(d, c) then d else c, if Before(d, c) then c else d;
      CutAtColon(p, q, r, s);
    }
  }

  // ---------- One call at a time ----------

  datatype Conversation = Conversation(key: string, members: set<UserId>, createdBy: UserId)

  datatype CreateError = InvalidParticipant | UserNotFound

  datatype CreateResult = Found(id: ConversationId) | Refused(error: CreateError)

  class ConversationStore {
    var users: set<UserId>
    var conversations: map<ConversationId, Conversation>

    constructor (users: set<UserId>)
      ensures this.users == users && conversations == map[]
    {
      this.users, conversations := users, map[];
    }

    // The conversation with the key, if there is one.
    method GetDirectByKey(key: string) returns (found: Option<ConversationId>)
      ensures found.None? ==> forall i :: i in conversations ==> conversations[i].key != key
      ensures found.Some? ==> found.value in conversations && conversations[found.value].key == key
    {
      found := None;
      var todo := conversations.Keys;
      while todo != {}
        invariant todo <= conversations.Keys
        invariant forall i :: i in conversations && i !in todo ==> conversations[i].key != key
        decreases |todo|
      {
        var i :| i in todo;
        if conversations[i].key == key {
          return Some(i);
        }
        todo := todo - {i};
      }
    }

    /** Creating a direct conversation: the pair's only conversation, made if there was none; `id` is the new row's identifier. */
    method CreateDirect(text: UserId -> string, current: UserId, participant: UserId, id: ConversationId)
        returns (result: CreateResult)
      requires id !in conversations && current in users
      requires Textual(text) && GoodRows(text, conversations)
      modifies this`conversations
      ensures GoodRows(text, conversations)
      ensures result == Refused(InvalidParticipant) <==> current == participant
      ensures result == Refused(UserNotFound) <==> current != participant && participant !in users
      ensures result.Refused? ==> conversations == old(conversations)
      ensures result.Found? ==>
                && result.id in conversations && conversations[result.id].members == {current, participant}
                && conversations == (if result.id in old(conversations) then old(conversations)
                     else old(conversations)[id := Conversation(DirectKey(text(current), text(participant)),
                                                                {current, participant}, current)])
                && (result.id in old(conversations) <==>
                      exists i :: i in old(conversations) && old(conversations)[i].members == {current, participant})
    {
      if current == participant {
        return Refused(InvalidParticipant);
      }
      if participant !in users {
        return Refused(UserNotFound);
      }
      var key := DirectKey(text(current), text(participant));
      KeyNamesMembers(text, conversations, current, participant);
      var existing := GetDirectByKey(key);
      if existing.Some? {
        return Found(existing.value);
      }
      conversations := conversations[id := Conversation(key, {current, participant}, current)];
      return Found(id);
    }
  }

  // Among good rows, having a pair's key is having the pair as members.
  lemma KeyNamesMembers(text: UserId -> string, rows: map<ConversationId, Conversation>, a: UserId, b: UserId)
    requires Textual(text) && GoodRows(text, rows) && a != b
    ensures forall i :: i in rows ==> (rows[i].key == DirectKey(text(a), text(b)) <==> rows[i].members == {a, b})
  {
    forall i | i in rows
      ensures rows[i].key == DirectKey(text(a), text(b)) <==> rows[i].members == {a, b}
    {
      var u, v :| u != v && rows[i].members == {u, v} && rows[i].key == DirectKey(text(u), text(v));
      KeyIsThePair(text(a), text(b), text(u), text(v));
      SamePair(a, b, u, v);
    }
  }

  // One row a key, and each row's key names its two members.
  ghost predicate GoodRows(text: UserId -> string, rows: map<ConversationId, Conversation>) {
    OnePerKey(rows) && Paired(text, rows)
  }

  ghost predicate OnePerKey(rows: map<ConversationId, Conversation>) {
    forall i, j :: i in rows && j in rows && rows[i].key == rows[j].key ==> i == j
  }

  ghost predicate Paired(text: UserId -> string, rows: map<ConversationId, Conversation>) {
    forall i :: i in rows ==> exists u, v ::
      u != v && rows[i].members == {u, v} && rows[i].key == DirectKey(text(u), text(v))
  }

  // The text of an identifier is one-to-one and has no colon.
  ghost predicate Textual(text: UserId -> string) {
    (forall u :: ':' !in text(u)) && forall u, v :: text(u) == text(v) ==> u == v
  }

  // ---------- The race ----------

  // A call to create a conversation: it found nothing under the key yet, or has its answer.
  datatype Call = Missed(current: UserId, participant: UserId) | Answered(current: UserId, participant: UserId, id: ConversationId)

  datatype State = State(conversations: map<ConversationId, Conversation>, calls: map<CreatorId, Call>)

  datatype Step =
    | Lookup(call: CreatorId, current: UserId, participant: UserId)
    | Insert(call: CreatorId, id: ConversationId)

  function IdsOf(s: State, key: string): set<ConversationId> {
    set id | id in s.conversations && s.conversations[id].key == key
  }

  // `text` is the text of an identifier; the caller and the participant are different, existing users.
  ghost predicate Enabled(s: State, step: Step) {
    match step
    case Lookup(call, current, participant) => call !in s.calls && current != participant
    case Insert(call, id) => call in s.calls && s.calls[call].Missed? && id !in s.conversations
  }

  ghost function Apply(text: UserId -> string, s: State, step: Step): State
    requires Enabled(s, step)
  {
    match step
    case Lookup(call, u, v) =>
      var found := IdsOf(s, DirectKey(text(u), text(v)));
      if found == {} then s.(calls := s.calls[call := Missed(u, v)])
      else var id :| id in found; s.(calls := s.calls[call := Answered(u, v, id)])
    case Insert(call, id) =>
      var u, v := s.calls[call].current, s.calls[call].participant;
      var key := DirectKey(text(u), text(v));
      var found := IdsOf(s, key);
      // The unique index on direct_key: a second insert fails, rolls back and reads the winner.
      if found == {} then
        State(s.conversations[id := Conversation(key, {u, v}, u)], s.calls[call := Answered(u, v, id)])
      else var winner :| winner in found; s.(calls := s.calls[call := Answered(u, v, winner)])
  }

  ghost predicate Legal(text: UserId -> string, s: State, steps: seq<Step>)
    decreases |steps|
  {
    steps != [] ==> Enabled(s, steps[0]) && Legal(text, Apply(text, s, steps[0]), steps[1..])
  }

  ghost function Run(text: UserId -> string, s: State, steps: seq<Step>): State
    requires Legal(text, s, steps)
    decreases |steps|
  {
    if steps == [] then s else Run(text, Apply(text, s, steps[0]), steps[1..])
  }


  ghost predicate AnswersRight(text: UserId -> string, s: State) {
    forall c :: c in s.calls && s.calls[c].Answered? ==>
      && s.calls[c].id in s.conversations
      && s.conversations[s.calls[c].id].key == DirectKey(text(s.calls[c].current), text(s.calls[c].participant))
      && s.calls[c].current != s.calls[c].participant
  }

  ghost predicate CallersDiffer(s: State) {
    forall c :: c in s.calls ==> s.calls[c].current != s.calls[c].participant
  }

  ghost predicate Good(text: UserId -> string, s: State) {
    GoodRows(text, s.conversations) && AnswersRight(text, s) && CallersDiffer(s)
  }

  lemma StepPaired(text: UserId -> string, s: State, step: Step)
    requires Good(text, s) && Enabled(s, step)
    ensures Paired(text, Apply(text, s, step).conversations)
  {
    var d := Apply(text, s, step);
    forall i | i in d.conversations
      ensures exists u, v :: u != v && d.conversations[i].members == {u, v} && d.conversations[i].key == DirectKey(text(u), text(v))
    {
      if i !in s.conversations {
        var c := s.calls[step.call];
        assert c.current != c.participant && d.conversations[i].members == {c.current, c.participant};
      }
    }
  }

  lemma StepUnique(text: UserId -> string, s: State, step: Step)
    requires OnePerKey(s.conversations) && Enabled(s, step)
    ensures OnePerKey(Apply(text, s, step).conversations)
  {
    if step.Insert? {
      var key := DirectKey(text(s.calls[step.call].current), text(s.calls[step.call].participant));
      assert forall i :: i in s.conversations && s.conversations[i].key == key ==> i in IdsOf(s, key);
    }
  }

  lemma StepAnswers(text: UserId -> string, s: State, step: Step)
    requires AnswersRight(text, s) && CallersDiffer(s) && Enabled(s, step)
    ensures AnswersRight(text, Apply(text, s, step)) && CallersDiffer(Apply(text, s, step))
  {
  }

  lemma StepGood(text: UserId -> string, s: State, step: Step)
    requires Good(text, s) && Enabled(s, step)
    ensures Good(text, Apply(text, s, step))
  {
    StepPaired(text, s, step);
    StepUnique(text, s, step);
    StepAnswers(text, s, step);
  }

  lemma {:induction false} RunGood(text: UserId -> string, s: State, steps: seq<Step>)
    requires Good(text, s) && Legal(text, s, steps)
    ensures Good(text, Run(text, s, steps))
    decreases |steps|
  {
    if steps != [] {
      StepGood(text, s, steps[0]);
      RunGood(text, Apply(text, s, steps[0]), steps[1..]);
    }
  }

  /**
   * However creations interleave, two calls that have an answer have the same one exactly when they
   * were for the same two users, in either role; and its members are those two.
   */
  lemma {:induction false} SamePairSameConversation(text: UserId -> string, steps: seq<Step>, c: CreatorId, e: CreatorId)
    requires Textual(text) && Legal(text, State(map[], map[]), steps)
    requires var s := Run(text, State(map[], map[]), steps);
             c in s.calls && s.calls[c].Answered? && e in s.calls && s.calls[e].Answered?
    ensures var s := Run(text, State(map[], map[]), steps);
            && (s.calls[c].id == s.calls[e].id <==>
                  {s.calls[c].current, s.calls[c].participant} == {s.calls[e].current, s.calls[e].participant})
            && s.calls[c].id in s.conversations
            && s.conversations[s.calls[c].id].members == {s.calls[c].current, s.calls[c].participant}
  {
    RunGood(text, State(map[], map[]), steps);
    var s := Run(text, State(map[], map[]), steps);
    AnswerMembers(text, s, c);
    AnswerMembers(text, s, e);
    var a, b, p, q := s.calls[c].current, s.calls[c].participant, s.calls[e].current, s.calls[e].participant;
    KeyIsThePair(text(a), text(b), text(p), text(q));
    SamePair(a, b, p, q);
  }

  lemma AnswerMembers(text: UserId -> string, s: State, c: CreatorId)
    requires Textual(text) && Good(text, s) && c in s.calls && s.calls[c].Answered?
    ensures s.calls[c].id in s.conversations
    ensures s.conversations[s.calls[c].id].members == {s.calls[c].current, s.calls[c].participant}
  {
    var id, a, b := s.calls[c].id, s.calls[c].current, s.calls[c].participant;
    var u, v :| u != v && s.conversations[id].members == {u, v} && s.conversations[id].key == DirectKey(text(u), text(v));
    KeyIsThePair(text(a), text(b), text(u), text(v));
  }

  lemma SamePair(a: UserId, b: UserId, p: UserId, q: UserId)
    requires a != b && p != q
    ensures {a, b} == {p, q} <==> (a == p && b == q) || (a == q && b == p)
  {
    if {a, b} == {p, q} {
      assert a in {p, q} && b in {p, q};
    }
  }
}
