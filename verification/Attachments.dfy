/**
 * The life of an attachment: reserved, uploaded, verified and promoted to a delivery key, then bound
 * to one message or cleaned up, while the uploader may replace the staging object at any time.
 */
module Attachments {
  import opened Basics

  type AttachmentId = nat
  type ETag = nat

  // The staging namespace and the delivery namespace; a key names conversation, uploader, attachment and suffix.
  datatype StorageKey =
    | PendingKey(conversation: ConversationId, uploader: UserId, id: AttachmentId, suffix: string)
    | ObjectKey(conversation: ConversationId, uploader: UserId, id: AttachmentId, suffix: string)

  // The content type belongs to the upload and not to the bytes, and the ETag is the store's name for the bytes.
  datatype Blob = Blob(size: int, contentType: string, etag: ETag, content: nat)

  datatype Row = Row(conversation: ConversationId, uploader: UserId, message: Option<MessageId>, suffix: string,
                     mimeType: string, fileSize: int, key: StorageKey, createdAt: Time, uploadedAt: Option<Time>)

  function StagingKey(id: AttachmentId, r: Row): StorageKey {
    PendingKey(r.conversation, r.uploader, id, r.suffix)
  }

  function DeliveryKey(id: AttachmentId, r: Row): StorageKey {
    ObjectKey(r.conversation, r.uploader, id, r.suffix)
  }

  // ---------- The media type of a content type: before the parameters, trimmed, in lower case ----------

  function BeforeSemicolon(s: string): string {
    if s == [] || s[0] == ';' then [] else [s[0]] + BeforeSemicolon(s[1..])
  }

  // White space in Python's sense.
  predicate IsSpace(c: char) {
    var n := c as int;
    || 9 <= n <= 13 || 28 <= n <= 32 || n == 0x85 || n == 0xA0 || n == 0x1680
    || 0x2000 <= n <= 0x200A || n == 0x2028 || n == 0x2029 || n == 0x202F || n == 0x205F || n == 0x3000
  }

  function TrimLeft(s: string): string {
    if s != [] && IsSpace(s[0]) then TrimLeft(s[1..]) else s
  }

  function TrimRight(s: string): string
    decreases |s|
  {
    if s != [] && IsSpace(s[|s| - 1]) then TrimRight(s[..|s| - 1]) else s
  }

  function Lower(s: string): string {
    seq(|s|, k requires 0 <= k < |s| =>
      if 'A' <= s[k] <= 'Z' then (s[k] as int - 'A' as int + 'a' as int) as char else s[k])
  }

  function BaseType(contentType: string): string {
    Lower(TrimRight(TrimLeft(BeforeSemicolon(contentType))))
  }

  // The object passes the size and type checks of the reservation.
  predicate Fits(b: Blob, r: Row) {
    b.size == r.fileSize && BaseType(b.contentType) == r.mimeType
  }

  /** The characters of str.isspace, as code points. */
  lemma {:induction false} SpaceTable(c: char)
    ensures IsSpace(c) <==>
              c as int in {0x09, 0x0A, 0x0B, 0x0C, 0x0D, 0x1C, 0x1D, 0x1E, 0x1F, 0x20, 0x85, 0xA0, 0x1680, 0x2000, 0x2001,
                           0x2002, 0x2003, 0x2004, 0x2005, 0x2006, 0x2007, 0x2008, 0x2009, 0x200A, 0x2028, 0x2029, 0x202F,
                           0x205F, 0x3000}
  {
  }

  // White space only.
  predicate Spaces(s: string) {
    forall k :: 0 <= k < |s| ==> IsSpace(s[k])
  }

  // A content type without parameters, space or capitals.
  predicate IsPlain(s: string) {
    forall k :: 0 <= k < |s| ==> s[k] != ';' && !IsSpace(s[k]) && !('A' <= s[k] <= 'Z')
  }

  lemma {:induction false} CutAtSemicolon(s: string, q: string)
    requires ';' !in s
    ensures BeforeSemicolon(s) == s && BeforeSemicolon(s + ";" + q) == s
  {
    if s == [] {
      assert s + ";" + q == ";" + q;
    } else {
      assert s[0] in s && (s + ";" + q)[1..] == s[1..] + ";" + q;
      CutAtSemicolon(s[1..], q);
    }
  }

  lemma {:induction false} TrimmedLeft(v: string, s: string)
    requires Spaces(v) && (s != [] ==> !IsSpace(s[0]))
    ensures TrimLeft(v + s) == s
  {
    if v == [] {
      assert v + s == s;
    } else {
      assert (v + s)[0] == v[0] && (v + s)[1..] == v[1..] + s;
      TrimmedLeft(v[1..], s);
    }
  }

  lemma {:induction false} TrimmedRight(s: string, w: string)
    requires Spaces(w) && (s != [] ==> !IsSpace(s[|s| - 1]))
    ensures TrimRight(s + w) == s
    decreases |w|
  {
    if w == [] {
      assert s + w == s;
    } else {
      assert (s + w)[..|s + w| - 1] == s + w[..|w| - 1];
      TrimmedRight(s, w[..|w| - 1]);
    }
  }

  lemma PlainLower(p: string)
    requires IsPlain(p)
    ensures Lower(p) == p
  {
  }

  lemma AllTrimmed(v: string, p: string, w: string)
    requires Spaces(v) && Spaces(w) && IsPlain(p)
    ensures TrimRight(TrimLeft(v + p + w)) == p
  {
    if p == [] {
      assert v + p + w == (v + w) + [];
      TrimmedLeft(v + w, []);
    } else {
      assert v + p + w == v + (p + w);
      TrimmedLeft(v, p + w);
      TrimmedRight(p, w);
    }
  }

  /** White space around a type and parameters after it are ignored. */
  lemma {:induction false} ParametersIgnored(v: string, p: string, w: string, q: string)
    requires Spaces(v) && Spaces(w) && IsPlain(p)
    ensures BaseType(v + p + w) == p && BaseType(v + p + w + ";" + q) == p
  {
    var s := v + p + w;
    forall k | 0 <= k < |s|
      ensures s[k] != ';'
    {
      assert if k < |v| then s[k] == v[k] else if k < |v| + |p| then s[k] == p[k - |v|] else s[k] == w[k - |v| - |p|];
    }
    CutAtSemicolon(s, q);
    AllTrimmed(v, p, w);
    PlainLower(p);
  }

  // The same text but for the case of ASCII letters.
  predicate SameButCase(s: string, t: string) {
    |s| == |t| && forall k :: 0 <= k < |s| ==>
      || s[k] == t[k]
      || ('A' <= s[k] <= 'Z' && t[k] as int == s[k] as int + 32)
      || ('A' <= t[k] <= 'Z' && s[k] as int == t[k] as int + 32)
  }

  lemma {:induction false} CaseCut(s: string, t: string)
    requires SameButCase(s, t)
    ensures SameButCase(BeforeSemicolon(s), BeforeSemicolon(t)) && SameButCase(TrimLeft(s), TrimLeft(t))
  {
    if s != [] {
      CaseCut(s[1..], t[1..]);
    }
  }

  lemma {:induction false} CaseTrimmed(s: string, t: string)
    requires SameButCase(s, t)
    ensures SameButCase(TrimRight(s), TrimRight(t))
    decreases |s|
  {
    if s != [] {
      CaseTrimmed(s[..|s| - 1], t[..|t| - 1]);
    }
  }

  /** The case of letters is ignored. */
  lemma {:induction false} CaseIgnored(s: string, t: string)
    requires SameButCase(s, t)
    ensures BaseType(s) == BaseType(t)
  {
    CaseCut(s, t);
    CaseCut(BeforeSemicolon(s), BeforeSemicolon(t));
    CaseTrimmed(TrimLeft(BeforeSemicolon(s)), TrimLeft(BeforeSemicolon(t)));
  }

  /** So an upload of the reserved size and type passes, with whatever case, space and parameters. */
  lemma {:induction false} ParametersFit(b: Blob, r: Row, v: string, p: string, w: string, q: string)
    requires Spaces(v) && Spaces(w) && IsPlain(r.mimeType) && SameButCase(p, r.mimeType)
    requires b.size == r.fileSize && (b.contentType == v + p + w || b.contentType == v + p + w + ";" + q)
    ensures Fits(b, r)
  {
    ParametersIgnored(v, r.mimeType, w, q);
    CaseIgnored(v + p + w, v + r.mimeType + w);
    CaseIgnored(v + p + w + ";" + q, v + r.mimeType + w + ";" + q);
  }

  // ---------- The machine ----------

  // A completion in progress; it holds the row's lock until it commits or rolls back.
  datatype Completion =
    | Statted(meta: Blob)
    | Scanned(meta: Blob)
    | Copied(meta: Blob)

  datatype MessageInfo = MessageInfo(conversation: ConversationId, sender: UserId, attachments: seq<AttachmentId>)

  datatype Settings = Settings(uploadMinutes: Time, pendingHours: Time) {
    // The bounds the configuration enforces.
    predicate Valid() {
      1 <= uploadMinutes <= 60 && 1 <= pendingHours
    }
  }

  // `urls` and `staging` remember each reservation; `gone` the reservations cleaned up before they were ever
  // completed. Time is in minutes.
  datatype State = State(rows: map<AttachmentId, Row>, storage: map<StorageKey, Blob>,
                         completing: map<AttachmentId, Completion>, removals: set<StorageKey>,
                         messages: map<MessageId, MessageInfo>,
                         urls: map<AttachmentId, Time>, staging: map<AttachmentId, StorageKey>,
                         gone: set<AttachmentId>, now: Time)

  datatype Step =
    | Reserve(id: AttachmentId, row: Row, urlExpires: Time)
    | Put(id: AttachmentId, blob: Blob)
    | Stat(id: AttachmentId)
    | Scan(id: AttachmentId)
    | Copy(id: AttachmentId)
    | Commit(id: AttachmentId)
    | Abort(id: AttachmentId)
    | RemoveSource(key: StorageKey, removed: bool)
    | Bind(message: MessageId, info: MessageInfo)
    | CleanUp(ids: set<AttachmentId>, cutoff: Time)
    | Tick(d: Time)

  // The checks create makes on each attachment under its row lock.
  predicate Bindable(r: Row, info: MessageInfo) {
    && r.conversation == info.conversation && r.uploader == info.sender
    && r.uploadedAt.Some? && r.message.None?
  }

  predicate Abandoned(r: Row, cutoff: Time) {
    r.message.None? && r.createdAt < cutoff
  }

  // Row locks: bind and clean-up touch no row that a completion has locked. An upload may carry any bytes, type
  // and ETag as long as its URL is valid. The URL is signed before the row gets its creation time.
  ghost predicate Enabled(cfg: Settings, s: State, step: Step) {
    match step
    case Reserve(id, row, urlExpires) =>
      && id !in s.urls && row.message.None? && row.uploadedAt.None? && row.key == StagingKey(id, row)
      && row.createdAt == s.now && urlExpires <= s.now + cfg.uploadMinutes
    case Put(id, blob) => id in s.urls && id in s.staging && s.now <= s.urls[id]
    case Stat(id) =>
      && id in s.rows && id !in s.completing && s.rows[id].uploadedAt.None?
      && s.rows[id].key in s.storage && Fits(s.storage[s.rows[id].key], s.rows[id])
    case Scan(id) =>
      id in s.rows && id in s.completing && s.completing[id].Statted? && s.rows[id].key in s.storage
    case Copy(id) =>
      && id in s.rows && id in s.completing && s.completing[id].Scanned?
      && s.rows[id].key in s.storage && s.storage[s.rows[id].key].etag == s.completing[id].meta.etag
    case Commit(id) => id in s.rows && id in s.completing && s.completing[id].Copied?
    case Abort(id) => id in s.completing
    case RemoveSource(key, _) => key in s.removals
    case Bind(message, info) =>
      && message !in s.messages && Distinct(info.attachments)
      && forall id :: id in info.attachments ==> id in s.rows && id !in s.completing && Bindable(s.rows[id], info)
    case CleanUp(ids, cutoff) =>
      && cutoff <= s.now - cfg.pendingHours * 60
      && forall id :: id in ids ==> id in s.rows && id !in s.completing && Abandoned(s.rows[id], cutoff)
    case Tick(d) => 0 <= d
  }

  function BoundRows(rows: map<AttachmentId, Row>, message: MessageId, ids: seq<AttachmentId>): map<AttachmentId, Row> {
    map id | id in rows :: if id in ids then rows[id].(message := Some(message)) else rows[id]
  }

  ghost function Apply(cfg: Settings, s: State, step: Step): State
    requires Enabled(cfg, s, step)
  {
    match step
    case Reserve(id, row, urlExpires) =>
      s.(rows := s.rows[id := row], urls := s.urls[id := urlExpires], staging := s.staging[id := row.key])
    case Put(id, blob) => s.(storage := s.storage[s.staging[id] := blob])
    case Stat(id) => s.(completing := s.completing[id := Statted(s.storage[s.rows[id].key])])
    case Scan(id) => s.(completing := s.completing[id := Scanned(s.completing[id].meta)])
    case Copy(id) =>
      s.(storage := s.storage[DeliveryKey(id, s.rows[id]) := s.storage[s.rows[id].key]],
         completing := s.completing[id := Copied(s.completing[id].meta)])
    case Commit(id) =>
      s.(rows := s.rows[id := s.rows[id].(key := DeliveryKey(id, s.rows[id]), uploadedAt := Some(s.now))],
         completing := s.completing - {id}, removals := s.removals + {s.rows[id].key})
    case Abort(id) => s.(completing := s.completing - {id})
    case RemoveSource(key, removed) =>
      s.(storage := if removed then s.storage - {key} else s.storage, removals := s.removals - {key})
    case Bind(message, info) =>
      s.(rows := BoundRows(s.rows, message, info.attachments), messages := s.messages[message := info])
    case CleanUp(ids, _) =>
      s.(rows := s.rows - ids, storage := s.storage - (set id | id in ids && id in s.rows :: s.rows[id].key),
         gone := s.gone + (set id | id in ids && id in s.rows && s.rows[id].uploadedAt.None?))
    case Tick(d) => s.(now := s.now + d)
  }

  const EMPTY: State := State(map[], map[], map[], {}, map[], map[], map[], {}, 0)

  ghost predicate Legal(cfg: Settings, s: State, steps: seq<Step>)
    decreases |steps|
  {
    steps != [] ==> Enabled(cfg, s, steps[0]) && Legal(cfg, Apply(cfg, s, steps[0]), steps[1..])
  }

  ghost function Run(cfg: Settings, s: State, steps: seq<Step>): State
    requires Legal(cfg, s, steps)
    decreases |steps|
  {
    if steps == [] then s else Run(cfg, Apply(cfg, s, steps[0]), steps[1..])
  }

  // ---------- What every run keeps ----------

  // Keys name their attachment, and a finalized row has left the staging namespace.
  ghost predicate RowKeyed(cfg: Settings, s: State, id: AttachmentId) {
    id in s.rows ==>
      && id in s.staging && id in s.urls && s.staging[id] == StagingKey(id, s.rows[id])
      && s.rows[id].key == (if s.rows[id].uploadedAt.Some? then DeliveryKey(id, s.rows[id]) else StagingKey(id, s.rows[id]))
      && s.urls[id] <= s.rows[id].createdAt + cfg.uploadMinutes
  }

  ghost predicate Keyed(cfg: Settings, s: State) {
    && (forall id :: id in s.rows ==> RowKeyed(cfg, s, id))
    && (forall id :: id in s.staging ==> id in s.urls && s.staging[id].PendingKey? && s.staging[id].id == id)
    && forall key :: key in s.removals ==> key.PendingKey?
  }

  // What each phase of a completion knows.
  ghost predicate OnTrack(s: State, id: AttachmentId, c: Completion) {
    && id in s.rows && s.rows[id].uploadedAt.None? && s.rows[id].message.None?
    && Fits(c.meta, s.rows[id])
    && (c.Copied? ==>
          DeliveryKey(id, s.rows[id]) in s.storage && s.storage[DeliveryKey(id, s.rows[id])].etag == c.meta.etag)
  }

  ghost predicate Completing(s: State) {
    forall id :: id in s.completing ==> OnTrack(s, id, s.completing[id])
  }

  // A finalized row has its object.
  ghost predicate FinalizedRow(s: State, id: AttachmentId) {
    id in s.rows && s.rows[id].uploadedAt.Some? ==> s.rows[id].key in s.storage
  }

  ghost predicate Finalized(s: State) {
    forall id :: FinalizedRow(s, id)
  }

  // A bound row is finalized and its message names it.
  ghost predicate BoundRow(s: State, id: AttachmentId) {
    id in s.rows && s.rows[id].message.Some? ==>
      && s.rows[id].message.value in s.messages && s.rows[id].uploadedAt.Some?
      && id in s.messages[s.rows[id].message.value].attachments
  }

  // What a message names is bound to it, its sender's and for its conversation.
  ghost predicate Named(s: State, m: MessageId, id: AttachmentId) {
    m in s.messages && id in s.messages[m].attachments ==>
      && id in s.rows && s.rows[id].message == Some(m) && s.rows[id].uploadedAt.Some?
      && s.rows[id].conversation == s.messages[m].conversation && s.rows[id].uploader == s.messages[m].sender
  }

  // Rows and messages agree on who is bound to whom.
  ghost predicate Bound(s: State) {
    && (forall id :: BoundRow(s, id))
    && (forall m :: m in s.messages ==> Distinct(s.messages[m].attachments))
    && forall m, id :: Named(s, m, id)
  }

  // A reservation cleaned up before completion has left nothing behind and can upload no more.
  ghost predicate Gone(s: State) {
    forall id :: id in s.gone ==>
      && id in s.urls && id in s.staging && id !in s.rows
      && s.urls[id] < s.now && s.staging[id] !in s.storage
  }

  // What a step does to one row: reserve, bind, finalize, delete, or nothing.
  lemma RowEffect(cfg: Settings, s: State, step: Step, id: AttachmentId)
    requires Enabled(cfg, s, step) && id in Apply(cfg, s, step).rows
    ensures var r := Apply(cfg, s, step).rows[id];
            if step.Reserve? && step.id == id then r == step.row
            else
              && id in s.rows
              && r == if step.Bind? && id in step.info.attachments then s.rows[id].(message := Some(step.message))
                      else if step == Commit(id) then s.rows[id].(key := DeliveryKey(id, s.rows[id]), uploadedAt := Some(s.now))
                      else s.rows[id]
  {
  }

  lemma StepKeyed(cfg: Settings, s: State, step: Step)
    requires Keyed(cfg, s) && Completing(s) && Enabled(cfg, s, step)
    ensures Keyed(cfg, Apply(cfg, s, step))
  {
    forall id | id in Apply(cfg, s, step).rows { RowStaysKeyed(cfg, s, step, id); }
    if step.Commit? {
      assert RowKeyed(cfg, s, step.id) && OnTrack(s, step.id, s.completing[step.id]);
    }
  }

  // What a reservation fixed stays fixed.
  lemma ReservationStays(cfg: Settings, s: State, step: Step, id: AttachmentId)
    requires Enabled(cfg, s, step) && id in s.urls && id in s.staging
    ensures id in Apply(cfg, s, step).urls && Apply(cfg, s, step).urls[id] == s.urls[id]
    ensures id in Apply(cfg, s, step).staging && Apply(cfg, s, step).staging[id] == s.staging[id]
  {
  }

  lemma RowStaysKeyed(cfg: Settings, s: State, step: Step, id: AttachmentId)
    requires Enabled(cfg, s, step) && RowKeyed(cfg, s, id)
    ensures RowKeyed(cfg, Apply(cfg, s, step), id)
  {
    if id in Apply(cfg, s, step).rows {
      RowEffect(cfg, s, step, id);
      if id in s.rows {
        ReservationStays(cfg, s, step, id);
      }
    }
  }

  // ---------- Completions, step by step ----------

  // Attachment i's row and its delivery object, if there is one, are as before.
  ghost predicate Beside(s: State, d: State, i: AttachmentId) {
    && i in s.rows && i in d.rows && d.rows[i] == s.rows[i]
    && (DeliveryKey(i, s.rows[i]) in s.storage ==>
          DeliveryKey(i, s.rows[i]) in d.storage && d.storage[DeliveryKey(i, s.rows[i])] == s.storage[DeliveryKey(i, s.rows[i])])
  }

  lemma TrackBeside(s: State, d: State, i: AttachmentId, c: Completion)
    requires OnTrack(s, i, c) && Beside(s, d, i)
    ensures OnTrack(d, i, c)
  {
  }

  lemma BesideUploads(cfg: Settings, s: State, step: Step, i: AttachmentId)
    requires Keyed(cfg, s) && i in s.rows && Enabled(cfg, s, step) && (step.Put? || step.RemoveSource?)
    ensures Beside(s, Apply(cfg, s, step), i)
  {
  }

  lemma BesideCopy(cfg: Settings, s: State, p: AttachmentId, i: AttachmentId)
    requires i in s.rows && p != i && Enabled(cfg, s, Copy(p))
    ensures Beside(s, Apply(cfg, s, Copy(p)), i)
  {
  }

  lemma BesideBind(cfg: Settings, s: State, m: MessageId, info: MessageInfo, i: AttachmentId)
    requires i in s.rows && i in s.completing && Enabled(cfg, s, Bind(m, info))
    ensures Beside(s, Apply(cfg, s, Bind(m, info)), i)
  {
  }

  lemma BesideCleanUp(cfg: Settings, s: State, ids: set<AttachmentId>, cutoff: Time, i: AttachmentId)
    requires Keyed(cfg, s) && i in s.rows && i in s.completing && Enabled(cfg, s, CleanUp(ids, cutoff))
    ensures Beside(s, Apply(cfg, s, CleanUp(ids, cutoff)), i)
  {
    forall id | id in ids && id in s.rows
      ensures s.rows[id].key != DeliveryKey(i, s.rows[i])
    {
      assert RowKeyed(cfg, s, id);
    }
  }

  // Steps that leave the completion and all it looks at alone.
  lemma BesideElse(cfg: Settings, s: State, step: Step, i: AttachmentId)
    requires Keyed(cfg, s) && i in s.rows && Enabled(cfg, s, step)
    requires step.Reserve? || step.Stat? || step.Scan? || step.Abort? || step.Tick? || (step.Commit? && step.id != i)
    ensures Beside(s, Apply(cfg, s, step), i)
  {
    assert RowKeyed(cfg, s, i);
  }

  // While a completion runs, no other request touches its row or its delivery key.
  lemma OthersBeside(cfg: Settings, s: State, step: Step, i: AttachmentId)
    requires Keyed(cfg, s) && i in s.rows && i in s.completing && Enabled(cfg, s, step)
    requires step != Copy(i) && step != Commit(i)
    ensures Beside(s, Apply(cfg, s, step), i)
  {
    match step {
      case Put(_, _) => BesideUploads(cfg, s, step, i);
      case RemoveSource(_, _) => BesideUploads(cfg, s, step, i);
      case Copy(p) => BesideCopy(cfg, s, p, i);
      case Bind(m, info) => BesideBind(cfg, s, m, info, i);
      case CleanUp(ids, cutoff) => BesideCleanUp(cfg, s, ids, cutoff, i);
      case _ => BesideElse(cfg, s, step, i);
    }
  }

  // The steps of attachment i's completion.
  predicate IsOwn(step: Step, i: AttachmentId) {
    step == Stat(i) || step == Scan(i) || step == Copy(i) || step == Commit(i) || step == Abort(i)
  }

  lemma CompletionKept(cfg: Settings, s: State, step: Step, i: AttachmentId)
    requires Enabled(cfg, s, step) && !IsOwn(step, i)
    ensures i in Apply(cfg, s, step).completing <==> i in s.completing
    ensures i in s.completing ==> Apply(cfg, s, step).completing[i] == s.completing[i]
  {
  }

  // The completion's own next phase.
  lemma TrackOwn(cfg: Settings, s: State, step: Step, i: AttachmentId)
    requires RowKeyed(cfg, s, i) && BoundRow(s, i) && IsOwn(step, i) && Enabled(cfg, s, step)
    requires i in s.completing ==> OnTrack(s, i, s.completing[i])
    ensures i in Apply(cfg, s, step).completing ==> OnTrack(Apply(cfg, s, step), i, Apply(cfg, s, step).completing[i])
  {
  }

  lemma CompletionOnTrack(cfg: Settings, s: State, step: Step, i: AttachmentId)
    requires Keyed(cfg, s) && Completing(s) && BoundRow(s, i) && Enabled(cfg, s, step)
    requires i in Apply(cfg, s, step).completing
    ensures OnTrack(Apply(cfg, s, step), i, Apply(cfg, s, step).completing[i])
  {
    assert RowKeyed(cfg, s, i);
    if IsOwn(step, i) {
      TrackOwn(cfg, s, step, i);
    } else {
      CompletionKept(cfg, s, step, i);
      OthersBeside(cfg, s, step, i);
      TrackBeside(s, Apply(cfg, s, step), i, s.completing[i]);
    }
  }

  lemma StepCompleting(cfg: Settings, s: State, step: Step)
    requires Keyed(cfg, s) && Completing(s) && Bound(s) && Enabled(cfg, s, step)
    ensures Completing(Apply(cfg, s, step))
  {
    forall i | i in Apply(cfg, s, step).completing
      ensures OnTrack(Apply(cfg, s, step), i, Apply(cfg, s, step).completing[i])
    {
      assert BoundRow(s, i);
      CompletionOnTrack(cfg, s, step, i);
    }
  }

  // ---------- Finalized rows, step by step ----------

  // A finalized row that survives keeps its key, the key its version, and a bound one its message.
  ghost predicate Kept(s: State, d: State, id: AttachmentId) {
    id in s.rows && s.rows[id].uploadedAt.Some? && id in d.rows ==>
      && d.rows[id] == s.rows[id].(message := d.rows[id].message)
      && (s.rows[id].message.Some? ==> d.rows[id].message == s.rows[id].message)
      && s.rows[id].key in s.storage && s.rows[id].key in d.storage
      && d.storage[s.rows[id].key] == s.storage[s.rows[id].key]
  }

  lemma KeptWithStorage(cfg: Settings, s: State, step: Step, id: AttachmentId)
    requires FinalizedRow(s, id) && Enabled(cfg, s, step)
    requires step.Stat? || step.Scan? || step.Abort? || step.Tick?
    ensures Kept(s, Apply(cfg, s, step), id)
  {
  }

  lemma KeptByReserve(cfg: Settings, s: State, i: AttachmentId, row: Row, urlExpires: Time, id: AttachmentId)
    requires RowKeyed(cfg, s, id) && FinalizedRow(s, id) && Enabled(cfg, s, Reserve(i, row, urlExpires))
    ensures Kept(s, Apply(cfg, s, Reserve(i, row, urlExpires)), id)
  {
  }

  lemma KeptByBind(cfg: Settings, s: State, message: MessageId, info: MessageInfo, id: AttachmentId)
    requires FinalizedRow(s, id) && Enabled(cfg, s, Bind(message, info))
    ensures Kept(s, Apply(cfg, s, Bind(message, info)), id)
  {
  }

  lemma KeptByUploads(cfg: Settings, s: State, step: Step, id: AttachmentId)
    requires Keyed(cfg, s) && RowKeyed(cfg, s, id) && FinalizedRow(s, id) && Enabled(cfg, s, step)
    requires step.Put? || step.RemoveSource?
    ensures Kept(s, Apply(cfg, s, step), id)
  {
  }

  lemma KeptByCompletion(cfg: Settings, s: State, step: Step, id: AttachmentId)
    requires RowKeyed(cfg, s, id) && FinalizedRow(s, id) && Enabled(cfg, s, step) && (step.Copy? || step.Commit?)
    requires OnTrack(s, step.id, s.completing[step.id])
    ensures Kept(s, Apply(cfg, s, step), id)
  {
  }

  lemma KeptByCleanUp(cfg: Settings, s: State, ids: set<AttachmentId>, cutoff: Time, id: AttachmentId)
    requires Keyed(cfg, s) && RowKeyed(cfg, s, id) && FinalizedRow(s, id) && Enabled(cfg, s, CleanUp(ids, cutoff))
    ensures Kept(s, Apply(cfg, s, CleanUp(ids, cutoff)), id)
  {
    if id in s.rows && s.rows[id].uploadedAt.Some? && id !in ids {
      forall i | i in ids && i in s.rows
        ensures s.rows[i].key != s.rows[id].key
      {
        assert RowKeyed(cfg, s, i);
      }
    }
  }

  lemma StaysFinalized(cfg: Settings, s: State, step: Step, id: AttachmentId)
    requires Keyed(cfg, s) && Completing(s) && FinalizedRow(s, id) && Enabled(cfg, s, step)
    ensures Kept(s, Apply(cfg, s, step), id)
  {
    if id in s.rows {
      assert RowKeyed(cfg, s, id);
      match step {
        case Put(_, _) => KeptByUploads(cfg, s, step, id);
        case RemoveSource(_, _) => KeptByUploads(cfg, s, step, id);
        case Copy(i) => KeptByCompletion(cfg, s, step, id);
        case Commit(i) => KeptByCompletion(cfg, s, step, id);
        case CleanUp(ids, cutoff) => KeptByCleanUp(cfg, s, ids, cutoff, id);
        case Reserve(i, row, urlExpires) => KeptByReserve(cfg, s, i, row, urlExpires, id);
        case Bind(message, info) => KeptByBind(cfg, s, message, info, id);
        case _ => KeptWithStorage(cfg, s, step, id);
      }
    }
  }

  lemma BecomesFinalized(cfg: Settings, s: State, id: AttachmentId)
    requires Enabled(cfg, s, Commit(id)) && OnTrack(s, id, s.completing[id])
    ensures FinalizedRow(Apply(cfg, s, Commit(id)), id)
  {
  }

  // A row is finalized by its commit only.
  lemma FinalizedBefore(cfg: Settings, s: State, step: Step, id: AttachmentId)
    requires Enabled(cfg, s, step) && step != Commit(id)
    requires id in Apply(cfg, s, step).rows && Apply(cfg, s, step).rows[id].uploadedAt.Some?
    ensures id in s.rows && s.rows[id].uploadedAt.Some?
  {
    RowEffect(cfg, s, step, id);
  }

  lemma StepFinalized(cfg: Settings, s: State, step: Step)
    requires Keyed(cfg, s) && Completing(s) && Finalized(s) && Enabled(cfg, s, step)
    ensures Finalized(Apply(cfg, s, step))
  {
    var d := Apply(cfg, s, step);
    forall id
      ensures FinalizedRow(d, id)
    {
      if id in d.rows && d.rows[id].uploadedAt.Some? {
        if step == Commit(id) {
          BecomesFinalized(cfg, s, id);
        } else {
          FinalizedBefore(cfg, s, step, id);
          assert FinalizedRow(s, id);
          StaysFinalized(cfg, s, step, id);
        }
      }
    }
  }

  // ---------- Bindings, step by step ----------

  lemma SameBindings(s: State, d: State)
    requires Bound(s) && d.rows == s.rows && d.messages == s.messages
    ensures Bound(d)
  {
    forall id ensures BoundRow(d, id) { assert BoundRow(s, id); }
    forall m, id ensures Named(d, m, id) { assert Named(s, m, id); }
  }

  lemma ReserveBound(cfg: Settings, s: State, id: AttachmentId, row: Row, urlExpires: Time)
    requires Keyed(cfg, s) && Bound(s) && Enabled(cfg, s, Reserve(id, row, urlExpires))
    ensures Bound(Apply(cfg, s, Reserve(id, row, urlExpires)))
  {
    var d := Apply(cfg, s, Reserve(id, row, urlExpires));
    assert id in s.rows ==> RowKeyed(cfg, s, id);
    forall i ensures BoundRow(d, i) { assert BoundRow(s, i); }
    forall m, i ensures Named(d, m, i) { assert Named(s, m, i); }
  }

  lemma CommitBound(cfg: Settings, s: State, id: AttachmentId)
    requires Bound(s) && Enabled(cfg, s, Commit(id)) && OnTrack(s, id, s.completing[id])
    ensures Bound(Apply(cfg, s, Commit(id)))
  {
    var d := Apply(cfg, s, Commit(id));
    forall i ensures BoundRow(d, i) { assert BoundRow(s, i); }
    forall m, i ensures Named(d, m, i) { assert Named(s, m, i); }
  }

  lemma BindBound(cfg: Settings, s: State, message: MessageId, info: MessageInfo)
    requires Bound(s) && Enabled(cfg, s, Bind(message, info))
    ensures Bound(Apply(cfg, s, Bind(message, info)))
  {
    var d := Apply(cfg, s, Bind(message, info));
    forall i ensures BoundRow(d, i) { BindRow(cfg, s, message, info, i); }
    forall m, i ensures Named(d, m, i) { BindNamed(cfg, s, message, info, m, i); }
  }

  lemma BindRow(cfg: Settings, s: State, message: MessageId, info: MessageInfo, i: AttachmentId)
    requires Bound(s) && Enabled(cfg, s, Bind(message, info))
    ensures BoundRow(Apply(cfg, s, Bind(message, info)), i)
  {
    assert BoundRow(s, i);
  }

  lemma BindNamed(cfg: Settings, s: State, message: MessageId, info: MessageInfo, m: MessageId, i: AttachmentId)
    requires Bound(s) && Enabled(cfg, s, Bind(message, info))
    ensures Named(Apply(cfg, s, Bind(message, info)), m, i)
  {
    assert Named(s, m, i);
  }

  lemma CleanUpBound(cfg: Settings, s: State, ids: set<AttachmentId>, cutoff: Time)
    requires Bound(s) && Enabled(cfg, s, CleanUp(ids, cutoff))
    ensures Bound(Apply(cfg, s, CleanUp(ids, cutoff)))
  {
    var d := Apply(cfg, s, CleanUp(ids, cutoff));
    forall i ensures BoundRow(d, i) { assert BoundRow(s, i); }
    forall m, i ensures Named(d, m, i) { assert Named(s, m, i); }
  }

  lemma StepBound(cfg: Settings, s: State, step: Step)
    requires Keyed(cfg, s) && Completing(s) && Bound(s) && Enabled(cfg, s, step)
    ensures Bound(Apply(cfg, s, step))
  {
    match step {
      case Reserve(id, row, urlExpires) => ReserveBound(cfg, s, id, row, urlExpires);
      case Commit(id) => CommitBound(cfg, s, id);
      case Bind(message, info) => BindBound(cfg, s, message, info);
      case CleanUp(ids, cutoff) => CleanUpBound(cfg, s, ids, cutoff);
      case _ => SameBindings(s, Apply(cfg, s, step));
    }
  }

  // ---------- Cleaned reservations ----------

  lemma StepGone(cfg: Settings, s: State, step: Step)
    requires cfg.Valid() && Keyed(cfg, s) && Gone(s) && Enabled(cfg, s, step)
    ensures Gone(Apply(cfg, s, step))
  {
    var d := Apply(cfg, s, step);
    forall id | id in d.gone
      ensures id in d.urls && id in d.staging && id !in d.rows && d.urls[id] < d.now && d.staging[id] !in d.storage
    {
      assert RowKeyed(cfg, s, id);
      if id !in s.gone {
        assert step.CleanUp? && id in step.ids;
      }
    }
  }

  ghost predicate Good(cfg: Settings, s: State) {
    Keyed(cfg, s) && Completing(s) && Finalized(s) && Bound(s) && Gone(s)
  }

  lemma StepGood(cfg: Settings, s: State, step: Step)
    requires cfg.Valid() && Good(cfg, s) && Enabled(cfg, s, step)
    ensures Good(cfg, Apply(cfg, s, step))
  {
    StepKeyed(cfg, s, step);
    StepCompleting(cfg, s, step);
    StepFinalized(cfg, s, step);
    StepBound(cfg, s, step);
    StepGone(cfg, s, step);
  }

  lemma {:induction false} RunGood(cfg: Settings, s: State, steps: seq<Step>)
    requires cfg.Valid() && Good(cfg, s) && Legal(cfg, s, steps)
    ensures Good(cfg, Run(cfg, s, steps))
    decreases |steps|
  {
    if steps != [] {
      StepGood(cfg, s, steps[0]);
      RunGood(cfg, Apply(cfg, s, steps[0]), steps[1..]);
    }
  }

  lemma EmptyGood(cfg: Settings)
    ensures Good(cfg, EMPTY)
  {
  }

  // ---------- Immutable delivery ----------

  // What an authorized download streams: nothing unless the row is bound and finalized, else its object.
  function Download(s: State, id: AttachmentId): Option<Blob> {
    if id in s.rows && s.rows[id].message.Some? && s.rows[id].uploadedAt.Some? && s.rows[id].key in s.storage
    then Some(s.storage[s.rows[id].key]) else None
  }

  // Whatever survives of an attachment's row keeps its finalized object and its message.
  ghost predicate Fixed(s: State, d: State, id: AttachmentId) {
    && (id in s.rows && s.rows[id].uploadedAt.Some? && id in d.rows ==>
          && d.rows[id] == s.rows[id].(message := d.rows[id].message)
          && s.rows[id].key in s.storage && s.rows[id].key in d.storage
          && d.storage[s.rows[id].key] == s.storage[s.rows[id].key])
    && (id in s.rows && s.rows[id].message.Some? ==> id in d.rows && d.rows[id].message == s.rows[id].message)
  }

  lemma StepFixed(cfg: Settings, s: State, step: Step, id: AttachmentId)
    requires cfg.Valid() && Good(cfg, s) && Enabled(cfg, s, step)
    ensures Fixed(s, Apply(cfg, s, step), id)
    ensures id in s.rows && s.rows[id].uploadedAt.Some? && id in Apply(cfg, s, step).rows ==>
              Apply(cfg, s, step).rows[id].uploadedAt.Some?
    ensures id in s.urls ==> id in Apply(cfg, s, step).urls
    ensures id in s.urls && id !in s.rows ==> id !in Apply(cfg, s, step).rows
  {
    assert FinalizedRow(s, id);
    assert BoundRow(s, id);
    StaysFinalized(cfg, s, step, id);
    StaysListed(cfg, s, step, id);
  }

  // Reservations are never forgotten or repeated, and a bound row is never deleted.
  lemma StaysListed(cfg: Settings, s: State, step: Step, id: AttachmentId)
    requires Enabled(cfg, s, step)
    ensures id in s.urls ==> id in Apply(cfg, s, step).urls
    ensures id in s.urls && id !in s.rows ==> id !in Apply(cfg, s, step).rows
    ensures id in s.rows && s.rows[id].message.Some? ==> id in Apply(cfg, s, step).rows
  {
  }

  /**
   * Immutable delivery: from the moment an attachment is finalized, its key and the version stored
   * there stay what they are for as long as its row exists, whatever is uploaded to the staging key;
   * and once bound, the row and its message stay.
   */
  lemma {:induction false} DeliveryIsImmutable(cfg: Settings, s: State, steps: seq<Step>, id: AttachmentId)
    requires cfg.Valid() && Good(cfg, s) && Legal(cfg, s, steps) && id in s.urls
    ensures Fixed(s, Run(cfg, s, steps), id)
    ensures id !in s.rows ==> id !in Run(cfg, s, steps).rows
    decreases |steps|
  {
    if steps != [] {
      var d := Apply(cfg, s, steps[0]);
      StepGood(cfg, s, steps[0]);
      StepFixed(cfg, s, steps[0], id);
      DeliveryIsImmutable(cfg, d, steps[1..], id);
    } else {
      assert FinalizedRow(s, id);
    }
  }

  // ---------- What a download streams ----------

  // A run with the states between its steps.
  ghost predicate Trace(cfg: Settings, steps: seq<Step>, states: seq<State>) {
    |states| == |steps| + 1 && forall k :: 0 <= k < |steps| ==> Moves(cfg, states[k], steps[k], states[k + 1])
  }

  ghost predicate Moves(cfg: Settings, s: State, step: Step, d: State) {
    Enabled(cfg, s, step) && d == Apply(cfg, s, step)
  }

  lemma {:induction false} TraceGood(cfg: Settings, steps: seq<Step>, states: seq<State>, n: nat)
    requires cfg.Valid() && Trace(cfg, steps, states) && states[0] == EMPTY && n <= |steps|
    ensures Good(cfg, states[n])
  {
    if n == 0 {
      EmptyGood(cfg);
    } else {
      TraceGood(cfg, steps, states, n - 1);
      assert Moves(cfg, states[n - 1], steps[n - 1], states[n]);
      StepGood(cfg, states[n - 1], steps[n - 1]);
    }
  }

  // Every stretch of a trace is a run.
  lemma {:induction false} TraceIsRun(cfg: Settings, steps: seq<Step>, states: seq<State>, n: nat, m: nat)
    requires Trace(cfg, steps, states) && n <= m <= |steps|
    ensures Legal(cfg, states[n], steps[n..m]) && Run(cfg, states[n], steps[n..m]) == states[m]
    decreases m - n
  {
    if n < m {
      assert Moves(cfg, states[n], steps[n], states[n + 1]);
      TraceIsRun(cfg, steps, states, n + 1, m);
      assert steps[n..m][0] == steps[n] && steps[n..m][1..] == steps[n + 1..m];
    }
  }

  // What the staging key of the attachment holds.
  function Staged(s: State, id: AttachmentId): Option<Blob> {
    if id in s.staging && s.staging[id] in s.storage then Some(s.storage[s.staging[id]]) else None
  }

  // A completion of the attachment: its four steps, and no other step of a completion of it between.
  ghost predicate Completed(steps: seq<Step>, id: AttachmentId, i: nat, j: nat, k: nat, l: nat) {
    && i < j < k < l < |steps|
    && steps[i] == Stat(id) && steps[j] == Scan(id) && steps[k] == Copy(id) && steps[l] == Commit(id)
    && forall m :: i < m < l && m != j && m != k ==> !IsOwn(steps[m], id)
  }

  lemma CompletionKeptAt(cfg: Settings, steps: seq<Step>, states: seq<State>, n: nat, id: AttachmentId)
    requires Trace(cfg, steps, states) && n < |steps| && !IsOwn(steps[n], id)
    ensures id in states[n + 1].completing <==> id in states[n].completing
    ensures id in states[n].completing ==> states[n + 1].completing[id] == states[n].completing[id]
  {
    assert Moves(cfg, states[n], steps[n], states[n + 1]);
    CompletionKept(cfg, states[n], steps[n], id);
  }

  // The last step of the completion in progress, which left it as it still is.
  lemma {:induction false} LastOwn(cfg: Settings, steps: seq<Step>, states: seq<State>, n: nat, id: AttachmentId)
      returns (p: nat)
    requires Trace(cfg, steps, states) && states[0] == EMPTY && n <= |steps| && id in states[n].completing
    ensures p < n && IsOwn(steps[p], id) && forall m :: p < m < n ==> !IsOwn(steps[m], id)
    ensures id in states[p + 1].completing && states[p + 1].completing[id] == states[n].completing[id]
  {
    p := n - 1;
    if !IsOwn(steps[p], id) {
      CompletionKeptAt(cfg, steps, states, p, id);
      p := LastOwn(cfg, steps, states, n - 1, id);
    }
  }

  // What the completion's steps saw.
  lemma OwnPhase(cfg: Settings, s: State, step: Step, id: AttachmentId)
    requires Good(cfg, s) && Enabled(cfg, s, step) && IsOwn(step, id) && id in Apply(cfg, s, step).completing
    ensures Staged(s, id).Some?
    ensures match Apply(cfg, s, step).completing[id]
            case Statted(meta) => step == Stat(id) && Staged(s, id) == Some(meta)
            case Scanned(meta) => step == Scan(id) && id in s.completing && s.completing[id] == Statted(meta)
            case Copied(meta) =>
              step == Copy(id) && id in s.completing && s.completing[id] == Scanned(meta) && Staged(s, id).value.etag == meta.etag
  {
    assert RowKeyed(cfg, s, id);
    assert id in s.completing ==> OnTrack(s, id, s.completing[id]);
  }

  lemma {:induction false} CompletionHistory(cfg: Settings, steps: seq<Step>, states: seq<State>, l: nat, id: AttachmentId)
      returns (i: nat, j: nat, k: nat)
    requires cfg.Valid() && Trace(cfg, steps, states) && states[0] == EMPTY && l < |steps| && steps[l] == Commit(id)
    ensures Completed(steps, id, i, j, k, l)
    ensures Staged(states[i], id).Some? && Staged(states[j], id).Some? && Staged(states[k], id).Some?
    ensures id in states[l].completing && states[l].completing[id] == Copied(Staged(states[i], id).value)
    ensures Staged(states[k], id).value.etag == Staged(states[i], id).value.etag
  {
    assert Moves(cfg, states[l], steps[l], states[l + 1]);
    k := LastOwn(cfg, steps, states, l, id);
    OwnPhaseAt(cfg, steps, states, k, id);
    j := LastOwn(cfg, steps, states, k, id);
    OwnPhaseAt(cfg, steps, states, j, id);
    i := LastOwn(cfg, steps, states, j, id);
    OwnPhaseAt(cfg, steps, states, i, id);
  }

  lemma OwnPhaseAt(cfg: Settings, steps: seq<Step>, states: seq<State>, n: nat, id: AttachmentId)
    requires cfg.Valid() && Trace(cfg, steps, states) && states[0] == EMPTY && n < |steps|
    requires IsOwn(steps[n], id) && id in states[n + 1].completing
    ensures Staged(states[n], id).Some?
    ensures match states[n + 1].completing[id]
            case Statted(meta) => steps[n] == Stat(id) && Staged(states[n], id) == Some(meta)
            case Scanned(meta) =>
              steps[n] == Scan(id) && id in states[n].completing && states[n].completing[id] == Statted(meta)
            case Copied(meta) =>
              && steps[n] == Copy(id) && id in states[n].completing && states[n].completing[id] == Scanned(meta)
              && Staged(states[n], id).value.etag == meta.etag
  {
    TraceGood(cfg, steps, states, n);
    assert Moves(cfg, states[n], steps[n], states[n + 1]);
    OwnPhase(cfg, states[n], steps[n], id);
  }

  // From the copy to the commit, and for ever after, the delivery key holds what was staged at the copy.
  lemma {:induction false} CopyWaits(cfg: Settings, steps: seq<Step>, states: seq<State>, k: nat, n: nat, id: AttachmentId)
    requires cfg.Valid() && Trace(cfg, steps, states) && states[0] == EMPTY && k < n <= |steps|
    requires steps[k] == Copy(id) && forall m :: k < m < n ==> !IsOwn(steps[m], id)
    ensures id in states[n].completing && id in states[n].rows
    ensures var key := DeliveryKey(id, states[n].rows[id]);
            key in states[n].storage && Some(states[n].storage[key]) == Staged(states[k], id)
    decreases n
  {
    var s := states[n - 1];
    TraceGood(cfg, steps, states, n - 1);
    assert Moves(cfg, s, steps[n - 1], states[n]);
    assert RowKeyed(cfg, s, id);
    if n - 1 == k {
      assert OnTrack(s, id, s.completing[id]);
    } else {
      CopyWaits(cfg, steps, states, k, n - 1, id);
      CompletionKept(cfg, s, steps[n - 1], id);
      OthersBeside(cfg, s, steps[n - 1], id);
    }
  }

  lemma {:induction false} CommittedAt(cfg: Settings, steps: seq<Step>, states: seq<State>, n: nat, id: AttachmentId)
      returns (l: nat)
    requires Trace(cfg, steps, states) && states[0] == EMPTY && n <= |steps|
    requires id in states[n].rows && states[n].rows[id].uploadedAt.Some?
    ensures l < n && steps[l] == Commit(id)
  {
    l := n - 1;
    assert Moves(cfg, states[l], steps[l], states[n]);
    if steps[l] != Commit(id) {
      FinalizedBefore(cfg, states[l], steps[l], id);
      l := CommittedAt(cfg, steps, states, n - 1, id);
    }
  }

  // What the commit finalizes is what the copy wrote, for the row that was verified.
  lemma CommitDelivers(cfg: Settings, s: State, id: AttachmentId)
    requires Good(cfg, s) && Enabled(cfg, s, Commit(id))
    ensures var d := Apply(cfg, s, Commit(id));
            && d.rows[id] == s.rows[id].(key := DeliveryKey(id, s.rows[id]), uploadedAt := Some(s.now))
            && d.storage == s.storage && id in d.urls && Fits(s.completing[id].meta, d.rows[id])
  {
    assert RowKeyed(cfg, s, id);
    assert OnTrack(s, id, s.completing[id]);
  }

  lemma CommitAt(cfg: Settings, steps: seq<Step>, states: seq<State>, l: nat, id: AttachmentId)
    requires cfg.Valid() && Trace(cfg, steps, states) && states[0] == EMPTY && l < |steps| && steps[l] == Commit(id)
    ensures Good(cfg, states[l]) && Good(cfg, states[l + 1]) && Enabled(cfg, states[l], Commit(id))
    ensures id in states[l + 1].rows && id in states[l + 1].urls && states[l + 1].storage == states[l].storage
    ensures states[l + 1].rows[id]
         == states[l].rows[id].(key := DeliveryKey(id, states[l].rows[id]), uploadedAt := Some(states[l].now))
    ensures Fits(states[l].completing[id].meta, states[l + 1].rows[id])
  {
    TraceGood(cfg, steps, states, l);
    assert Moves(cfg, states[l], steps[l], states[l + 1]);
    CommitDelivers(cfg, states[l], id);
    StepGood(cfg, states[l], Commit(id));
  }

  lemma StreamsAfter(cfg: Settings, steps: seq<Step>, states: seq<State>, l: nat, m: nat, id: AttachmentId)
    requires cfg.Valid() && Trace(cfg, steps, states) && states[0] == EMPTY && l < m <= |steps| && steps[l] == Commit(id)
    ensures id in states[l + 1].rows && Fixed(states[l + 1], states[m], id)
    ensures id in states[m].rows && states[m].rows[id].message.Some? ==> Download(states[m], id).Some?
  {
    CommitAt(cfg, steps, states, l, id);
    TraceIsRun(cfg, steps, states, l + 1, m);
    DeliveryIsImmutable(cfg, states[l + 1], steps[l + 1..m], id);
    TraceGood(cfg, steps, states, m);
    if id in states[m].rows && states[m].rows[id].message.Some? {
      DownloadInGood(cfg, states[m], id);
    }
  }

  lemma BoundLater(cfg: Settings, steps: seq<Step>, states: seq<State>, n: nat, m: nat, id: AttachmentId)
    requires cfg.Valid() && Trace(cfg, steps, states) && states[0] == EMPTY && n <= m <= |steps|
    requires id in states[n].rows && states[n].rows[id].message.Some?
    ensures id in states[m].rows && states[m].rows[id].message.Some? && states[m].rows[id].uploadedAt.Some?
    ensures states[m].rows[id].key == DeliveryKey(id, states[m].rows[id])
  {
    TraceGood(cfg, steps, states, n);
    assert RowKeyed(cfg, states[n], id);
    TraceIsRun(cfg, steps, states, n, m);
    DeliveryIsImmutable(cfg, states[n], steps[n..m], id);
    TraceGood(cfg, steps, states, m);
    DownloadInGood(cfg, states[m], id);
  }

  /**
   * A download, whatever is uploaded and whatever ETags it gets: a bound attachment has been through one
   * completion, and in every later state its download streams the version that was staged at that completion's
   * copy. That version has the ETag of the version whose size and type were verified.
   */
  lemma {:induction false} DownloadIsVerified(cfg: Settings, steps: seq<Step>, states: seq<State>, n: nat, id: AttachmentId)
      returns (i: nat, j: nat, k: nat, l: nat)
    requires cfg.Valid() && Trace(cfg, steps, states) && states[0] == EMPTY && n <= |steps|
    requires id in states[n].rows && states[n].rows[id].message.Some?
    ensures Completed(steps, id, i, j, k, l) && l < n
    ensures Staged(states[i], id).Some? && Staged(states[j], id).Some? && Staged(states[k], id).Some?
    ensures Fits(Staged(states[i], id).value, states[n].rows[id])
    ensures Staged(states[i], id).value.size == states[n].rows[id].fileSize
    ensures Staged(states[k], id).value.etag == Staged(states[i], id).value.etag
    ensures states[n].rows[id].key == DeliveryKey(id, states[n].rows[id])
    ensures forall m :: n <= m <= |steps| ==> Download(states[m], id) == Staged(states[k], id)
  {
    BoundLater(cfg, steps, states, n, n, id);
    l := CommittedAt(cfg, steps, states, n, id);
    i, j, k := CompletionHistory(cfg, steps, states, l, id);
    CopyWaits(cfg, steps, states, k, l, id);
    CommitAt(cfg, steps, states, l, id);
    StreamsAfter(cfg, steps, states, l, n, id);
    forall m | n <= m <= |steps|
      ensures Download(states[m], id) == Staged(states[k], id)
    {
      BoundLater(cfg, steps, states, n, m, id);
      StreamsAfter(cfg, steps, states, l, m, id);
    }
  }

  // ---------- When it is the version that was verified and scanned ----------

  // The last upload to the attachment's staging key from step i up to step k.
  function LastUpload(steps: seq<Step>, i: nat, k: nat, id: AttachmentId): Option<Blob>
    requires i <= k <= |steps|
    decreases k
  {
    if i == k then None
    else if steps[k - 1].Put? && steps[k - 1].id == id then Some(steps[k - 1].blob)
    else LastUpload(steps, i, k - 1, id)
  }

  lemma StagedStep(cfg: Settings, s: State, step: Step, id: AttachmentId)
    requires Keyed(cfg, s) && Enabled(cfg, s, step) && id in s.staging && Staged(Apply(cfg, s, step), id).Some?
    ensures Staged(Apply(cfg, s, step), id) == if step.Put? && step.id == id then Some(step.blob) else Staged(s, id)
  {
    ReservationStays(cfg, s, step, id);
  }

  lemma {:induction false} StagingStays(cfg: Settings, steps: seq<Step>, states: seq<State>, i: nat, k: nat, id: AttachmentId)
    requires cfg.Valid() && Trace(cfg, steps, states) && states[0] == EMPTY && i <= k <= |steps| && id in states[i].staging
    ensures id in states[k].staging
    decreases k
  {
    if i < k {
      StagingStays(cfg, steps, states, i, k - 1, id);
      TraceGood(cfg, steps, states, k - 1);
      assert Moves(cfg, states[k - 1], steps[k - 1], states[k]);
      ReservationStays(cfg, states[k - 1], steps[k - 1], id);
    }
  }

  lemma {:induction false} StagedSince(cfg: Settings, steps: seq<Step>, states: seq<State>, i: nat, k: nat, id: AttachmentId)
    requires cfg.Valid() && Trace(cfg, steps, states) && states[0] == EMPTY && i <= k <= |steps|
    requires id in states[i].staging && Staged(states[k], id).Some?
    ensures var last := LastUpload(steps, i, k, id);
            Staged(states[k], id) == if last.Some? then last else Staged(states[i], id)
    decreases k
  {
    if i < k {
      StagingStays(cfg, steps, states, i, k - 1, id);
      TraceGood(cfg, steps, states, k - 1);
      assert Moves(cfg, states[k - 1], steps[k - 1], states[k]);
      StagedStep(cfg, states[k - 1], steps[k - 1], id);
      if !(steps[k - 1].Put? && steps[k - 1].id == id) {
        StagedSince(cfg, steps, states, i, k - 1, id);
      }
    }
  }

  // Whatever is stored was uploaded.
  lemma {:induction false} StoredWasPut(cfg: Settings, steps: seq<Step>, states: seq<State>, n: nat, key: StorageKey)
      returns (p: nat)
    requires Trace(cfg, steps, states) && states[0] == EMPTY && n <= |steps| && key in states[n].storage
    ensures p < n && steps[p].Put? && steps[p].blob == states[n].storage[key]
  {
    p := n - 1;
    var s, step := states[p], steps[p];
    assert Moves(cfg, s, step, states[n]);
    if !(step.Put? && key == s.staging[step.id]) {
      if step.Copy? && key == DeliveryKey(step.id, s.rows[step.id]) {
        p := StoredWasPut(cfg, steps, states, n - 1, s.rows[step.id].key);
      } else {
        p := StoredWasPut(cfg, steps, states, n - 1, key);
      }
    }
  }

  predicate SameBytes(a: Blob, b: Blob) {
    a.size == b.size && a.content == b.content
  }

  // Two uploads with one ETag have the same bytes.
  predicate NamedAlike(a: Step, b: Step) {
    a.Put? && b.Put? && a.blob.etag == b.blob.etag ==> SameBytes(a.blob, b.blob)
  }

  // The store names bytes: equal ETags mean equal bytes, under whatever content type.
  predicate NamesBytes(steps: seq<Step>) {
    forall p, q :: 0 <= p < |steps| && 0 <= q < |steps| ==> NamedAlike(steps[p], steps[q])
  }

  /**
   * With ETags that name bytes, the download streams the bytes whose size was verified. It has the verified type
   * if and only if the last upload between stat and copy, if there was one, has that type; and it streams the
   * bytes that were scanned if and only if the last upload between stat and scan, if there was one, has the
   * verified bytes.
   */
  lemma {:induction false} DeliveredBytes(cfg: Settings, steps: seq<Step>, states: seq<State>, n: nat, id: AttachmentId)
      returns (i: nat, j: nat, k: nat, l: nat)
    requires cfg.Valid() && Trace(cfg, steps, states) && states[0] == EMPTY && n <= |steps| && NamesBytes(steps)
    requires id in states[n].rows && states[n].rows[id].message.Some?
    ensures Completed(steps, id, i, j, k, l) && l < n
    ensures Staged(states[i], id).Some? && Staged(states[j], id).Some? && Download(states[n], id).Some?
    ensures Fits(Staged(states[i], id).value, states[n].rows[id])
    ensures SameBytes(Download(states[n], id).value, Staged(states[i], id).value)
    ensures Fits(Download(states[n], id).value, states[n].rows[id]) <==>
              var last := LastUpload(steps, i, k, id);
              last.Some? ==> BaseType(last.value.contentType) == states[n].rows[id].mimeType
    ensures SameBytes(Download(states[n], id).value, Staged(states[j], id).value) <==>
              var last := LastUpload(steps, i, j, id);
              last.Some? ==> SameBytes(last.value, Staged(states[i], id).value)
  {
    i, j, k, l := DownloadIsVerified(cfg, steps, states, n, id);
    StagedSince(cfg, steps, states, i, j, id);
    StagedSince(cfg, steps, states, i, k, id);
    StagingStays(cfg, steps, states, i, k, id);
    var p := StoredWasPut(cfg, steps, states, i, states[i].staging[id]);
    var q := StoredWasPut(cfg, steps, states, k, states[k].staging[id]);
    assert NamedAlike(steps[p], steps[q]);
  }

  // A store that gives every upload a new ETag.
  predicate FreshEtags(steps: seq<Step>) {
    forall p, q :: 0 <= p < q < |steps| && steps[p].Put? && steps[q].Put? ==> steps[p].blob.etag != steps[q].blob.etag
  }

  lemma {:induction false} LastUploadAt(steps: seq<Step>, i: nat, k: nat, id: AttachmentId) returns (q: nat)
    requires i <= k <= |steps| && LastUpload(steps, i, k, id).Some?
    ensures i <= q < k && steps[q].Put? && Some(steps[q].blob) == LastUpload(steps, i, k, id)
    decreases k
  {
    q := k - 1;
    if !(steps[q].Put? && steps[q].id == id) {
      q := LastUploadAt(steps, i, k - 1, id);
    }
  }

  lemma {:induction false} NoUploadBefore(steps: seq<Step>, i: nat, j: nat, k: nat, id: AttachmentId)
    requires i <= j <= k <= |steps| && LastUpload(steps, i, k, id).None?
    ensures LastUpload(steps, i, j, id).None?
    decreases k
  {
    if j < k {
      NoUploadBefore(steps, i, j, k - 1, id);
    }
  }

  /** If every upload gets a new ETag, a download streams the very version that was verified and scanned. */
  lemma {:induction false} FreshEtagsSuffice(cfg: Settings, steps: seq<Step>, states: seq<State>, n: nat, id: AttachmentId)
      returns (i: nat, j: nat, k: nat, l: nat)
    requires cfg.Valid() && Trace(cfg, steps, states) && states[0] == EMPTY && n <= |steps| && FreshEtags(steps)
    requires id in states[n].rows && states[n].rows[id].message.Some?
    ensures Completed(steps, id, i, j, k, l) && l < n
    ensures Download(states[n], id).Some? && Fits(Download(states[n], id).value, states[n].rows[id])
    ensures Download(states[n], id) == Staged(states[i], id) == Staged(states[j], id)
  {
    i, j, k, l := DownloadIsVerified(cfg, steps, states, n, id);
    StagedSince(cfg, steps, states, i, j, id);
    StagedSince(cfg, steps, states, i, k, id);
    var p := StoredWasPut(cfg, steps, states, i, states[i].staging[id]);
    if LastUpload(steps, i, k, id).Some? {
      var q := LastUploadAt(steps, i, k, id);
      assert false;
    }
    NoUploadBefore(steps, i, j, k, id);
  }

  // ---------- Runs in which it is not ----------

  const STAGING := PendingKey(0, 0, 0, "")
  const DELIVERY := ObjectKey(0, 0, 0, "")

  function RowFor(first: Blob): Row {
    Row(0, 0, None, "", BaseType(first.contentType), first.size, STAGING, 0, None)
  }

  function FinalFor(first: Blob): Row {
    RowFor(first).(key := DELIVERY, uploadedAt := Some(0))
  }

  const INFO := MessageInfo(0, 0, [0])

  // One attachment is uploaded, verified, uploaded again, scanned, uploaded again, copied, finalized and bound.
  function SwapSteps(first: Blob, atScan: Blob, atCopy: Blob): seq<Step> {
    [Reserve(0, RowFor(first), 1), Put(0, first), Stat(0), Put(0, atScan), Scan(0), Put(0, atCopy), Copy(0), Commit(0),
     Bind(0, INFO)]
  }

  function Between(first: Blob, storage: map<StorageKey, Blob>, completing: map<AttachmentId, Completion>): State {
    State(map[0 := RowFor(first)], storage, completing, {}, map[], map[0 := 1], map[0 := STAGING], {}, 0)
  }

  function Swapped(first: Blob, atCopy: Blob): map<StorageKey, Blob> {
    map[STAGING := atCopy, DELIVERY := atCopy]
  }

  function SwapStates(first: Blob, atScan: Blob, atCopy: Blob): seq<State> {
    [EMPTY, Between(first, map[], map[]), Between(first, map[STAGING := first], map[]),
     Between(first, map[STAGING := first], map[0 := Statted(first)]),
     Between(first, map[STAGING := atScan], map[0 := Statted(first)]),
     Between(first, map[STAGING := atScan], map[0 := Scanned(first)]),
     Between(first, map[STAGING := atCopy], map[0 := Scanned(first)]),
     Between(first, Swapped(first, atCopy), map[0 := Copied(first)]),
     Between(first, Swapped(first, atCopy), map[]).(rows := map[0 := FinalFor(first)], removals := {STAGING}),
     Between(first, Swapped(first, atCopy), map[]).(rows := map[0 := FinalFor(first).(message := Some(0))],
                                                    removals := {STAGING}, messages := map[0 := INFO])]
  }

  /**
   * Any three versions occur: one that is verified, one that is scanned, and one that is delivered, as long as
   * the last has the ETag of the first.
   */
  lemma {:induction false} SwapRuns(cfg: Settings, first: Blob, atScan: Blob, atCopy: Blob)
    requires cfg.Valid() && first.etag == atCopy.etag
    ensures Trace(cfg, SwapSteps(first, atScan, atCopy), SwapStates(first, atScan, atCopy))
    ensures Completed(SwapSteps(first, atScan, atCopy), 0, 2, 4, 6, 7)
    ensures var states := SwapStates(first, atScan, atCopy);
            && Staged(states[2], 0) == Some(first) && Staged(states[4], 0) == Some(atScan)
            && states[9].rows[0].message.Some? && Download(states[9], 0) == Some(atCopy)
            && states[9].rows[0].mimeType == BaseType(first.contentType)
  {
    var steps, states := SwapSteps(first, atScan, atCopy), SwapStates(first, atScan, atCopy);
    SwapStart(cfg, first, atScan, atCopy);
    SwapMiddle(cfg, first, atScan, atCopy);
    SwapEnd(cfg, first, atScan, atCopy);
    SwapBound(cfg, first, atScan, atCopy);
    forall k | 0 <= k < |steps|
      ensures Moves(cfg, states[k], steps[k], states[k + 1])
    {
      assert k < 3 || 3 <= k < 6 || 6 <= k;
    }
  }

  lemma SwapStart(cfg: Settings, first: Blob, atScan: Blob, atCopy: Blob)
    requires cfg.Valid()
    ensures var steps, states := SwapSteps(first, atScan, atCopy), SwapStates(first, atScan, atCopy);
            && Moves(cfg, states[0], steps[0], states[1]) && Moves(cfg, states[1], steps[1], states[2])
            && Moves(cfg, states[2], steps[2], states[3])
  {
  }

  lemma SwapMiddle(cfg: Settings, first: Blob, atScan: Blob, atCopy: Blob)
    requires cfg.Valid()
    ensures var steps, states := SwapSteps(first, atScan, atCopy), SwapStates(first, atScan, atCopy);
            && Moves(cfg, states[3], steps[3], states[4]) && Moves(cfg, states[4], steps[4], states[5])
            && Moves(cfg, states[5], steps[5], states[6])
  {
  }

  lemma SwapEnd(cfg: Settings, first: Blob, atScan: Blob, atCopy: Blob)
    requires cfg.Valid() && first.etag == atCopy.etag
    ensures var steps, states := SwapSteps(first, atScan, atCopy), SwapStates(first, atScan, atCopy);
            Moves(cfg, states[6], steps[6], states[7]) && Moves(cfg, states[7], steps[7], states[8])
  {
    var s := SwapStates(first, atScan, atCopy)[7];
    assert s.completing - {0} == map[];
  }

  lemma SwapBound(cfg: Settings, first: Blob, atScan: Blob, atCopy: Blob)
    requires cfg.Valid()
    ensures var steps, states := SwapSteps(first, atScan, atCopy), SwapStates(first, atScan, atCopy);
            Moves(cfg, states[8], steps[8], states[9])
  {
    var t := SwapStates(first, atScan, atCopy)[8];
    assert BoundRows(t.rows, 0, [0]) == map[0 := FinalFor(first).(message := Some(0))];
  }

  lemma SwapNames(first: Blob, atScan: Blob, atCopy: Blob)
    requires SameBytes(first, atCopy) && (atScan.etag == first.etag || atScan.etag == atCopy.etag ==> SameBytes(first, atScan))
    ensures NamesBytes(SwapSteps(first, atScan, atCopy))
  {
  }

  /**
   * The same bytes uploaded again under another type, between stat and copy, are delivered under that type,
   * for any two types, although the ETags name the bytes.
   */
  lemma {:induction false} TypeSwapped(cfg: Settings, first: Blob, atCopy: Blob)
    requires cfg.Valid() && first.etag == atCopy.etag && SameBytes(first, atCopy)
    requires BaseType(first.contentType) != BaseType(atCopy.contentType)
    ensures Trace(cfg, SwapSteps(first, first, atCopy), SwapStates(first, first, atCopy))
    ensures NamesBytes(SwapSteps(first, first, atCopy))
    ensures var d := SwapStates(first, first, atCopy)[9];
            d.rows[0].message.Some? && Download(d, 0) == Some(atCopy) && !Fits(atCopy, d.rows[0])
  {
    SwapRuns(cfg, first, first, atCopy);
    SwapNames(first, first, atCopy);
  }

  /**
   * Other bytes that are staged only while the scan reads are what is scanned, and the bytes that were verified,
   * uploaded once more, are delivered without a scan, although the ETags name the bytes.
   */
  lemma {:induction false} ScanSwapped(cfg: Settings, first: Blob, other: Blob)
    requires cfg.Valid() && first.etag != other.etag && !SameBytes(first, other)
    ensures Trace(cfg, SwapSteps(first, other, first), SwapStates(first, other, first))
    ensures NamesBytes(SwapSteps(first, other, first)) && Completed(SwapSteps(first, other, first), 0, 2, 4, 6, 7)
    ensures var states := SwapStates(first, other, first);
            && states[9].rows[0].message.Some? && Download(states[9], 0) == Some(first)
            && Staged(states[4], 0) == Some(other)
  {
    SwapRuns(cfg, first, other, first);
    SwapNames(first, other, first);
  }

  /** There are such types: all plain ones are told apart. */
  lemma {:induction false} PlainTypesDiffer(a: string, b: string)
    requires IsPlain(a) && IsPlain(b)
    ensures BaseType(a) == BaseType(b) <==> a == b
  {
    assert [] + a + [] == a && [] + b + [] == b;
    ParametersIgnored([], a, [], []);
    ParametersIgnored([], b, [], []);
  }

  // In a good state a bound attachment can be downloaded.
  lemma DownloadInGood(cfg: Settings, s: State, id: AttachmentId)
    requires Good(cfg, s) && id in s.rows && s.rows[id].message.Some?
    ensures id in s.urls && s.rows[id].uploadedAt.Some? && s.rows[id].key == DeliveryKey(id, s.rows[id])
    ensures s.rows[id].key in s.storage && Download(s, id) == Some(s.storage[s.rows[id].key])
  {
    assert BoundRow(s, id);
    assert FinalizedRow(s, id);
    assert RowKeyed(cfg, s, id);
  }
  // ---------- Bind once ----------

  /**
   * In every run an attachment belongs to at most one message, and the attachments of every message
   * are distinct, finalized, from its sender and for its conversation; what is bound stays bound to
   * the same message.
   */
  lemma {:induction false} BoundOnce(cfg: Settings, before: seq<Step>, after: seq<Step>, m: MessageId, n: MessageId, id: AttachmentId)
    requires cfg.Valid() && Legal(cfg, EMPTY, before) && Legal(cfg, Run(cfg, EMPTY, before), after)
    requires m in Run(cfg, EMPTY, before).messages && id in Run(cfg, EMPTY, before).messages[m].attachments
    ensures var s := Run(cfg, EMPTY, before);
            && Distinct(s.messages[m].attachments)
            && id in s.rows && s.rows[id].uploadedAt.Some?
            && s.rows[id].conversation == s.messages[m].conversation && s.rows[id].uploader == s.messages[m].sender
    ensures var d := Run(cfg, Run(cfg, EMPTY, before), after);
            && id in d.rows && d.rows[id].message == Some(m)
            && (n in d.messages && id in d.messages[n].attachments ==> n == m)
  {
    var s := Run(cfg, EMPTY, before);
    EmptyGood(cfg);
    RunGood(cfg, EMPTY, before);
    BoundInGood(cfg, s, m, id);
    BindingStays(cfg, s, after, m, n, id);
  }

  lemma BoundInGood(cfg: Settings, s: State, m: MessageId, id: AttachmentId)
    requires Good(cfg, s) && m in s.messages && id in s.messages[m].attachments
    ensures Distinct(s.messages[m].attachments)
    ensures id in s.rows && s.rows[id].uploadedAt.Some? && s.rows[id].message == Some(m) && id in s.urls
    ensures s.rows[id].conversation == s.messages[m].conversation && s.rows[id].uploader == s.messages[m].sender
  {
    assert Named(s, m, id);
    assert RowKeyed(cfg, s, id);
  }

  lemma BindingStays(cfg: Settings, s: State, after: seq<Step>, m: MessageId, n: MessageId, id: AttachmentId)
    requires cfg.Valid() && Good(cfg, s) && Legal(cfg, s, after)
    requires id in s.urls && id in s.rows && s.rows[id].message == Some(m)
    ensures var d := Run(cfg, s, after);
            && id in d.rows && d.rows[id].message == Some(m)
            && (n in d.messages && id in d.messages[n].attachments ==> n == m)
  {
    RunGood(cfg, s, after);
    DeliveryIsImmutable(cfg, s, after, id);
    var d := Run(cfg, s, after);
    if n in d.messages && id in d.messages[n].attachments {
      BoundInGood(cfg, d, n, id);
    }
  }

  // ---------- Clean-up ----------

  // The rows clean-up may take for a cutoff.
  function Eligible(rows: map<AttachmentId, Row>, cutoff: Time): set<AttachmentId> {
    set id | id in rows && Abandoned(rows[id], cutoff)
  }

  /**
   * For a cutoff that has passed, no run ever makes another row eligible: a new reservation is younger, and a
   * bound row is never released.
   */
  lemma {:induction false} EligibleShrinks(cfg: Settings, s: State, steps: seq<Step>, cutoff: Time)
    requires Legal(cfg, s, steps) && cutoff <= s.now
    ensures Eligible(Run(cfg, s, steps).rows, cutoff) <= Eligible(s.rows, cutoff)
    decreases |steps|
  {
    if steps != [] {
      EligibleStep(cfg, s, steps[0], cutoff);
      EligibleShrinks(cfg, Apply(cfg, s, steps[0]), steps[1..], cutoff);
    }
  }

  lemma EligibleStep(cfg: Settings, s: State, step: Step, cutoff: Time)
    requires Enabled(cfg, s, step) && cutoff <= s.now
    ensures Eligible(Apply(cfg, s, step).rows, cutoff) <= Eligible(s.rows, cutoff) && s.now <= Apply(cfg, s, step).now
  {
    forall id | id in Eligible(Apply(cfg, s, step).rows, cutoff) { EligibleBefore(cfg, s, step, cutoff, id); }
  }

  lemma EligibleBefore(cfg: Settings, s: State, step: Step, cutoff: Time, id: AttachmentId)
    requires Enabled(cfg, s, step) && cutoff <= s.now && id in Eligible(Apply(cfg, s, step).rows, cutoff)
    ensures id in Eligible(s.rows, cutoff)
  {
    RowEffect(cfg, s, step, id);
  }

  /**
   * A reservation that is cleaned up without ever having been completed leaves nothing behind: its
   * staging key is empty in every later state, since its upload URL has expired before it was old
   * enough, for every setting within the configured bounds.
   */
  lemma {:induction false} CleanedStaysGone(cfg: Settings, before: seq<Step>, after: seq<Step>, ids: set<AttachmentId>,
                                            cutoff: Time, id: AttachmentId)
    requires cfg.Valid() && Legal(cfg, EMPTY, before)
    requires var s := Run(cfg, EMPTY, before);
             && Enabled(cfg, s, CleanUp(ids, cutoff)) && id in ids && s.rows[id].uploadedAt.None?
             && Legal(cfg, Apply(cfg, s, CleanUp(ids, cutoff)), after)
    ensures var s := Run(cfg, EMPTY, before);
            var d := Run(cfg, Apply(cfg, s, CleanUp(ids, cutoff)), after);
            && id !in d.rows && StagingKey(id, s.rows[id]) !in d.storage
            && id in s.urls && s.urls[id] < s.now
  {
    var s := Run(cfg, EMPTY, before);
    EmptyGood(cfg);
    RunGood(cfg, EMPTY, before);
    assert RowKeyed(cfg, s, id);
    var e := Apply(cfg, s, CleanUp(ids, cutoff));
    StepGood(cfg, s, CleanUp(ids, cutoff));
    assert id in e.gone;
    GoneForGood(cfg, e, after, id);
  }

  lemma {:induction false} GoneForGood(cfg: Settings, s: State, steps: seq<Step>, id: AttachmentId)
    requires cfg.Valid() && Good(cfg, s) && id in s.gone && Legal(cfg, s, steps)
    ensures var d := Run(cfg, s, steps);
            id !in d.rows && id in s.staging && s.staging[id] !in d.storage
    decreases |steps|
  {
    if steps != [] {
      StepGood(cfg, s, steps[0]);
      var d := Apply(cfg, s, steps[0]);
      assert d.staging[id] == s.staging[id];
      GoneForGood(cfg, d, steps[1..], id);
    }
  }
}
