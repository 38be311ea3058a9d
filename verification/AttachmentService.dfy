/** The attachment transactions as they run: completing an upload, binding to a message, and cleaning up. */
module AttachmentService {
  import opened Basics
  import opened Attachments

  datatype CreateError =
    | ConversationNotFound | AccessDenied | EmptyMessage | TooManyAttachments | DuplicateAttachments | InvalidAttachments

  datatype CreateResult = Created(info: MessageInfo) | Rejected(error: CreateError)

  datatype CompleteError =
    | AttachmentNotFound | NoConversation | NotAMember | NotUploaded | SizeMismatch | TypeMismatch
    | ScanFailed | ScanRefused | CopyFailed | Changed

  datatype CompleteResult = Completed(row: Row) | Refused(error: CompleteError)

  predicate Blank(s: string) {
    forall k :: 0 <= k < |s| ==> IsSpace(s[k])
  }

  predicate AllBindable(rows: map<AttachmentId, Row>, info: MessageInfo) {
    forall id :: id in info.attachments ==> id in rows && Bindable(rows[id], info)
  }

  // The sender's own upload for the conversation, completed and not yet in a message.
  predicate FreeFor(r: Row, conversation: ConversationId, sender: UserId) {
    r.conversation == conversation && r.uploader == sender && r.uploadedAt.Some? && r.message.None?
  }

  // A legal listing of abandoned rows: the oldest first, rows locked by others skipped.
  ghost predicate IsListing(rows: map<AttachmentId, Row>, cutoff: Time, limit: nat, locked: set<AttachmentId>,
                            batch: seq<AttachmentId>) {
    var all := Eligible(rows, cutoff) - locked;
    && Distinct(batch) && (forall id :: id in batch ==> id in all)
    && |batch| == Min(limit, |all|)
    && forall a, b :: a in batch && b in all && b !in batch ==> rows[a].createdAt <= rows[b].createdAt
  }

  // The listed rows whose object can be removed, and where their objects are.
  function Removable(rows: map<AttachmentId, Row>, batch: seq<AttachmentId>, failing: set<StorageKey>): set<AttachmentId> {
    set id | id in batch && id in rows && rows[id].key !in failing
  }

  function KeysOf(rows: map<AttachmentId, Row>, ids: set<AttachmentId>): set<StorageKey> {
    set id | id in ids && id in rows :: rows[id].key
  }

  lemma OneMore(rows: map<AttachmentId, Row>, batch: seq<AttachmentId>, failing: set<StorageKey>, k: nat)
    requires k < |batch| && Distinct(batch) && batch[k] in rows
    ensures batch[k] !in Removable(rows, batch[..k], failing)
    ensures Removable(rows, batch[..k + 1], failing)
         == Removable(rows, batch[..k], failing) + if rows[batch[k]].key in failing then {} else {batch[k]}
    ensures KeysOf(rows, Removable(rows, batch[..k], failing) + {batch[k]})
         == KeysOf(rows, Removable(rows, batch[..k], failing)) + {rows[batch[k]].key}
  {
    assert batch[..k + 1] == batch[..k] + [batch[k]];
  }

  lemma OneMoreRemoved(rows: map<AttachmentId, Row>, stored: map<StorageKey, Blob>, batch: seq<AttachmentId>,
                       failing: set<StorageKey>, k: nat)
    requires k < |batch| && Distinct(batch) && batch[k] in rows
    ensures var id, d, e := batch[k], Removable(rows, batch[..k], failing), Removable(rows, batch[..k + 1], failing);
            && id in rows - d
            && if rows[id].key in failing then e == d
               else
                 && |e| == |d| + 1 && (rows - d) - {id} == rows - e
                 && (stored - KeysOf(rows, d)) - {rows[id].key} == stored - KeysOf(rows, e)
  {
    var id, d, e := batch[k], Removable(rows, batch[..k], failing), Removable(rows, batch[..k + 1], failing);
    OneMore(rows, batch, failing, k);
    if rows[id].key !in failing {
      assert e == d + {id};
      MinusOne(rows, d, id);
      assert KeysOf(rows, e) == KeysOf(rows, d) + {rows[id].key};
      MinusOne(stored, KeysOf(rows, d), rows[id].key);
    }
  }

  lemma MinusOne<K, V>(m: map<K, V>, gone: set<K>, k: K)
    ensures (m - gone) - {k} == m - (gone + {k})
  {
  }

  // What a round deletes was eligible and not locked, and the rest stays eligible.
  lemma RoundDeletes(rows: map<AttachmentId, Row>, cutoff: Time, locked: set<AttachmentId>, failing: set<StorageKey>,
                     batch: seq<AttachmentId>)
    requires IsListing(rows, cutoff, BATCH, locked, batch)
    ensures Removable(rows, batch, failing) <= Eligible(rows, cutoff) - locked
    ensures Eligible(rows - Removable(rows, batch, failing), cutoff) == Eligible(rows, cutoff) - Removable(rows, batch, failing)
  {
  }

  lemma Without(all: set<AttachmentId>, gone: set<AttachmentId>)
    requires gone <= all
    ensures |all - gone| == |all| - |gone|
  {
    assert all == (all - gone) + gone;
  }

  // One round of clean-up on what is eligible.
  lemma RoundEffect(rows: map<AttachmentId, Row>, cutoff: Time, locked: set<AttachmentId>, failing: set<StorageKey>,
                    batch: seq<AttachmentId>)
    requires IsListing(rows, cutoff, 100, locked, batch)
    ensures var gone, all := Removable(rows, batch, failing), Eligible(rows, cutoff);
            && gone <= all - locked
            && Eligible(rows - gone, cutoff) == all - gone
            && |all - gone| == |all| - |gone|
            && (|gone| < 100 && locked == {} && failing == {} ==> all - gone == {})
  {
    RoundDeletes(rows, cutoff, locked, failing, batch);
    Without(Eligible(rows, cutoff), Removable(rows, batch, failing));
    if failing == {} && locked == {} && |Removable(rows, batch, failing)| < BATCH {
      ShortRound(rows, cutoff, batch);
    }
  }

  // Without failures and locks, a batch that is not full is all there is.
  lemma ShortRound(rows: map<AttachmentId, Row>, cutoff: Time, batch: seq<AttachmentId>)
    requires IsListing(rows, cutoff, BATCH, {}, batch) && |Removable(rows, batch, {})| < BATCH
    ensures Removable(rows, batch, {}) == Eligible(rows, cutoff)
  {
    var gone, all := Removable(rows, batch, {}), Eligible(rows, cutoff);
    assert all - {} == all;
    assert gone == Elements(batch);
    DistinctSize(batch);
    SubsetSize(gone, all);
  }

  lemma NotEligible(rows: map<AttachmentId, Row>, cutoff: Time)
    ensures forall id :: id in rows ==> (id !in Eligible(rows, cutoff) <==> rows[id].message.Some? || cutoff <= rows[id].createdAt)
  {
  }

  // The lock of the clean-up workers: the token of its holder.
  type Lock = Option<nat>

  const BATCH := 100

  class Service {
    var members: map<ConversationId, set<UserId>>
    var rows: map<AttachmentId, Row>
    var storage: map<StorageKey, Blob>
    var messages: map<MessageId, MessageInfo>
    var lock: Lock
    const maxPerMessage: nat

    constructor (members: map<ConversationId, set<UserId>>, maxPerMessage: nat)
      ensures this.members == members && rows == map[] && storage == map[] && messages == map[] && lock == None
      ensures this.maxPerMessage == maxPerMessage
    {
      this.members, this.maxPerMessage := members, maxPerMessage;
      rows, storage, messages, lock := map[], map[], map[], None;
    }

    // Creating a message, up to its commit.
    method CreateMessage(message: MessageId, conversation: ConversationId, sender: UserId, content: string,
                         ids: seq<AttachmentId>) returns (result: CreateResult)
      modifies this
      ensures members == old(members) && storage == old(storage) && lock == old(lock)
      ensures result.Rejected? ==> rows == old(rows) && messages == old(messages)
      ensures var info := MessageInfo(conversation, sender, ids);
              && (result == Rejected(ConversationNotFound) <==> conversation !in members)
              && (result == Rejected(AccessDenied) <==> conversation in members && sender !in members[conversation])
              && (result.Created? <==>
                    && conversation in members && sender in members[conversation]
                    && (!Blank(content) || ids != []) && |ids| <= maxPerMessage && Distinct(ids)
                    && AllBindable(old(rows), info))
              && (result.Created? ==>
                    && result.info == info && messages == old(messages)[message := info]
                    && rows == BoundRows(old(rows), message, ids))
              && (conversation in members && sender in members[conversation] ==>
                    && (result == Rejected(EmptyMessage) <==> Blank(content) && ids == [])
                    && (result == Rejected(TooManyAttachments) <==> |ids| > maxPerMessage)
                    && (result == Rejected(DuplicateAttachments) <==> |ids| <= maxPerMessage && !Distinct(ids))
                    && (result == Rejected(InvalidAttachments) <==>
                          |ids| <= maxPerMessage && Distinct(ids) && !AllBindable(old(rows), info)))
      ensures result.Created? ==> forall id :: id in ids ==> id in old(rows) && FreeFor(old(rows)[id], conversation, sender)
      ensures result == Rejected(InvalidAttachments) ==>
                exists id :: id in ids && !(id in old(rows) && FreeFor(old(rows)[id], conversation, sender))
      ensures rows.Keys == old(rows).Keys
      ensures result.Created? ==> forall id :: id in rows ==>
                rows[id] == if id in ids then old(rows)[id].(message := Some(message)) else old(rows)[id]
    {
      if conversation !in members {
        return Rejected(ConversationNotFound);
      }
      if sender !in members[conversation] {
        return Rejected(AccessDenied);
      }
      if TrimRight(TrimLeft(content)) == [] && ids == [] {
        TrimmedBlank(content);
        return Rejected(EmptyMessage);
      }
      TrimmedBlank(content);
      if |ids| > maxPerMessage {
        return Rejected(TooManyAttachments);
      }
      if |Elements(ids)| != |ids| {
        if Distinct(ids) {
          DistinctSize(ids);
          assert false;
        }
        return Rejected(DuplicateAttachments);
      }
      SizeDistinct(ids);
      var info := MessageInfo(conversation, sender, ids);
      var k := 0;
      while k < |ids|
        invariant 0 <= k <= |ids| && rows == old(rows) && messages == old(messages)
        invariant forall j :: 0 <= j < k ==> ids[j] in rows && Bindable(rows[ids[j]], info)
      {
        if ids[k] !in rows || !Bindable(rows[ids[k]], info) {
          assert ids[k] in info.attachments;
          return Rejected(InvalidAttachments);
        }
        k := k + 1;
      }
      BindAll(message, ids);
      messages := messages[message := info];
      result := Created(info);
    }

    // Give every listed row the message.
    method BindAll(message: MessageId, ids: seq<AttachmentId>)
      requires forall id :: id in ids ==> id in rows
      modifies this`rows
      ensures rows == BoundRows(old(rows), message, ids)
    {
      var k := 0;
      while k < |ids|
        invariant 0 <= k <= |ids| && rows.Keys == old(rows).Keys
        invariant forall id :: id in rows ==>
                    rows[id] == if id in ids[..k] then old(rows)[id].(message := Some(message)) else old(rows)[id]
      {
        assert ids[..k + 1] == ids[..k] + [ids[k]];
        rows := rows[ids[k] := rows[ids[k]].(message := Some(message))];
        k := k + 1;
      }
      assert ids[..|ids|] == ids;
    }

    // Uploaders may replace staging objects between any two commands of a completion.
    method OtherUploads()
      modifies this`storage
      ensures forall key: StorageKey :: key.ObjectKey? ==> (key in storage <==> key in old(storage))
      ensures forall key: StorageKey :: key.ObjectKey? && key in storage ==> storage[key] == old(storage)[key]
    {
    }

    // The delivery objects but perhaps one.
    twostate predicate OthersDelivered(but: StorageKey)
      reads this
    {
      forall key: StorageKey :: key.ObjectKey? && key != but ==>
        (key in storage <==> key in old(storage)) && (key in storage ==> storage[key] == old(storage)[key])
    }

    // Scan the staging object, then copy it unless it has changed; uploads may come before each.
    method ScanAndCopy(sourceKey: StorageKey, finalKey: StorageKey, etag: ETag, scanner: Option<Blob -> bool>)
        returns (error: Option<CompleteError>, ghost scanned: Option<Blob>, ghost copied: Option<Blob>)
      modifies this`storage
      ensures OthersDelivered(finalKey)
      ensures error == Some(ScanFailed) ==> scanner.Some? && scanned == None
      ensures error == Some(ScanRefused) ==> scanner.Some? && scanned.Some? && !scanner.value(scanned.value)
      ensures error == Some(CopyFailed) ==> copied == None
      ensures error == Some(Changed) ==> copied.Some? && copied.value.etag != etag
      ensures error.None? ==>
                && finalKey in storage && copied == Some(storage[finalKey]) && copied.value.etag == etag
                && (scanner.Some? ==> scanned.Some? && scanner.value(scanned.value))
      ensures error.Some? ==> error.value in {ScanFailed, ScanRefused, CopyFailed, Changed}
    {
      error, scanned, copied := None, None, None;
      OtherUploads();
      if scanner.Some? {
        if sourceKey !in storage {
          return Some(ScanFailed), None, None;
        }
        scanned := Some(storage[sourceKey]);
        if !scanner.value(storage[sourceKey]) {
          return Some(ScanRefused), scanned, None;
        }
      }
      OtherUploads();
      if sourceKey !in storage {
        return Some(CopyFailed), scanned, None;
      }
      copied := Some(storage[sourceKey]);
      if storage[sourceKey].etag != etag {
        return Some(Changed), scanned, copied;
      }
      storage := storage[finalKey := storage[sourceKey]];
    }

    // A row that is not finalized names its staging object.
    ghost predicate Staged()
      reads this
    {
      forall id :: id in rows && rows[id].uploadedAt.None? ==> rows[id].key == StagingKey(id, rows[id])
    }

    // Completing an upload. `scanner` is the verdict on what it reads, or None when scanning is disabled; removing
    // an object under a key in `failing` raises, which is only logged. `scanned` and `copied` are what the scan
    // and the copy found under the staging key.
    method Complete(id: AttachmentId, user: UserId, scanner: Option<Blob -> bool>, failing: set<StorageKey>, now: Time)
        returns (result: CompleteResult, meta: Option<Blob>, ghost scanned: Option<Blob>, ghost copied: Option<Blob>)
      requires Staged()
      modifies this`rows, this`storage
      ensures result == Refused(AttachmentNotFound) <==> id !in old(rows) || old(rows)[id].uploader != user
      ensures id in old(rows) && old(rows)[id].uploader == user ==>
                var row := old(rows)[id];
                && (result == Refused(NoConversation) <==> row.conversation !in members)
                && (result == Refused(NotAMember) <==> row.conversation in members && user !in members[row.conversation])
                && (row.conversation in members && user in members[row.conversation] && row.uploadedAt.None? ==>
                      && (result == Refused(NotUploaded) <==> row.key !in old(storage))
                      && (result == Refused(SizeMismatch) <==>
                            row.key in old(storage) && old(storage)[row.key].size != row.fileSize)
                      && (result == Refused(TypeMismatch) <==>
                            && row.key in old(storage) && old(storage)[row.key].size == row.fileSize
                            && BaseType(old(storage)[row.key].contentType) != row.mimeType))
      ensures Staged() && members == old(members)
      ensures result == Refused(ScanFailed) ==> scanner.Some? && scanned == None
      ensures result == Refused(ScanRefused) ==> scanner.Some? && scanned.Some? && !scanner.value(scanned.value)
      ensures result == Refused(CopyFailed) ==> copied == None
      ensures result == Refused(Changed) ==> meta.Some? && copied.Some? && copied.value.etag != meta.value.etag
      ensures result.Refused? ==> rows == old(rows)
      ensures result.Completed? ==> id in old(rows) && id in rows && result.row == rows[id]
      ensures result.Completed? && old(rows)[id].uploadedAt.Some? ==> rows == old(rows) && storage == old(storage)
      ensures result.Completed? && old(rows)[id].uploadedAt.None? ==>
                var row := old(rows)[id].(key := DeliveryKey(id, old(rows)[id]), uploadedAt := Some(now));
                && rows == old(rows)[id := row]
                && old(rows)[id].key in old(storage) && meta == Some(old(storage)[old(rows)[id].key])
                && Fits(meta.value, old(rows)[id])
                && row.key == ObjectKey(old(rows)[id].conversation, old(rows)[id].uploader, id, old(rows)[id].suffix)
                && row.key in storage && storage[row.key].etag == meta.value.etag
                && copied == Some(storage[row.key])
                && (scanner.Some? ==> scanned.Some? && scanner.value(scanned.value))
                && (old(rows)[id].key !in failing ==> old(rows)[id].key !in storage)
      ensures forall key: StorageKey :: key.ObjectKey? && (id !in old(rows) || key != DeliveryKey(id, old(rows)[id])) ==>
                (key in storage <==> key in old(storage)) && (key in storage ==> storage[key] == old(storage)[key])
    {
      meta, scanned, copied := None, None, None;
      if id !in rows || rows[id].uploader != user {
        return Refused(AttachmentNotFound), None, None, None;
      }
      var row := rows[id];
      if row.conversation !in members {
        return Refused(NoConversation), None, None, None;
      }
      if user !in members[row.conversation] {
        return Refused(NotAMember), None, None, None;
      }
      if row.uploadedAt.Some? {
        return Completed(row), None, None, None;
      }
      if row.key !in storage {
        return Refused(NotUploaded), None, None, None;
      }
      meta := Some(storage[row.key]);
      if meta.value.size != row.fileSize {
        return Refused(SizeMismatch), meta, None, None;
      }
      if BaseType(meta.value.contentType) != row.mimeType {
        return Refused(TypeMismatch), meta, None, None;
      }
      var sourceKey, finalKey := row.key, DeliveryKey(id, row);
      var error;
      error, scanned, copied := ScanAndCopy(sourceKey, finalKey, meta.value.etag, scanner);
      if error.Some? {
        return Refused(error.value), meta, scanned, copied;
      }
      rows := rows[id := row.(key := finalKey, uploadedAt := Some(now))];
      OtherUploads();
      if sourceKey !in failing {
        storage := storage - {sourceKey};
      }
      result := Completed(rows[id]);
    }

    method ListAbandoned(cutoff: Time, limit: nat, locked: set<AttachmentId>) returns (batch: seq<AttachmentId>)
      ensures IsListing(rows, cutoff, limit, locked, batch)
      ensures forall id :: id in batch ==>
                id in rows && id !in locked && rows[id].message.None? && rows[id].createdAt < cutoff
      ensures |batch| < limit ==> forall id :: id in rows && id !in locked && id !in batch ==>
                rows[id].message.Some? || cutoff <= rows[id].createdAt
    {
      var rest := Eligible(rows, cutoff) - locked;
      ghost var all := rest;
      batch := [];
      while |batch| < limit && rest != {}
        invariant Distinct(batch) && |batch| <= limit && |batch| + |rest| == |all|
        invariant forall id :: id in all <==> id in batch || id in rest
        invariant forall id :: id in batch ==> id !in rest
        invariant forall a, b :: a in batch && b in rest ==> a in rows && b in rows && rows[a].createdAt <= rows[b].createdAt
        decreases |rest|
      {
        var oldest := Oldest(rest);
        assert |rest - {oldest}| == |rest| - 1;
        batch := batch + [oldest];
        rest := rest - {oldest};
      }
    }

    method Oldest(candidates: set<AttachmentId>) returns (oldest: AttachmentId)
      requires candidates != {} && candidates <= rows.Keys
      ensures oldest in candidates && forall id :: id in candidates ==> rows[oldest].createdAt <= rows[id].createdAt
    {
      oldest :| oldest in candidates;
      var rest := candidates - {oldest};
      while rest != {}
        invariant oldest in candidates && rest <= candidates
        invariant forall id :: id in candidates - rest ==> rows[oldest].createdAt <= rows[id].createdAt
        decreases |rest|
      {
        var next :| next in rest;
        if rows[next].createdAt < rows[oldest].createdAt {
          oldest := next;
        }
        rest := rest - {next};
      }
    }

    // Remove the object, then the row; a removal that raises leaves both.
    method RemoveOne(id: AttachmentId, failing: set<StorageKey>) returns (gone: bool)
      requires id in rows
      modifies this`rows, this`storage
      ensures gone == (old(rows)[id].key !in failing)
      ensures rows == if gone then old(rows) - {id} else old(rows)
      ensures storage == if gone then old(storage) - {old(rows)[id].key} else old(storage)
    {
      var key := rows[id].key;
      if key in failing {
        return false;
      }
      storage := storage - {key};
      rows := rows - {id};
      return true;
    }

    // The k-th listed row, when those before it are dealt with.
    method RemoveListed(ghost before: map<AttachmentId, Row>, ghost stored: map<StorageKey, Blob>,
                        batch: seq<AttachmentId>, k: nat, failing: set<StorageKey>) returns (gone: bool)
      requires k < |batch| && Distinct(batch) && batch[k] in before
      requires rows == before - Removable(before, batch[..k], failing)
      requires storage == stored - KeysOf(before, Removable(before, batch[..k], failing))
      modifies this`rows, this`storage
      ensures rows == before - Removable(before, batch[..k + 1], failing)
      ensures storage == stored - KeysOf(before, Removable(before, batch[..k + 1], failing))
      ensures |Removable(before, batch[..k + 1], failing)| == |Removable(before, batch[..k], failing)| + if gone then 1 else 0
    {
      OneMoreRemoved(before, stored, batch, failing, k);
      gone := RemoveOne(batch[k], failing);
    }

    // Remove every listed row whose object can be removed.
    method RemoveAll(batch: seq<AttachmentId>, failing: set<StorageKey>) returns (removed: nat)
      requires Distinct(batch) && forall id :: id in batch ==> id in rows
      modifies this`rows, this`storage
      ensures removed == |Removable(old(rows), batch, failing)|
      ensures rows == old(rows) - Removable(old(rows), batch, failing)
      ensures storage == old(storage) - KeysOf(old(rows), Removable(old(rows), batch, failing))
    {
      removed := 0;
      ghost var before, stored := rows, storage;
      var k := 0;
      while k < |batch|
        invariant 0 <= k <= |batch| && removed == |Removable(before, batch[..k], failing)|
        invariant rows == before - Removable(before, batch[..k], failing)
        invariant storage == stored - KeysOf(before, Removable(before, batch[..k], failing))
      {
        assert batch[k] in before by { assert batch[k] in batch; }
        var gone := RemoveListed(before, stored, batch, k, failing);
        if gone {
          removed := removed + 1;
        }
        k := k + 1;
      }
      assert batch[..|batch|] == batch;
    }

    // One batch of clean-up; removing an object under a key in `failing` raises.
    method CleanupAbandoned(cutoff: Time, limit: nat, locked: set<AttachmentId>, failing: set<StorageKey>)
        returns (removed: nat, batch: seq<AttachmentId>, ghost deleted: set<AttachmentId>)
      modifies this`rows, this`storage
      ensures IsListing(old(rows), cutoff, limit, locked, batch)
      ensures deleted == Removable(old(rows), batch, failing)
      ensures removed == |deleted| && rows == old(rows) - deleted
      ensures storage == old(storage) - KeysOf(old(rows), deleted)
    {
      batch := ListAbandoned(cutoff, limit, locked);
      deleted := Removable(rows, batch, failing);
      removed := RemoveAll(batch, failing);
    }

    // Any run of the attachment machine between two batches; by EligibleShrinks it only takes rows off the eligible.
    method OtherRequests(cutoff: Time)
      modifies this`rows, this`storage, this`messages
      ensures Eligible(rows, cutoff) <= Eligible(old(rows), cutoff)
    {
    }

    // A batch, after whatever other requests have done since the last one.
    method OneRound(cutoff: Time, locked: set<AttachmentId>, failing: set<StorageKey>)
        returns (count: nat, ghost gone: set<AttachmentId>)
      modifies this`rows, this`storage, this`messages
      ensures count == |gone| && gone <= Eligible(old(rows), cutoff) - locked
      ensures Eligible(rows, cutoff) <= Eligible(old(rows), cutoff) - gone
      ensures |Eligible(rows, cutoff)| <= |Eligible(old(rows), cutoff)| - |gone|
      ensures count < BATCH && locked == {} && failing == {} ==> Eligible(rows, cutoff) == {}
    {
      ghost var left := Eligible(rows, cutoff);
      OtherRequests(cutoff);
      SubsetSize(Eligible(rows, cutoff), left);
      ghost var before := rows;
      var batch;
      count, batch, gone := CleanupAbandoned(cutoff, BATCH, locked, failing);
      RoundEffect(before, cutoff, locked, failing, batch);
    }

    // One batch after another; `locked` and `failing` say which rows others keep locked, and which removals raise,
    // in each round. Every continuing round deletes a full batch of a set that cannot grow.
    method Rounds(cutoff: Time, locked: nat -> set<AttachmentId>, failing: nat -> set<StorageKey>)
        returns (removed: nat, ghost deleted: set<AttachmentId>)
      modifies this`rows, this`storage, this`messages
      ensures removed == |deleted| && deleted <= Eligible(old(rows), cutoff)
      ensures forall id :: id in deleted ==> exists n :: id !in locked(n)
      ensures Eligible(rows, cutoff) <= Eligible(old(rows), cutoff) - deleted
      ensures (forall n :: locked(n) == {} && failing(n) == {}) ==> Eligible(rows, cutoff) == {}
    {
      removed, deleted := 0, {};
      var more, n := true, 0;
      while more
        invariant removed == |deleted| && deleted <= Eligible(old(rows), cutoff)
        invariant forall id :: id in deleted ==> exists n :: id !in locked(n)
        invariant Eligible(rows, cutoff) <= Eligible(old(rows), cutoff) - deleted
        invariant !more && (forall n :: locked(n) == {} && failing(n) == {}) ==> Eligible(rows, cutoff) == {}
        decreases more, |Eligible(rows, cutoff)|
      {
        var count;
        ghost var gone;
        count, gone := OneRound(cutoff, locked(n), failing(n));
        assert forall id :: id in gone ==> id !in locked(n);
        removed := removed + count;
        deleted := deleted + gone;
        more := count >= BATCH;
        n := n + 1;
      }
    }

    // A lock held for longer than its lifetime expires, and another worker may take it with its own token.
    method LockMayExpire(token: nat)
      requires lock == Some(token)
      modifies this`lock
    {
    }

    /**
     * One run of the clean-up worker: without the lock nothing happens; with it, the result counts
     * exactly the rows this worker deleted, all of them eligible. It leaves no lock of its own behind and
     * never frees one that another worker took meanwhile. If no row is locked and no removal fails,
     * nothing eligible is left.
     */
    method RunOnce(now: Time, pendingHours: Time, token: nat, locked: nat -> set<AttachmentId>,
                   failing: nat -> set<StorageKey>)
        returns (removed: nat, ghost deleted: set<AttachmentId>, ghost held: Lock)
      modifies this`rows, this`storage, this`messages, this`lock
      ensures removed == |deleted|
      ensures old(lock).Some? ==> removed == 0 && rows == old(rows) && storage == old(storage) && lock == old(lock)
      ensures old(lock).None? ==>
                var cutoff := now - pendingHours * 60;
                && lock == (if held == Some(token) then None else held)
                && deleted <= Eligible(old(rows), cutoff)
                && (forall id :: id in deleted ==> exists n :: id !in locked(n))
                && Eligible(rows, cutoff) <= Eligible(old(rows), cutoff) - deleted
                && ((forall n :: locked(n) == {} && failing(n) == {}) ==> Eligible(rows, cutoff) == {})
      ensures forall id :: id in deleted ==>
                && id in old(rows) && old(rows)[id].message.None? && old(rows)[id].createdAt < now - pendingHours * 60
                && (id in rows ==> rows[id].message.Some? || now - pendingHours * 60 <= rows[id].createdAt)
      ensures old(lock).None? && (forall n :: locked(n) == {} && failing(n) == {}) ==> forall id :: id in rows ==>
                rows[id].message.Some? || now - pendingHours * 60 <= rows[id].createdAt
    {
      removed, deleted, held := 0, {}, lock;
      if lock.Some? {
        return;
      }
      lock := Some(token);
      removed, deleted := Rounds(now - pendingHours * 60, locked, failing);
      LockMayExpire(token);
      held := lock;
      NotEligible(rows, now - pendingHours * 60);
      // Only the holder's own token is deleted.
      if lock == Some(token) {
        lock := None;
      }
    }
  }

  lemma {:induction false} TrimmedBlank(s: string)
    ensures TrimRight(TrimLeft(s)) == [] <==> Blank(s)
    decreases |s|
  {
    if s != [] && IsSpace(s[0]) {
      TrimmedBlank(s[1..]);
      assert s == [s[0]] + s[1..];
      if Blank(s[1..]) {
        forall k | 0 <= k < |s|
          ensures IsSpace(s[k])
        {
          assert k > 0 ==> s[k] == s[1..][k - 1];
        }
      }
      if Blank(s) {
        forall k | 0 <= k < |s| - 1
          ensures IsSpace(s[1..][k])
        {
          assert s[1..][k] == s[k + 1];
        }
      }
    } else if s != [] {
      KeepsFirst(s);
    }
  }

  lemma {:induction false} KeepsFirst(s: string)
    requires s != [] && !IsSpace(s[0])
    ensures TrimRight(s) != []
    decreases |s|
  {
    if IsSpace(s[|s| - 1]) {
      KeepsFirst(s[..|s| - 1]);
    }
  }

  lemma {:induction false} SizeDistinct(ids: seq<AttachmentId>)
    requires |Elements(ids)| == |ids|
    ensures Distinct(ids)
    decreases |ids|
  {
    if ids != [] {
      var front, last := ids[..|ids| - 1], ids[|ids| - 1];
      assert ids == front + [last];
      assert Elements(ids) == Elements(front) + {last};
      ElementsSize(front);
      SizeDistinct(front);
    }
  }

  lemma {:induction false} ElementsSize(ids: seq<AttachmentId>)
    ensures |Elements(ids)| <= |ids|
    decreases |ids|
  {
    if ids != [] {
      var front, last := ids[..|ids| - 1], ids[|ids| - 1];
      assert ids == front + [last];
      assert Elements(ids) == Elements(front) + {last};
      ElementsSize(front);
    }
  }
}
