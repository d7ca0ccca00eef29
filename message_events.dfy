/**
 * The per-session message cache the web client keeps up to date from the
 * event stream (`use-handle-session-message-events.ts`). The cache maps a
 * session id to its list of messages with parts; a missing entry reads as
 * the empty list. Two events change it:
 *
 *  - `message.updated` upserts a message by id: an existing message gets the
 *    new info and keeps its parts, an unknown one is appended with no parts;
 *  - `message.part.updated` upserts a part by id inside the message it
 *    belongs to, and is ignored when that message is not cached.
 *
 * The pure functions say what each handler computes; the class
 * `MessageCache` holds the query cache entries and its methods perform the
 * write-backs. The older copy of the hook (src/hooks) builds the updated
 * list for a known message but never writes it back; it is modelled as
 * written by `LegacyMessageUpdated`.
 */
module MessageEvents {
  import opened Wrappers
  import opened Seqs
  import opened OpencodeTypes
  import opened SessionUtils

  // ---------------------------------------------------------------------
  // Lookups (`findIndex`)
  // ---------------------------------------------------------------------

  function MessageIdIs(id: string): MessageWithParts -> bool {
    (m: MessageWithParts) => m.info.id == id
  }

  function PartIdIs(id: string): Part -> bool {
    (p: Part) => p.id == id
  }

  /** Where the message with this id sits in the list, if anywhere. */
  function IndexOfMessage(msgs: seq<MessageWithParts>, id: string): Option<nat> {
    FirstIndex(msgs, MessageIdIs(id))
  }

  /** Where the part with this id sits in the list, if anywhere. */
  function IndexOfPart(parts: seq<Part>, id: string): Option<nat> {
    FirstIndex(parts, PartIdIs(id))
  }

  predicate UniqueMessageIds(msgs: seq<MessageWithParts>) {
    forall i, j :: 0 <= i < j < |msgs| ==> msgs[i].info.id != msgs[j].info.id
  }

  predicate UniquePartIds(parts: seq<Part>) {
    forall i, j :: 0 <= i < j < |parts| ==> parts[i].id != parts[j].id
  }

  // ---------------------------------------------------------------------
  // `message.updated`
  // ---------------------------------------------------------------------

  /**
   * The list `handleMessageUpdated` writes back: the message with the
   * event's id gets the new info and keeps its parts, in place; an unknown
   * id is appended with no parts.
   */
  function MessageUpserted(msgs: seq<MessageWithParts>, info: MessageInfo): (r: seq<MessageWithParts>)
    ensures IndexOfMessage(msgs, info.id).Some? ==> |r| == |msgs|
    ensures IndexOfMessage(msgs, info.id).None? ==> |r| == |msgs| + 1 && r[..|msgs|] == msgs
  {
    match IndexOfMessage(msgs, info.id)
    case Some(i) => msgs[i := MessageWithParts(info, msgs[i].parts)]
    case None => msgs + [MessageWithParts(info, [])]
  }

  /**
   * After the upsert, looking the id up finds a message carrying exactly the
   * event's info; its parts are the ones it had (none if it is new), and it
   * sits where it was, or at the end.
   */
  lemma {:induction false} UpsertedMessageHoldsInfo(msgs: seq<MessageWithParts>, info: MessageInfo)
    ensures var r := MessageUpserted(msgs, info);
      && IndexOfMessage(r, info.id).Some?
      && r[IndexOfMessage(r, info.id).value].info == info
      && match IndexOfMessage(msgs, info.id)
         case Some(i) => IndexOfMessage(r, info.id) == Some(i) && r[i].parts == msgs[i].parts
         case None => IndexOfMessage(r, info.id) == Some(|msgs|) && r[|msgs|].parts == []
  {
    var r := MessageUpserted(msgs, info);
    match IndexOfMessage(msgs, info.id)
    case Some(i) =>
      assert r[i].info.id == info.id;
      assert forall j :: 0 <= j < i ==> r[j] == msgs[j];
      FirstIndexIs(r, MessageIdIs(info.id), i);
    case None =>
      assert forall j :: 0 <= j < |msgs| ==> r[j] == msgs[j];
      FirstIndexIs(r, MessageIdIs(info.id), |msgs|);
  }

  /** The upsert touches no other message: every other position keeps its message. */
  lemma {:induction false} UpsertKeepsOtherMessages(msgs: seq<MessageWithParts>, info: MessageInfo, j: nat)
    requires j < |msgs| && msgs[j].info.id != info.id
    ensures j < |MessageUpserted(msgs, info)| && MessageUpserted(msgs, info)[j] == msgs[j]
  {
  }

  /** Replaying the same `message.updated` event changes nothing more. */
  lemma {:induction false} MessageUpsertIdempotent(msgs: seq<MessageWithParts>, info: MessageInfo)
    ensures MessageUpserted(MessageUpserted(msgs, info), info) == MessageUpserted(msgs, info)
  {
    var r := MessageUpserted(msgs, info);
    UpsertedMessageHoldsInfo(msgs, info);
    var k := IndexOfMessage(r, info.id).value;
    assert r[k] == MessageWithParts(info, r[k].parts);
    assert r[k := MessageWithParts(info, r[k].parts)] == r;
  }

  /** The upsert keeps message ids unique. */
  lemma {:induction false} MessageUpsertKeepsUnique(msgs: seq<MessageWithParts>, info: MessageInfo)
    requires UniqueMessageIds(msgs)
    ensures UniqueMessageIds(MessageUpserted(msgs, info))
  {
    var r := MessageUpserted(msgs, info);
    match IndexOfMessage(msgs, info.id)
    case Some(i) =>
      forall a, b | 0 <= a < b < |r| ensures r[a].info.id != r[b].info.id {
        assert r[a].info.id == msgs[a].info.id && r[b].info.id == msgs[b].info.id;
      }
    case None =>
      forall a, b | 0 <= a < b < |r| ensures r[a].info.id != r[b].info.id {
        if b == |msgs| {
          assert !MessageIdIs(info.id)(msgs[a]);
        } else {
          assert r[a] == msgs[a] && r[b] == msgs[b];
        }
      }
  }

  /**
   * What the older hook does on `message.updated`: `None` when it leaves the
   * cache alone, `Some(list)` when it writes `list`. For a message already in
   * the list it builds the updated copy but never writes it.
   */
  function LegacyMessageUpdated(msgs: seq<MessageWithParts>, info: MessageInfo): (r: Option<seq<MessageWithParts>>)
    ensures r.Some? <==> IndexOfMessage(msgs, info.id).None?
    ensures r.Some? ==> r.value == MessageUpserted(msgs, info)
  {
    match IndexOfMessage(msgs, info.id)
    case Some(_) => None
    case None => Some(msgs + [MessageWithParts(info, [])])
  }

  /**
   * The lost update of the older hook: an assistant message cached while
   * still running is never marked completed, so the session it ends stays
   * busy, while the corrected handler records the completion.
   */
  lemma LegacyLosesCompletion()
    ensures var running := MessageInfo("msg_1", "ses_1", Assistant, None);
      var done := MessageInfo("msg_1", "ses_1", Assistant, Some(1700000000000));
      var msgs := [MessageWithParts(running, [])];
      && LegacyMessageUpdated(msgs, done) == None
      && IsSessionBusy(msgs)
      && MessageUpserted(msgs, done) == [MessageWithParts(done, [])]
      && !IsSessionBusy(MessageUpserted(msgs, done))
  {
    var running := MessageInfo("msg_1", "ses_1", Assistant, None);
    var done := MessageInfo("msg_1", "ses_1", Assistant, Some(1700000000000));
    var msgs := [MessageWithParts(running, [])];
    assert MessageIdIs(done.id)(msgs[0]);
    assert IndexOfMessage(msgs, done.id) == Some(0);
  }

  // ---------------------------------------------------------------------
  // `message.part.updated`
  // ---------------------------------------------------------------------

  /** The message's part list after the part upsert: replaced in place when its id is known, appended otherwise. */
  function PartUpserted(parts: seq<Part>, part: Part): (r: seq<Part>)
    ensures |parts| <= |r| <= |parts| + 1
    ensures IndexOfPart(parts, part.id).Some? ==> |r| == |parts|
  {
    match IndexOfPart(parts, part.id)
    case Some(k) => parts[..k] + [part] + parts[k + 1..]
    case None => parts + [part]
  }

  /** After the part upsert, the part with that id is exactly the event's part, at its old index or at the end, and every other part keeps its place. */
  lemma {:induction false} UpsertedPartIsFound(parts: seq<Part>, part: Part)
    ensures var r := PartUpserted(parts, part);
      && IndexOfPart(r, part.id).Some? && r[IndexOfPart(r, part.id).value] == part
      && (forall j :: 0 <= j < |parts| && parts[j].id != part.id ==> r[j] == parts[j])
      && match IndexOfPart(parts, part.id)
         case Some(k) => IndexOfPart(r, part.id) == Some(k)
         case None => IndexOfPart(r, part.id) == Some(|parts|) && r[..|parts|] == parts
  {
    var r := PartUpserted(parts, part);
    match IndexOfPart(parts, part.id)
    case Some(k) =>
      assert r == parts[k := part];
      FirstIndexIs(r, PartIdIs(part.id), k);
    case None =>
      assert forall j :: 0 <= j < |parts| ==> r[j] == parts[j];
      FirstIndexIs(r, PartIdIs(part.id), |parts|);
  }

  /** Replaying the same part event changes nothing more. */
  lemma {:induction false} PartUpsertIdempotent(parts: seq<Part>, part: Part)
    ensures PartUpserted(PartUpserted(parts, part), part) == PartUpserted(parts, part)
  {
    var r := PartUpserted(parts, part);
    UpsertedPartIsFound(parts, part);
    var k := IndexOfPart(r, part.id).value;
    assert r[..k] + [part] + r[k + 1..] == r;
  }

  /** The part upsert keeps part ids unique. */
  lemma {:induction false} PartUpsertKeepsUnique(parts: seq<Part>, part: Part)
    requires UniquePartIds(parts)
    ensures UniquePartIds(PartUpserted(parts, part))
  {
    var r := PartUpserted(parts, part);
    match IndexOfPart(parts, part.id)
    case Some(k) =>
      assert r == parts[k := part];
      forall a, b | 0 <= a < b < |r| ensures r[a].id != r[b].id {
        assert r[a].id == parts[a].id && r[b].id == parts[b].id;
      }
    case None =>
      forall a, b | 0 <= a < b < |r| ensures r[a].id != r[b].id {
        if b == |parts| {
          assert !PartIdIs(part.id)(parts[a]);
        } else {
          assert r[a] == parts[a] && r[b] == parts[b];
        }
      }
  }

  /**
   * The list `handleMessagePartUpdated` writes back, or `None` when the
   * part's message is not in the list and nothing is written.
   */
  function MessagesWithPart(msgs: seq<MessageWithParts>, part: Part): (r: Option<seq<MessageWithParts>>)
    ensures r.None? <==> IndexOfMessage(msgs, part.messageID).None?
    ensures r.Some? ==> |r.value| == |msgs|
  {
    match IndexOfMessage(msgs, part.messageID)
    case None => None
    case Some(i) => Some(msgs[i := MessageWithParts(msgs[i].info, PartUpserted(msgs[i].parts, part))])
  }

  /**
   * A part update changes only the target message, and in it only the parts:
   * every message keeps its info and its place, every other message is
   * untouched, and the target's parts are the part upsert of its old parts.
   */
  lemma {:induction false} PartUpdateTouchesOnlyTarget(msgs: seq<MessageWithParts>, part: Part)
    requires MessagesWithPart(msgs, part).Some?
    ensures var r := MessagesWithPart(msgs, part).value;
      var i := IndexOfMessage(msgs, part.messageID).value;
      && (forall j :: 0 <= j < |msgs| ==> r[j].info == msgs[j].info)
      && (forall j :: 0 <= j < |msgs| && j != i ==> r[j] == msgs[j])
      && r[i].parts == PartUpserted(msgs[i].parts, part)
  {
  }

  /** Part updates never change whether the session is busy, since they leave every message's info alone. */
  lemma {:induction false} PartUpdateKeepsBusy(msgs: seq<MessageWithParts>, part: Part)
    requires MessagesWithPart(msgs, part).Some?
    ensures IsSessionBusy(MessagesWithPart(msgs, part).value) == IsSessionBusy(msgs)
  {
    PartUpdateTouchesOnlyTarget(msgs, part);
    var r := MessagesWithPart(msgs, part).value;
    if |msgs| > 0 {
      assert r[|r| - 1].info == msgs[|msgs| - 1].info;
    }
  }

  // ---------------------------------------------------------------------
  // The query cache
  // ---------------------------------------------------------------------

  /** The `["messages", sessionId]` entries of the query cache. */
  class MessageCache {
    var lists: map<string, seq<MessageWithParts>>

    constructor()
      ensures lists == map[]
    {
      lists := map[];
    }

    /** `getQueryData(["messages", sessionId]) || []`. */
    function Messages(sessionId: string): seq<MessageWithParts>
      reads this
    {
      if sessionId in lists then lists[sessionId] else []
    }

    /** `handleMessageUpdated` of apps/web: upsert the message and write the list back; other event types are ignored. */
    method HandleMessageUpdated(e: Event)
      modifies this
      ensures !e.MessageUpdated? ==> lists == old(lists)
      ensures e.MessageUpdated? ==>
        lists == old(lists)[e.info.sessionID := MessageUpserted(old(Messages(e.info.sessionID)), e.info)]
      ensures forall sid :: Some(sid) != GetSessionIdFromEvent(e) ==> Messages(sid) == old(Messages(sid))
    {
      if !e.MessageUpdated? {
        return;
      }
      var sessionId := e.info.sessionID;
      var current := Messages(sessionId);
      match IndexOfMessage(current, e.info.id)
      case Some(i) =>
        var updated := current[i := MessageWithParts(e.info, current[i].parts)];
        lists := lists[sessionId := updated];
      case None =>
        lists := lists[sessionId := current + [MessageWithParts(e.info, [])]];
    }

    /** `handleMessageUpdated` of the older hook (src/hooks): only a new message is ever written back. */
    method HandleMessageUpdatedLegacy(e: Event)
      modifies this
      ensures !e.MessageUpdated? ==> lists == old(lists)
      ensures e.MessageUpdated? ==>
        lists == match LegacyMessageUpdated(old(Messages(e.info.sessionID)), e.info)
                 case None => old(lists)
                 case Some(written) => old(lists)[e.info.sessionID := written]
    {
      if !e.MessageUpdated? {
        return;
      }
      var sessionId := e.info.sessionID;
      var current := Messages(sessionId);
      match IndexOfMessage(current, e.info.id)
      case Some(i) =>
        // the updated copy is built here and then dropped
        var updatedMessages := current[i := MessageWithParts(e.info, current[i].parts)];
      case None =>
        lists := lists[sessionId := current + [MessageWithParts(e.info, [])]];
    }

    /** `handleMessagePartUpdated` (same in both copies): upsert the part into its cached message and write the list back. */
    method HandleMessagePartUpdated(e: Event)
      modifies this
      ensures !e.MessagePartUpdated? ==> lists == old(lists)
      ensures e.MessagePartUpdated? ==>
        lists == match MessagesWithPart(old(Messages(e.part.sessionID)), e.part)
                 case None => old(lists)
                 case Some(written) => old(lists)[e.part.sessionID := written]
      ensures forall sid :: Some(sid) != GetSessionIdFromEvent(e) ==> Messages(sid) == old(Messages(sid))
    {
      if !e.MessagePartUpdated? {
        return;
      }
      var part := e.part;
      var sessionId := part.sessionID;
      var current := Messages(sessionId);
      var messageIndex := IndexOfMessage(current, part.messageID);
      if messageIndex.None? {
        return;
      }
      var i := messageIndex.value;
      var message := current[i];
      var parts := message.parts;
      match IndexOfPart(parts, part.id) {
        case Some(k) =>
          parts := parts[..k] + [part] + parts[k + 1..];
        case None =>
          parts := parts + [part];
      }
      var newMessages := current[i := MessageWithParts(message.info, parts)];
      lists := lists[sessionId := newMessages];
    }
  }
}
