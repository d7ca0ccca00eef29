/**
 * Helpers the web client uses to classify messages and parts and to route
 * stream events to sessions (apps/web/src/lib/utils.ts).
 */
module SessionUtils {
  import opened Wrappers
  import opened OpencodeTypes

  /** `isAssistantMessage`: the message was written by the assistant, not the user. */
  function IsAssistantMessage(m: MessageWithParts): (r: bool)
    ensures r <==> m.info.role != User
  {
    m.info.role == Assistant
  }

  /**
   * `isCompletedToolPart`: a tool part whose state is "completed". Through
   * `state?.status`, a part without a state is never completed, and neither
   * is a tool that is pending, running or in error.
   */
  function IsCompletedToolPart(p: Part): (r: bool)
    ensures r ==> p.partType == "tool" && p.status.Some? && p.status.value == "completed"
    ensures p.partType == "tool" && p.status.Some? && p.status.value == "completed" ==> r
    ensures p.status.None? || p.status == Some("pending") || p.status == Some("running") || p.status == Some("error") ==> !r
  {
    p.partType == "tool" && p.status == Some("completed")
  }

  /** JavaScript truthiness of `time.completed`: absent or 0 both count as not completed. */
  predicate Unfinished(info: MessageInfo) {
    info.completed.None? || info.completed.value == 0
  }

  /**
   * `isSessionBusy`: a session is busy while its last message is an
   * assistant message that has not completed.
   */
  function IsSessionBusy(messages: seq<MessageWithParts>): (r: bool)
    ensures |messages| == 0 ==> !r
    ensures r ==> IsAssistantMessage(messages[|messages| - 1]) && Unfinished(messages[|messages| - 1].info)
  {
    if |messages| == 0 then false
    else
      var last := messages[|messages| - 1];
      if IsAssistantMessage(last) then Unfinished(last.info) else false
  }

  /** Only the last message matters: whatever precedes it, the answer is the one for that message alone. */
  lemma {:induction false} BusyDependsOnLast(prefix: seq<MessageWithParts>, m: MessageWithParts)
    ensures IsSessionBusy(prefix + [m]) == IsSessionBusy([m])
    ensures IsSessionBusy([m]) <==> IsAssistantMessage(m) && Unfinished(m.info)
  {
    assert (prefix + [m])[|prefix + [m]| - 1] == m;
  }

  /** A session whose last message is from the user, or is a completed assistant message, is not busy. */
  lemma {:induction false} NotBusyAfter(messages: seq<MessageWithParts>, m: MessageWithParts)
    requires m.info.role == User || (m.info.completed.Some? && m.info.completed.value != 0)
    ensures !IsSessionBusy(messages + [m])
  {
    BusyDependsOnLast(messages, m);
  }

  /**
   * `getSessionIdFromEvent`: the session an event belongs to, read from the
   * field each event type keeps it in; `None` (the source's `null`) for any
   * other event type.
   */
  function GetSessionIdFromEvent(e: Event): (r: Option<string>)
    ensures r.None? <==> e.OtherEvent?
    ensures e.MessageUpdated? ==> r == Some(e.info.sessionID)
    ensures e.MessagePartUpdated? ==> r == Some(e.part.sessionID)
    ensures e.SessionUpdated? || e.SessionDeleted? ==> r == Some(e.session.id)
    ensures e.MessageRemoved? || e.SessionIdle? || e.SessionError? || e.PermissionUpdated? ==> r == Some(e.sessionID)
  {
    match e
    case MessageUpdated(info) => Some(info.sessionID)
    case MessagePartUpdated(part) => Some(part.sessionID)
    case MessageRemoved(sid) => Some(sid)
    case SessionUpdated(session) => Some(session.id)
    case SessionDeleted(session) => Some(session.id)
    case SessionIdle(sid) => Some(sid)
    case SessionError(sid) => Some(sid)
    case PermissionUpdated(sid) => Some(sid)
    case OtherEvent(_) => None
  }
}
