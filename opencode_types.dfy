/**
 * The slice of the opencode SDK's data the web client works with: messages
 * with their parts, and the events of the `/event` stream. Only the fields
 * the modelled code reads are kept; everything else a message or a part
 * carries is outside the model.
 */
module OpencodeTypes {
  import opened Wrappers

  datatype Role = User | Assistant

  /** A message's `info`: its id, its session, who wrote it and when it completed (`time.completed`). */
  datatype MessageInfo = MessageInfo(id: string, sessionID: string, role: Role, completed: Option<int>)

  /** A part of a message: its ids, its `type` and, for tool parts, `state.status`. */
  datatype Part = Part(id: string, messageID: string, sessionID: string, partType: string, status: Option<string>)

  /** A cached message together with its parts, in display order. */
  datatype MessageWithParts = MessageWithParts(info: MessageInfo, parts: seq<Part>)

  /** A session's `info`; only its id matters here. */
  datatype SessionInfo = SessionInfo(id: string)

  /**
   * An event of the stream, by its `type` field. `OtherEvent` stands for
   * every type not listed here (for instance `"storage.write"`).
   */
  datatype Event =
    | MessageUpdated(info: MessageInfo)
    | MessagePartUpdated(part: Part)
    | MessageRemoved(sessionID: string)
    | SessionUpdated(session: SessionInfo)
    | SessionDeleted(session: SessionInfo)
    | SessionIdle(sessionID: string)
    | SessionError(sessionID: string)
    | PermissionUpdated(sessionID: string)
    | OtherEvent(eventType: string)
}
