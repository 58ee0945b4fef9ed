/**
 * Message shapes shared by the model-facing ledger (`llm_chat_history` and
 * its display twin `llm_chat_history_show`) and the visible chat transcript.
 */
module Ledger {
  import opened Common

  datatype Role = System | User | Assistant

  /** One `{"type": "text" | "image_url", ...}` item of a message's content list. */
  datatype Segment = Text(text: string) | ImageUrl(url: string)

  /** A message's `content`: a plain string or a list of segments. */
  datatype Content = Plain(text: string) | Segments(segments: seq<Segment>)

  /** One `{"role": ..., "content": ...}` message of the ledger. */
  datatype Turn = Turn(role: Role, content: Content)

  /** One `{"role": ..., "content": ...}` entry of the visible transcript. */
  datatype ChatEntry = ChatEntry(role: Role, content: string)

  /** `if chat_history is None: chat_history = []`. */
  function OrEmpty(chat: Option<seq<ChatEntry>>): seq<ChatEntry>
  {
    if chat.Some? then chat.value else []
  }
}
