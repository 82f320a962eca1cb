/**
 * The part of the Telegram bot client the delivery engine relies on. The
 * network is not modelled: a session holds the pending update backlog the
 * platform would return, and records every send attempt in a log together
 * with its outcome, which the platform decides.
 */
module Telegram {
  import opened Wrappers

  /** Go's `int64`. */
  newtype int64 = x: int | -0x8000_0000_0000_0000 <= x < 0x8000_0000_0000_0000

  /** A chat identifier. */
  type ChatId = int64

  datatype Chat = Chat(id: ChatId, firstName: string, title: string)

  /** An inbound message; `chat` is a nilable pointer in the client. */
  datatype Message = Message(chat: Option<Chat>)

  /** An entry of the update backlog; only updates that carry a message are of interest. */
  datatype Update = Update(message: Option<Message>)

  /** The parse mode that tells the platform to render the text as Markdown. */
  const ModeMarkdown: string := "Markdown"

  /** An outgoing text message. */
  datatype MessageConfig = MessageConfig(chatId: ChatId, text: string, parseMode: string)

  /** The client's `NewMessage`: a plain-text message to `chatId`. */
  function NewMessage(chatId: ChatId, text: string): (m: MessageConfig) {
    MessageConfig(chatId, text, "")
  }

  /** One call of `Send`, with whether the platform accepted it. */
  datatype Attempt = Attempt(message: MessageConfig, delivered: bool)

  class Session {
    /** The updates the platform currently holds for this bot. */
    var backlog: seq<Update>
    /** Every send issued through this session, oldest first. */
    var sent: seq<Attempt>

    constructor (backlog: seq<Update>)
      ensures this.backlog == backlog && sent == []
    {
      this.backlog := backlog;
      sent := [];
    }

    /** Fetches the backlog; the request itself may fail. */
    method GetUpdates() returns (r: Result<seq<Update>>)
      ensures r.Success? ==> r.value == backlog
    {
      var reachable: bool := *;
      r := if reachable then Success(backlog) else Failure(Error("getUpdates request failed"));
    }

    /** Sends `msg`; whatever the outcome, the attempt is logged. */
    method Send(msg: MessageConfig) returns (err: Option<Error>)
      modifies this`sent
      ensures sent == old(sent) + [Attempt(msg, err.None?)]
    {
      var delivered: bool := *;
      err := if delivered then None else Some(Error("sendMessage request failed"));
      sent := sent + [Attempt(msg, delivered)];
    }
  }
}
