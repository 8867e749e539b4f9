/** Shapes of the records the chat backend stores and exchanges. */
module Messages {

  /** One stored message: a turn of a conversation, immutable once written.
      `timestamp` is the creation time as an integer reading of the clock. */
  datatype Message = Message(
    id: string,
    conversationId: string,
    sender: string,
    content: string,
    timestamp: int)

  /** One `{"role": ..., "content": ...}` entry of a completion request. */
  datatype ChatEntry = ChatEntry(role: string, content: string)

  /** The reply of `POST /chat/new`. */
  datatype NewConversation = NewConversation(conversationId: string, message: string)
}
