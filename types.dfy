/** The records of the chat-session store: a message and a chat session. */
module Types {

  /** A value that may be absent (`string | null` in the application state). */
  datatype Option<+T> = None | Some(value: T)

  /** Who wrote a message: the two-variant union `'user' | 'ai'`. */
  datatype Sender = User | Ai

  /** One transcript entry. Messages are never edited after creation. */
  datatype Message = Message(id: string, sender: Sender, text: string)

  /** An uploaded document together with its transcript, in display order. */
  datatype ChatSession = ChatSession(id: string, fileName: string, fileContent: string, messages: seq<Message>)
}
