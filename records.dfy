// Items of the two DynamoDB tables the chat backend uses, and the small
// wrappers shared by the other modules.

module Records {

  datatype Option<+T> = None | Some(value: T)

  /** A store operation either yields a value or raises (a DynamoDB
      ValidationException, carried as its message). */
  datatype Result<+T> = Success(value: T) | Failure(error: string)

  /** The `role` attribute of a stored message: the handler only ever writes
      'user' or 'assistant'. */
  datatype Role = User | Assistant

  /** Primary key of the conversations table: partition key `userId`,
      sort key `conversationId`. */
  datatype ConversationKey = ConversationKey(userId: string, conversationId: string)

  /** Primary key of the messages table: partition key `conversationId`,
      numeric sort key `timestamp` (whole seconds). */
  datatype MessageKey = MessageKey(conversationId: string, timestamp: int)

  /** One item of the conversations table, with every attribute the backend writes. */
  datatype Conversation = Conversation(
    userId: string,
    conversationId: string,
    title: string,
    createdAt: int,
    updatedAt: int,
    messageCount: int)

  /** One item of the messages table. */
  datatype Message = Message(
    conversationId: string,
    timestamp: int,
    messageId: string,
    role: Role,
    content: string)

  /** DynamoDB refuses an empty string as the value of a key attribute. */
  predicate ValidKey(s: string) {
    s != ""
  }

  function KeyOf(c: Conversation): ConversationKey {
    ConversationKey(c.userId, c.conversationId)
  }

  function MessageKeyOf(m: Message): MessageKey {
    MessageKey(m.conversationId, m.timestamp)
  }
}
