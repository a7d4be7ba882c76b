// The Lambda entry point and its four request handlers (lambda/handler.py).
// The module-level DynamoDBService becomes a ChatStore argument, the Bedrock
// call a Converse function argument, and the values uuid.uuid4() and
// int(time.time()) produce during one request a Fresh argument.
//
// Each handler that writes is a method proved against a specification
// function of the tables before the request; the lemmas about those
// functions are in module ChatProperties.

module Handler {
  import opened Records
  import opened Store
  import opened Bedrock

  /** The values drawn from uuid.uuid4() and int(time.time()) while one
      POST /chat runs, in the order the handler draws them. */
  datatype Fresh = Fresh(
    conversationId: string,
    createdAt: int,
    userAt: int,
    userMessageId: string,
    assistantAt: int,
    assistantMessageId: string)

  /** The decoded body of POST /chat: `message` and `conversationId` when they
      are strings; None when the key is missing or null. */
  datatype ChatRequest = ChatRequest(message: Option<string>, conversationId: Option<string>)

  /** `event['body']`: JSON that decodes to an object, or anything on which
      `json.loads(...)` or `.get` raises. */
  datatype RequestBody = Unparsable | Json(request: ChatRequest)

  /** The `limit` query parameter: missing (or no query string at all), a string
      `int()` accepts, or one it rejects with ValueError. */
  datatype LimitParam = Absent | Given(n: int) | NotANumber

  /** The API Gateway event fields the handler reads; `sub` is the Cognito
      claim `requestContext.authorizer.claims.sub`, None when any level is missing. */
  datatype Event = Event(httpMethod: string, path: string, sub: Option<string>, body: RequestBody, limit: LimitParam)

  datatype ResponseBody =
    | ErrorBody(error: string)
    | ChatReply(conversationId: string, response: string, timestamp: int)
    | ConversationList(conversations: seq<Conversation>)
    | MessageList(conversationId: string, messages: seq<Message>)
    | Deleted(message: string, conversationId: string)

  datatype Response = Response(statusCode: int, headers: seq<(string, string)>, body: ResponseBody)

  const JsonCorsHeaders: seq<(string, string)> :=
    [("Content-Type", "application/json"), ("Access-Control-Allow-Origin", "*")]

  /** The `response` helper. Numbers are integers here, which DecimalEncoder
      writes unchanged. */
  function Respond(statusCode: int, body: ResponseBody): (r: Response)
    ensures r.statusCode == statusCode && r.body == body
    ensures ("Content-Type", "application/json") in r.headers && ("Access-Control-Allow-Origin", "*") in r.headers
  {
    Response(statusCode, JsonCorsHeaders, body)
  }

  const InternalError: Response := Respond(500, ErrorBody("Internal server error"))
  const MessageRequired: Response := Respond(400, ErrorBody("message is required"))
  const ConversationNotFound: Response := Respond(404, ErrorBody("Conversation not found"))
  const RouteNotFound: Response := Respond(404, ErrorBody("Not found"))

  /** Python truthiness of an optional string: present and not empty. */
  predicate Truthy(s: Option<string>) {
    s.Some? && s.value != ""
  }

  /** The title of a new conversation: the first 50 characters of the message,
      followed by "..." when the message is longer than that. */
  function Title(message: string): (title: string)
    ensures |message| <= 50 ==> title == message
    ensures |message| > 50 ==> |title| == 53 && title[..50] == message[..50] && title[50..] == "..."
  {
    if |message| > 50 then message[..50] + "..." else message
  }

  /** `path.split('/')[-1]`: the text after the last '/', or all of `path`
      when it holds none. */
  function LastSegment(path: string): (segment: string)
    ensures '/' !in segment
    ensures |segment| <= |path| && segment == path[|path| - |segment|..]
    ensures |segment| < |path| ==> path[|path| - |segment| - 1] == '/'
  {
    if path == [] || path[|path| - 1] == '/' then []
    else LastSegment(path[..|path| - 1]) + [path[|path| - 1]]
  }

  datatype Route = PostChat | ListConversations | GetConversation(id: string) | DeleteConversation(id: string) | Unrouted

  const ConversationsPrefix: string := "/conversations/"

  /** The routing chain of `lambda_handler`. */
  function RouteOf(httpMethod: string, path: string): (r: Route)
    ensures r == PostChat <==> httpMethod == "POST" && path == "/chat"
    ensures r == ListConversations <==> httpMethod == "GET" && path == "/conversations"
    ensures r.GetConversation? <==> httpMethod == "GET" && ConversationsPrefix <= path
    ensures r.DeleteConversation? <==> httpMethod == "DELETE" && ConversationsPrefix <= path
    ensures r.GetConversation? || r.DeleteConversation? ==> r.id == LastSegment(path)
  {
    if httpMethod == "POST" && path == "/chat" then PostChat
    else if httpMethod == "GET" && path == "/conversations" then ListConversations
    else if httpMethod == "GET" && ConversationsPrefix <= path then GetConversation(LastSegment(path))
    else if httpMethod == "DELETE" && ConversationsPrefix <= path then DeleteConversation(LastSegment(path))
    else Unrouted
  }

  /** `int(params.get('limit', default))`: None when `int()` raises. */
  function LimitValue(p: LimitParam, default: int): (r: Option<int>)
    ensures r.None? <==> p.NotANumber?
    ensures r.Some? ==> r.value == if p.Given? then p.n else default
  {
    match p
    case Absent => Some(default)
    case Given(n) => Some(n)
    case NotANumber => None
  }

  /** The message table without any item of the conversation. */
  function WithoutConversation(t: MessageTable, conversationId: string): MessageTable {
    map k | k in t && k.conversationId != conversationId :: t[k]
  }

  function UserRecord(conversationId: string, message: string, drawn: Fresh): Message {
    Message(conversationId, drawn.userAt, drawn.userMessageId, User, message)
  }

  function ReplyRecord(conversationId: string, reply: string, drawn: Fresh): Message {
    Message(conversationId, drawn.assistantAt, drawn.assistantMessageId, Assistant, reply)
  }

  /** The conversation a turn writes to: the supplied id, or the drawn one
      when none (or an empty one) is supplied. */
  function TurnConversationId(req: ChatRequest, drawn: Fresh): string {
    if Truthy(req.conversationId) then req.conversationId.value else drawn.conversationId
  }

  /** The conversations table once the turn's optional creation is done. */
  function AfterCreate(s: Tables, userId: string, req: ChatRequest, drawn: Fresh): ConversationTable
    requires req.message.Some?
  {
    if Truthy(req.conversationId) then s.conversations
    else
      var id := drawn.conversationId;
      s.conversations[ConversationKey(userId, id) := NewConversation(userId, id, Title(req.message.value), drawn.createdAt)]
  }

  /** The messages table once the user's message is saved. */
  function AfterUserMessage(s: Tables, req: ChatRequest, drawn: Fresh): MessageTable
    requires req.message.Some?
  {
    var m := UserRecord(TurnConversationId(req, drawn), req.message.value, drawn);
    s.messages[MessageKeyOf(m) := m]
  }

  /** The history `handle_chat` hands to the model. */
  ghost function TurnHistory(s: Tables, req: ChatRequest, drawn: Fresh): seq<Message>
    requires req.message.Some?
  {
    History(AfterUserMessage(s, req, drawn), TurnConversationId(req, drawn))
  }

  /** `handle_chat`: the tables after the request and the response, from the
      tables before it. */
  ghost function ChatSpec(s: Tables, userId: string, req: ChatRequest, drawn: Fresh, converse: Converse): (Tables, Response) {
    if !Truthy(req.message) then (s, MessageRequired)
    else
      var id := TurnConversationId(req, drawn);
      if !Truthy(req.conversationId) && !(ValidKey(userId) && ValidKey(id)) then (s, InternalError)
      else
        var conversations := AfterCreate(s, userId, req, drawn);
        var afterUser := AfterUserMessage(s, req, drawn);
        match GenerateResponseWithHistory(converse, TurnHistory(s, req, drawn))
        case None => (Tables(conversations, afterUser), InternalError)
        case Some(reply) =>
          var r := ReplyRecord(id, reply, drawn);
          var afterReply := afterUser[MessageKeyOf(r) := r];
          var key := ConversationKey(userId, id);
          if key !in conversations then (Tables(conversations, afterReply), InternalError)
          else
            (Tables(conversations[key := Touched(conversations[key], drawn.assistantAt)], afterReply),
             Respond(200, ChatReply(id, reply, drawn.assistantAt)))
  }

  /** `handle_get_messages`. */
  ghost function GetMessagesSpec(s: Tables, userId: string, conversationId: string, limit: LimitParam): Response {
    if !(ValidKey(userId) && ValidKey(conversationId)) then InternalError
    else if ConversationKey(userId, conversationId) !in s.conversations then ConversationNotFound
    else match LimitValue(limit, 50)
      case None => InternalError
      case Some(n) =>
        if n < 1 then InternalError
        else Respond(200, MessageList(conversationId, Take(NewestFirst(s.messages, conversationId), n)))
  }

  /** `handle_get_conversations`: which responses are allowed (conversations
      with equal `updatedAt` may come in any order). */
  ghost predicate ConversationsListed(s: Tables, userId: string, limit: LimitParam, resp: Response) {
    match LimitValue(limit, 20)
    case None => resp == InternalError
    case Some(n) =>
      if !ValidKey(userId) || n < 1 then resp == InternalError
      else resp.statusCode == 200 && resp.headers == JsonCorsHeaders && resp.body.ConversationList?
           && IsRecencyPage(s.conversations, userId, n, resp.body.conversations)
  }

  /** `handle_delete_conversation`. */
  ghost function DeleteSpec(s: Tables, userId: string, conversationId: string): (Tables, Response) {
    if !(ValidKey(userId) && ValidKey(conversationId)) then (s, InternalError)
    else if ConversationKey(userId, conversationId) !in s.conversations then (s, ConversationNotFound)
    else
      (Tables(s.conversations - {ConversationKey(userId, conversationId)}, WithoutConversation(s.messages, conversationId)),
       Respond(200, Deleted("Conversation deleted successfully", conversationId)))
  }

  /** `lambda_handler`: the allowed (tables after, response) pairs for one event. */
  ghost predicate Handled(s: Tables, e: Event, drawn: Fresh, converse: Converse, s': Tables, resp: Response) {
    match e.sub
    case None => s' == s && resp == InternalError
    case Some(userId) =>
      match RouteOf(e.httpMethod, e.path)
      case PostChat =>
        (match e.body
         case Unparsable => s' == s && resp == InternalError
         case Json(req) => (s', resp) == ChatSpec(s, userId, req, drawn, converse))
      case ListConversations => s' == s && ConversationsListed(s, userId, e.limit, resp)
      case GetConversation(id) => s' == s && resp == GetMessagesSpec(s, userId, id, e.limit)
      case DeleteConversation(id) => (s', resp) == DeleteSpec(s, userId, id)
      case Unrouted => s' == s && resp == RouteNotFound
  }

  /** `handle_chat`. */
  method HandleChat(store: ChatStore, req: ChatRequest, userId: string, drawn: Fresh, converse: Converse) returns (resp: Response)
    requires store.Valid()
    modifies store
    ensures store.Valid()
    ensures (store.Snapshot(), resp) == ChatSpec(old(store.Snapshot()), userId, req, drawn, converse)
  {
    var message := req.message;
    var conversationId := req.conversationId;
    if !Truthy(message) {
      return MessageRequired;
    }
    var id: string;
    if !Truthy(conversationId) {
      id := drawn.conversationId;
      var title := Title(message.value);
      var created := store.CreateConversation(userId, id, title, drawn.createdAt);
      if !created {
        return InternalError;
      }
    } else {
      id := conversationId.value;
    }
    var _ := store.SaveMessage(id, User, message.value, drawn.userAt, drawn.userMessageId);
    var history := store.GetConversationHistory(id);
    var reply := GenerateResponseWithHistory(converse, history.value);
    if reply.None? {
      return InternalError;
    }
    var _ := store.SaveMessage(id, Assistant, reply.value, drawn.assistantAt, drawn.assistantMessageId);
    var updated := store.UpdateConversationMetadata(userId, id, drawn.assistantAt);
    if !updated {
      return InternalError;
    }
    return Respond(200, ChatReply(id, reply.value, drawn.assistantAt));
  }

  /** `handle_get_conversations`. */
  method HandleGetConversations(store: ChatStore, userId: string, limit: LimitParam) returns (resp: Response)
    requires store.Valid()
    ensures ConversationsListed(store.Snapshot(), userId, limit, resp)
  {
    var n := LimitValue(limit, 20);
    if n.None? {
      return InternalError;
    }
    var result := store.QueryConversationsByRecency(userId, n.value);
    if result.Failure? {
      return InternalError;
    }
    return Respond(200, ConversationList(result.value));
  }

  /** `handle_get_messages`. */
  method HandleGetMessages(store: ChatStore, conversationId: string, userId: string, limit: LimitParam) returns (resp: Response)
    requires store.Valid()
    ensures resp == GetMessagesSpec(store.Snapshot(), userId, conversationId, limit)
  {
    var conv := store.GetConversation(userId, conversationId);
    if conv.Failure? {
      return InternalError;
    }
    if conv.value.None? {
      return ConversationNotFound;
    }
    var n := LimitValue(limit, 50);
    if n.None? {
      return InternalError;
    }
    var result := store.QueryMessagesNewestFirst(conversationId, n.value);
    if result.Failure? {
      return InternalError;
    }
    return Respond(200, MessageList(conversationId, result.value));
  }

  /** The items left after deleting the keys (conversationId, timestamp) of `deleted`. */
  function WithoutStamps(t: MessageTable, conversationId: string, deleted: set<int>): MessageTable {
    map k | k in t && !(k.conversationId == conversationId && k.timestamp in deleted) :: t[k]
  }

  /** The timestamps of a list of messages. */
  function Stamps(ms: seq<Message>): (r: set<int>)
    ensures forall i :: 0 <= i < |ms| ==> ms[i].timestamp in r
  {
    if ms == [] then {} else Stamps(ms[..|ms| - 1]) + {ms[|ms| - 1].timestamp}
  }

  /** One more `delete_item` removes one more timestamp. */
  lemma DeleteOneMoreStamp(t: MessageTable, conversationId: string, deleted: set<int>, x: int)
    ensures WithoutStamps(t, conversationId, deleted) - {MessageKey(conversationId, x)}
         == WithoutStamps(t, conversationId, deleted + {x})
  {
  }

  /** Deleting the timestamps of the whole history removes the conversation. */
  lemma DeletingHistoryStamps(t: MessageTable, conversationId: string)
    requires MessagesWellKeyed(t)
    ensures WithoutStamps(t, conversationId, Stamps(History(t, conversationId))) == WithoutConversation(t, conversationId)
  {
    var h := History(t, conversationId);
    HistoryIsSortedProjection(t, conversationId);
    forall k | k in t && k.conversationId == conversationId
      ensures k.timestamp in Stamps(h)
    {
      var j :| 0 <= j < |h| && h[j] == t[k];
    }
  }

  /** `handle_delete_conversation`: the ownership check, the delete of the
      record, then one delete per message of the conversation. */
  method HandleDeleteConversation(store: ChatStore, conversationId: string, userId: string) returns (resp: Response)
    requires store.Valid()
    modifies store
    ensures store.Valid()
    ensures (store.Snapshot(), resp) == DeleteSpec(old(store.Snapshot()), userId, conversationId)
  {
    var conv := store.GetConversation(userId, conversationId);
    if conv.Failure? {
      return InternalError;
    }
    if conv.value.None? {
      return ConversationNotFound;
    }
    var _ := store.DeleteConversation(userId, conversationId);
    var history := store.GetConversationHistory(conversationId);
    var messages := history.value;
    ghost var before := store.messages;
    var i := 0;
    while i < |messages|
      invariant 0 <= i <= |messages|
      invariant store.Valid()
      invariant store.conversations == old(store.conversations) - {ConversationKey(userId, conversationId)}
      invariant store.messages == WithoutStamps(before, conversationId, Stamps(messages[..i]))
    {
      var _ := store.DeleteMessage(conversationId, messages[i].timestamp);
      DeleteOneMoreStamp(before, conversationId, Stamps(messages[..i]), messages[i].timestamp);
      assert messages[..i + 1][..i] == messages[..i];
      i := i + 1;
    }
    assert messages[..i] == messages;
    DeletingHistoryStamps(before, conversationId);
    return Respond(200, Deleted("Conversation deleted successfully", conversationId));
  }

  /** `lambda_handler`. */
  method LambdaHandler(store: ChatStore, event: Event, drawn: Fresh, converse: Converse) returns (resp: Response)
    requires store.Valid()
    modifies store
    ensures store.Valid()
    ensures Handled(old(store.Snapshot()), event, drawn, converse, store.Snapshot(), resp)
  {
    if event.sub.None? {
      return InternalError;
    }
    var userId := event.sub.value;
    match RouteOf(event.httpMethod, event.path)
    case PostChat =>
      if event.body.Unparsable? {
        resp := InternalError;
      } else {
        resp := HandleChat(store, event.body.request, userId, drawn, converse);
      }
    case ListConversations =>
      resp := HandleGetConversations(store, userId, event.limit);
    case GetConversation(id) =>
      resp := HandleGetMessages(store, id, userId, event.limit);
    case DeleteConversation(id) =>
      resp := HandleDeleteConversation(store, id, userId);
    case Unrouted =>
      resp := RouteNotFound;
  }
}
