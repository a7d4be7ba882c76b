// What the chat backend promises across requests, stated over the
// specification functions the handlers are proved against (module Handler):
// a turn's effect on both tables, the cascade of a delete, ownership, the
// shape of every response, and the two places where the code does less than
// its data suggests (same-second replies, unchecked conversation ids).

module ChatProperties {
  import opened Records
  import opened Store
  import opened Bedrock
  import opened Handler

  ghost predicate WellKeyed(s: Tables) {
    ConversationsWellKeyed(s.conversations) && MessagesWellKeyed(s.messages)
  }

  // ----- titles and routing -----

  /** A title is at most 53 characters, starts like the message, and making a
      title of a title changes nothing. */
  lemma TitleIsStable(message: string)
    ensures |Title(message)| <= 53
    ensures Title(message)[..if |message| < 50 then |message| else 50] == message[..if |message| < 50 then |message| else 50]
    ensures Title(Title(message)) == Title(message)
  {
    if |message| > 50 {
      assert Title(message)[..50] == message[..50];
    }
  }

  /** The last segment of `prefix + "/" + id` is `id` whenever `id` holds no '/'. */
  lemma {:induction false} LastSegmentAfterSlash(prefix: string, id: string)
    requires '/' !in id
    ensures LastSegment(prefix + "/" + id) == id
    decreases |id|
  {
    var p := prefix + "/" + id;
    if id == [] {
      assert p[|p| - 1] == '/';
    } else {
      assert p[|p| - 1] == id[|id| - 1];
      assert p[..|p| - 1] == prefix + "/" + id[..|id| - 1];
      LastSegmentAfterSlash(prefix, id[..|id| - 1]);
      assert id == id[..|id| - 1] + [id[|id| - 1]];
    }
  }

  /** `/conversations/<id>` reaches the handler with `id`, for GET and DELETE
      alike, and `/conversations/` with the empty id. */
  lemma ConversationPathRoundTrip(id: string)
    requires '/' !in id
    ensures RouteOf("GET", ConversationsPrefix + id) == GetConversation(id)
    ensures RouteOf("DELETE", ConversationsPrefix + id) == DeleteConversation(id)
  {
    assert ConversationsPrefix + id == "/conversations" + "/" + id;
    LastSegmentAfterSlash("/conversations", id);
    assert ConversationsPrefix <= ConversationsPrefix + id;
  }

  // ----- POST /chat -----

  /** Without a (non-empty) message nothing is written and the answer is 400. */
  lemma MissingMessageWritesNothing(s: Tables, userId: string, req: ChatRequest, drawn: Fresh, converse: Converse)
    ensures !Truthy(req.message) <==> ChatSpec(s, userId, req, drawn, converse).1.statusCode == 400
    ensures !Truthy(req.message) ==> ChatSpec(s, userId, req, drawn, converse).0 == s
  {
  }

  /** A turn keeps both tables well keyed. */
  lemma ChatKeepsTablesWellKeyed(s: Tables, userId: string, req: ChatRequest, drawn: Fresh, converse: Converse)
    requires WellKeyed(s)
    ensures WellKeyed(ChatSpec(s, userId, req, drawn, converse).0)
  {
    if Truthy(req.message) {
      var id := TurnConversationId(req, drawn);
      if Truthy(req.conversationId) || (ValidKey(userId) && ValidKey(id)) {
        var conversations := AfterCreate(s, userId, req, drawn);
        assert ConversationsWellKeyed(conversations);
        var afterUser := AfterUserMessage(s, req, drawn);
        assert MessagesWellKeyed(afterUser);
        match GenerateResponseWithHistory(converse, TurnHistory(s, req, drawn))
        case None =>
        case Some(reply) =>
          var r := ReplyRecord(id, reply, drawn);
          assert MessagesWellKeyed(afterUser[MessageKeyOf(r) := r]);
          var key := ConversationKey(userId, id);
          if key in conversations {
            assert KeyOf(Touched(conversations[key], drawn.assistantAt)) == key;
            assert ConversationsWellKeyed(conversations[key := Touched(conversations[key], drawn.assistantAt)]);
          }
      }
    }
  }

  /** The record is created before anything is saved: when DynamoDB refuses
      the new record (an empty user id or drawn id) nothing is stored and the
      answer is 500; otherwise the record and the user's message are both stored,
      whatever the model call does. */
  lemma FailedCreateWritesNothing(s: Tables, userId: string, req: ChatRequest, drawn: Fresh, converse: Converse)
    requires Truthy(req.message) && !Truthy(req.conversationId)
    ensures var (s', resp) := ChatSpec(s, userId, req, drawn, converse);
      var id := drawn.conversationId;
      && (!(ValidKey(userId) && ValidKey(id)) ==> s' == s && resp == InternalError)
      && (ValidKey(userId) && ValidKey(id) ==>
            && ConversationKey(userId, id) in s'.conversations
            && s'.conversations[ConversationKey(userId, id)].title == Title(req.message.value)
            && MessageKey(id, drawn.userAt) in s'.messages
            && (drawn.userAt != drawn.assistantAt || resp.statusCode != 200 ==>
                  s'.messages[MessageKey(id, drawn.userAt)] == UserRecord(id, req.message.value, drawn)))
  {
  }

  /** A turn that names a conversation never creates, removes or retitles a
      conversation record, whatever path it takes. */
  lemma SuppliedIdCreatesNothing(s: Tables, userId: string, req: ChatRequest, drawn: Fresh, converse: Converse)
    requires Truthy(req.conversationId)
    ensures var s' := ChatSpec(s, userId, req, drawn, converse).0;
      && s'.conversations.Keys == s.conversations.Keys
      && (forall k :: k in s.conversations ==>
            s'.conversations[k].title == s.conversations[k].title && s'.conversations[k].createdAt == s.conversations[k].createdAt)
  {
  }

  /** A turn without a conversation id whose reply arrives: one new record
      (titled from the message, created when the turn began, updated when the
      reply was stamped, counting two messages), every other record as it was,
      and the user's message and the reply put in that order. */
  lemma NewConversationTurn(s: Tables, userId: string, req: ChatRequest, drawn: Fresh, converse: Converse, reply: string)
    requires Truthy(req.message) && !Truthy(req.conversationId)
    requires ValidKey(userId) && ValidKey(drawn.conversationId)
    requires GenerateResponseWithHistory(converse, TurnHistory(s, req, drawn)) == Some(reply)
    ensures var (s', resp) := ChatSpec(s, userId, req, drawn, converse);
      var id := drawn.conversationId;
      var key := ConversationKey(userId, id);
      && resp == Respond(200, ChatReply(id, reply, drawn.assistantAt))
      && s'.conversations.Keys == s.conversations.Keys + {key}
      && s'.conversations[key] == Conversation(userId, id, Title(req.message.value), drawn.createdAt, drawn.assistantAt, 2)
      && (forall k :: k in s.conversations && k != key ==> s'.conversations[k] == s.conversations[k])
      && s'.messages == s.messages[MessageKey(id, drawn.userAt) := UserRecord(id, req.message.value, drawn)]
                                  [MessageKey(id, drawn.assistantAt) := ReplyRecord(id, reply, drawn)]
  {
  }

  /** A turn on a conversation the user owns whose reply arrives: no record
      appears or disappears, and the user's record only moves its `updatedAt`
      to the reply's timestamp and counts two more messages. */
  lemma ExistingConversationTurn(s: Tables, userId: string, req: ChatRequest, drawn: Fresh, converse: Converse, reply: string)
    requires Truthy(req.message) && Truthy(req.conversationId)
    requires ConversationKey(userId, req.conversationId.value) in s.conversations
    requires GenerateResponseWithHistory(converse, TurnHistory(s, req, drawn)) == Some(reply)
    ensures var (s', resp) := ChatSpec(s, userId, req, drawn, converse);
      var id := req.conversationId.value;
      var key := ConversationKey(userId, id);
      var c := s.conversations[key];
      && resp == Respond(200, ChatReply(id, reply, drawn.assistantAt))
      && s'.conversations.Keys == s.conversations.Keys
      && s'.conversations[key] == Conversation(c.userId, c.conversationId, c.title, c.createdAt, drawn.assistantAt, c.messageCount + 2)
      && (forall k :: k in s.conversations && k != key ==> s'.conversations[k] == s.conversations[k])
      && s'.messages == s.messages[MessageKey(id, drawn.userAt) := UserRecord(id, req.message.value, drawn)]
                                  [MessageKey(id, drawn.assistantAt) := ReplyRecord(id, reply, drawn)]
  {
  }

  /** Whatever path a turn takes, a 200 means the reply is stored, the
      conversation record is the user's and was stamped with the reply's time. */
  lemma SuccessfulTurnMetadata(s: Tables, userId: string, req: ChatRequest, drawn: Fresh, converse: Converse)
    ensures var (s', resp) := ChatSpec(s, userId, req, drawn, converse);
      resp.statusCode == 200 ==>
        && resp.body.ChatReply?
        && var id := resp.body.conversationId;
        && resp.body.timestamp == drawn.assistantAt
        && ConversationKey(userId, id) in s'.conversations
        && s'.conversations[ConversationKey(userId, id)].updatedAt == drawn.assistantAt
        && MessageKey(id, drawn.assistantAt) in s'.messages
        && s'.messages[MessageKey(id, drawn.assistantAt)] == ReplyRecord(id, resp.body.response, drawn)
  {
    var (s', resp) := ChatSpec(s, userId, req, drawn, converse);
    if resp.statusCode == 200 && Truthy(req.conversationId) {
      var key := ConversationKey(userId, req.conversationId.value);
      assert key in s.conversations;
    }
  }

  /** The model is shown the message just saved: it is in the history, and when
      the conversation holds nothing newer it is the last entry, sent as a user
      turn holding exactly that text. */
  lemma ModelSeesUserMessage(s: Tables, req: ChatRequest, drawn: Fresh)
    requires WellKeyed(s) && Truthy(req.message)
    requires ValidKey(TurnConversationId(req, drawn))
    ensures var id := TurnConversationId(req, drawn);
      var h := TurnHistory(s, req, drawn);
      && UserRecord(id, req.message.value, drawn) in h
      && ((forall k :: k in s.messages && k.conversationId == id && k.timestamp != drawn.userAt ==> k.timestamp < drawn.userAt)
            ==> |h| > 0 && ToConverseMessages(h)[|h| - 1] == ConverseMessage(User, [ContentBlock(req.message.value)]))
  {
    var id := TurnConversationId(req, drawn);
    var m := UserRecord(id, req.message.value, drawn);
    SavedMessageIsInHistory(s.messages, m);
  }

  /** The stored timestamps are whole seconds, so a reply stamped in the same
      second as the user's message replaces it: a new conversation then holds
      one message while its record counts two. */
  lemma SameSecondReplyReplacesUserMessage(s: Tables, userId: string, req: ChatRequest, drawn: Fresh, converse: Converse, reply: string)
    requires WellKeyed(s)
    requires Truthy(req.message) && !Truthy(req.conversationId)
    requires ValidKey(userId) && ValidKey(drawn.conversationId)
    requires forall k :: k in s.messages ==> k.conversationId != drawn.conversationId
    requires drawn.userAt == drawn.assistantAt
    requires GenerateResponseWithHistory(converse, TurnHistory(s, req, drawn)) == Some(reply)
    ensures var (s', resp) := ChatSpec(s, userId, req, drawn, converse);
      var id := drawn.conversationId;
      && resp.statusCode == 200
      && History(s'.messages, id) == [ReplyRecord(id, reply, drawn)]
      && s'.conversations[ConversationKey(userId, id)].messageCount == 2
  {
    var (s', resp) := ChatSpec(s, userId, req, drawn, converse);
    var id := drawn.conversationId;
    var r := ReplyRecord(id, reply, drawn);
    NewConversationTurn(s, userId, req, drawn, converse, reply);
    assert s'.messages == s.messages[MessageKeyOf(r) := r];
    SingleItemHistory(s'.messages, r);
  }

  /** `handle_chat` never checks who owns a supplied conversation id: a turn
      naming a conversation the user does not own still stores both messages
      under that id (possibly inside another user's conversation) before it
      answers 500, and leaves the conversations table alone. */
  lemma UncheckedConversationIdWritesMessages(s: Tables, userId: string, req: ChatRequest, drawn: Fresh, converse: Converse, reply: string)
    requires Truthy(req.message) && Truthy(req.conversationId)
    requires ConversationKey(userId, req.conversationId.value) !in s.conversations
    requires GenerateResponseWithHistory(converse, TurnHistory(s, req, drawn)) == Some(reply)
    ensures var (s', resp) := ChatSpec(s, userId, req, drawn, converse);
      var id := req.conversationId.value;
      && resp == InternalError
      && s'.conversations == s.conversations
      && s'.messages == s.messages[MessageKey(id, drawn.userAt) := UserRecord(id, req.message.value, drawn)]
                                  [MessageKey(id, drawn.assistantAt) := ReplyRecord(id, reply, drawn)]
  {
  }

  /** When the model call fails the answer is 500, yet the user's message
      (and a new conversation's record) stay stored. */
  lemma FailedReplyKeepsUserMessage(s: Tables, userId: string, req: ChatRequest, drawn: Fresh, converse: Converse)
    requires Truthy(req.message)
    requires Truthy(req.conversationId) || (ValidKey(userId) && ValidKey(drawn.conversationId))
    requires GenerateResponseWithHistory(converse, TurnHistory(s, req, drawn)) == None
    ensures var (s', resp) := ChatSpec(s, userId, req, drawn, converse);
      var id := TurnConversationId(req, drawn);
      && resp == InternalError
      && s'.messages == s.messages[MessageKey(id, drawn.userAt) := UserRecord(id, req.message.value, drawn)]
      && s'.conversations == AfterCreate(s, userId, req, drawn)
  {
  }

  // ----- GET /conversations/{id} -----

  /** A 200 from `handle_get_messages` lists stored messages of that
      conversation, newest first with strictly decreasing timestamps, at most
      `limit` of them, and all of them when there are no more than that. */
  lemma GetMessagesPage(s: Tables, userId: string, conversationId: string, limit: LimitParam)
    requires WellKeyed(s)
    requires GetMessagesSpec(s, userId, conversationId, limit).statusCode == 200
    ensures var resp := GetMessagesSpec(s, userId, conversationId, limit);
      var n := LimitValue(limit, 50);
      && ConversationKey(userId, conversationId) in s.conversations
      && n.Some? && n.value >= 1
      && resp.body.MessageList? && resp.body.conversationId == conversationId
      && var page := resp.body.messages;
      && |page| <= n.value
      && (forall i :: 0 <= i < |page| ==> page[i].conversationId == conversationId
                                           && MessageKeyOf(page[i]) in s.messages && s.messages[MessageKeyOf(page[i])] == page[i])
      && (forall i, j :: 0 <= i < j < |page| ==> page[i].timestamp > page[j].timestamp)
      && (|page| < n.value ==> forall k :: k in s.messages && k.conversationId == conversationId ==> s.messages[k] in page)
  {
    NewestFirstIsDescending(s.messages, conversationId);
    var h := NewestFirst(s.messages, conversationId);
    var n := LimitValue(limit, 50).value;
    var page := Take(h, n);
    assert forall i :: 0 <= i < |page| ==> page[i] == h[i];
  }

  /** Another user's conversation (or one that does not exist) is reported as
      not found by both GET and DELETE, and DELETE then changes nothing. */
  lemma OtherUsersConversationIsNotFound(s: Tables, userId: string, conversationId: string, limit: LimitParam)
    requires ValidKey(userId) && ValidKey(conversationId)
    requires ConversationKey(userId, conversationId) !in s.conversations
    ensures GetMessagesSpec(s, userId, conversationId, limit) == ConversationNotFound
    ensures DeleteSpec(s, userId, conversationId) == (s, ConversationNotFound)
  {
  }

  // ----- DELETE /conversations/{id} -----

  /** A delete of the user's conversation removes its record and every one of
      its messages (its history becomes empty) and touches nothing else. */
  lemma DeleteCascades(s: Tables, userId: string, conversationId: string)
    requires ValidKey(userId) && ValidKey(conversationId)
    requires ConversationKey(userId, conversationId) in s.conversations
    ensures var (s', resp) := DeleteSpec(s, userId, conversationId);
      && resp.statusCode == 200
      && s'.conversations.Keys == s.conversations.Keys - {ConversationKey(userId, conversationId)}
      && (forall k :: k in s'.conversations ==> s'.conversations[k] == s.conversations[k])
      && History(s'.messages, conversationId) == []
      && (forall k :: k in s.messages && k.conversationId != conversationId ==> k in s'.messages && s'.messages[k] == s.messages[k])
      && (forall k :: k in s'.messages ==> k in s.messages && k.conversationId != conversationId)
  {
    var (s', resp) := DeleteSpec(s, userId, conversationId);
    EmptyHistory(s'.messages, conversationId);
  }

  /** Deleting twice: the second request finds nothing and changes nothing. */
  lemma SecondDeleteIsNotFound(s: Tables, userId: string, conversationId: string)
    requires DeleteSpec(s, userId, conversationId).1.statusCode == 200
    ensures var s' := DeleteSpec(s, userId, conversationId).0;
      DeleteSpec(s', userId, conversationId) == (s', ConversationNotFound)
  {
  }

  // ----- lambda_handler -----

  /** Only POST /chat and DELETE /conversations/{id} can change a table;
      every other request, and every request without a user, leaves both alone. */
  lemma OnlyPostAndDeleteWrite(s: Tables, e: Event, drawn: Fresh, converse: Converse, s': Tables, resp: Response)
    requires Handled(s, e, drawn, converse, s', resp)
    requires e.sub.None? || !(RouteOf(e.httpMethod, e.path) == PostChat || RouteOf(e.httpMethod, e.path).DeleteConversation?)
    ensures s' == s
  {
  }

  /** Every response carries the JSON and CORS headers and one of the four
      status codes the handler uses. */
  lemma ResponsesAreJsonWithCors(s: Tables, e: Event, drawn: Fresh, converse: Converse, s': Tables, resp: Response)
    requires Handled(s, e, drawn, converse, s', resp)
    ensures resp.headers == JsonCorsHeaders
    ensures resp.statusCode in {200, 400, 404, 500}
    ensures resp.statusCode == 400 ==> e.body.Json? && !Truthy(e.body.request.message)
  {
  }

  /** A listing answers with the user's own records only, newest first. */
  lemma ListingIsOwnAndRecent(s: Tables, userId: string, limit: LimitParam, resp: Response)
    requires ConversationsListed(s, userId, limit, resp)
    ensures resp.statusCode == 200 || resp == InternalError
    ensures resp.statusCode == 200 && limit.Absent? ==>
      |resp.body.conversations| == if 20 < |OwnedIds(s.conversations, userId)| then 20 else |OwnedIds(s.conversations, userId)|
    ensures resp.statusCode == 200 ==>
      && resp.body.ConversationList?
      && (forall i :: 0 <= i < |resp.body.conversations| ==>
            resp.body.conversations[i].userId == userId && KeyOf(resp.body.conversations[i]) in s.conversations)
      && (forall i, j :: 0 <= i < j < |resp.body.conversations| ==>
            resp.body.conversations[i].updatedAt >= resp.body.conversations[j].updatedAt)
  {
  }
}
