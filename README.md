# Chat backend core: a Dafny model

This project models the backend of a chat application. The backend is an AWS
Lambda function. It stores conversations and their messages in two DynamoDB
tables and asks a Bedrock model for each reply.

Modules:

- `Records` (`records.dfy`): the items of the two tables and their primary keys.
  - The conversations table is keyed by (userId, conversationId).
  - The messages table is keyed by (conversationId, timestamp in whole seconds).
- `Store` (`store.dfy`): `DynamoDBService` as the class `ChatStore`.
  - Each table is a `map` field from primary key to item, so `put_item` replaces an item with the same key.
  - Each table call the handler makes is a method proved against functions on the maps.
  - `History` is the messages of one conversation, oldest first.
  - `NewestFirst` is the reverse query order.
  - `IsRecencyPage` describes the `userId-updatedAt-index` query.
- `Bedrock` (`bedrock.dfy`): the conversion of stored records into the Converse `messages` list.
  - The Converse call is a function parameter. Its result `None` stands for a call that raised.
- `Handler` (`handler.dfy`): `lambda_handler`, its four handlers and `response`.
  - The pure parts are functions: routing, the title rule and `response`.
  - Each handler is a method on a `ChatStore`.
  - Each method is proved equal to a specification function of the tables before the request: `ChatSpec`, `GetMessagesSpec`, `DeleteSpec`.
  - The conversation listing is proved to satisfy the relational `ConversationsListed`, because equal `updatedAt` values have no fixed order.
  - `LambdaHandler` is proved to satisfy `Handled`.
- `ChatProperties` (`chat_properties.dfy`): what holds across requests, stated over those specification functions.

Values that are not inputs become parameters:

- the user id from the Cognito claims;
- the uuids and clock readings one chat turn draws (`Fresh`);
- the model call.

The failures this model represents, each of which the handler turns into the 500 response, are:

- DynamoDB's refusal of an empty key attribute (for example GET `/conversations/`, whose last path segment is empty);
- a `Limit` below 1;
- a `limit` parameter that `int()` rejects;
- an `update_item` on a missing conversation, where `messageCount + :inc` names an attribute that does not exist;
- a failed model call.

Behaviour of the code that the model keeps:

- Timestamps are whole seconds. A user message and its reply stamped in the same second share a key, so the reply replaces the message (`SameSecondReplyReplacesUserMessage`).
- GET `/conversations/{id}` returns messages newest first.
- `create_conversation` is an unconditional put. It replaces any record with the same key.
- A metadata update on a missing record raises, and the request answers 500.
- The only status codes are 200, 400, 404 and 500:
  - 400 is a chat body without a message;
  - 404 is an unknown route, or a conversation the caller does not own on GET or DELETE;
  - 500 is every caught exception.
- `handle_chat` does not check who owns a supplied `conversationId` (`UncheckedConversationIdWritesMessages`).

## Model

| member | source | states |
|---|---|---|
| Store.ChatStore.CreateConversation | lambda/services/dynamodb_service.py:16-27 | puts (userId, conversationId, title, createdAt = updatedAt = timestamp, messageCount 0) unconditionally, replacing any item with that key; refused for an empty key; the messages table is unchanged |
| Store.ChatStore.SaveMessage | lambda/services/dynamodb_service.py:29-39 | puts the message under (conversationId, timestamp) with the given messageId, replacing any item with that key; the conversations table is unchanged |
| Store.ChatStore.GetConversationHistory | lambda/services/dynamodb_service.py:41-48 | returns exactly `History` of the conversation; an empty id is refused |
| Store.HistoryIsSortedProjection | lambda/services/dynamodb_service.py:41-48 | every history entry is a stored message of that conversation, every stored message of it appears, timestamps strictly ascend, and the length is the number of stored timestamps |
| Store.ChatStore.UpdateConversationMetadata | lambda/services/dynamodb_service.py:50-62 | on an existing record sets updatedAt and adds 2 to messageCount, keeping title, createdAt and every other record; on a missing record fails and changes nothing |
| Store.SameKeyPutReplaces | lambda/services/dynamodb_service.py:29-39 | after a second put under the same (conversationId, timestamp), the conversation's history is what the second put alone gives: the second item is in it and the first is not |
| Store.SavedMessageIsInHistory | lambda/services/dynamodb_service.py:29-48 | a message just saved is in its conversation's history, and is the last entry when every other message of the conversation is older |
| Store.EmptyHistory | lambda/services/dynamodb_service.py:41-48 | a conversation with no stored message has an empty history |
| Store.SingleItemHistory | lambda/services/dynamodb_service.py:41-48 | a conversation with one stored message has exactly that message as its history |
| Store.NewestFirstIsDescending | lambda/handler.py:139-149 | the ScanIndexForward=False order holds exactly the conversation's stored messages with strictly decreasing timestamps |
| Store.Take | lambda/handler.py:143 | `Limit`: the first n items, or all when there are fewer |
| Store.ChatStore.QueryMessagesNewestFirst | lambda/handler.py:137-149 | the newest `limit` messages of the conversation; a limit below 1 or an empty id is refused |
| Store.ChatStore.QueryConversationsByRecency | lambda/handler.py:107-120 | a recency page: min(limit, owned) of the user's records, each once, by updatedAt descending, none left out more recent than one returned; a limit below 1 or an empty user id is refused |
| Store.ChatStore.GetConversation | lambda/handler.py:131-134 | the record stored under (userId, conversationId) if any; refused for an empty key |
| Store.ChatStore.DeleteConversation | lambda/handler.py:168-170 | removes that record if present and nothing else |
| Store.ChatStore.DeleteMessage | lambda/handler.py:177-179 | removes the message under (conversationId, timestamp) and nothing else |
| Bedrock.ToConverseMessages | lambda/services/bedrock_service.py:36-42 | same length and order as the history; each entry keeps the role and holds one text block equal to the content |
| Bedrock.ConversionAppends | lambda/services/bedrock_service.py:36-42 | converting a concatenation is the concatenation of the conversions |
| Bedrock.SingleTurnIsOneRecordHistory | lambda/services/bedrock_service.py:15-20 | `generate_response(m)` sends what `generate_response_with_history` sends for a one-record user history holding m |
| Bedrock.GenerateResponseWithHistory | lambda/services/bedrock_service.py:33-54 | the reply is the model's answer to the list holding one entry per record, in order, with the record's role and its content as a single text block |
| Bedrock.GenerateResponse | lambda/services/bedrock_service.py:13-31 | the reply is what `generate_response_with_history` gets for a one-record user history holding the message, whatever that record's key and id |
| Bedrock.SentListIgnoresKeysAndIds | lambda/services/bedrock_service.py:36-42 | histories that agree on every role and content send the same message list |
| Handler.Respond | lambda/handler.py:187-196 | the response carries the given status and body with the `Content-Type: application/json` and `Access-Control-Allow-Origin: *` headers |
| Handler.LimitValue | lambda/handler.py:107 | `int(params.get('limit', default))`: fails exactly when `int()` rejects the parameter; otherwise the given number, or the default when absent |
| Handler.Title | lambda/handler.py:72 | a message of at most 50 characters is its own title; a longer one gives 53 characters: its first 50 followed by "..." |
| Handler.LastSegment | lambda/handler.py:43 | the result holds no '/', is a suffix of the path, and is preceded by '/' unless it is the whole path |
| Handler.RouteOf | lambda/handler.py:33-51 | each of the four handlers is chosen exactly for its method and path condition, with the id being the last path segment; anything else is unrouted |
| Handler.HandleChat | lambda/handler.py:60-102 | the tables after the turn and the response are `ChatSpec` of the tables before it |
| Handler.HandleGetConversations | lambda/handler.py:105-125 | the response satisfies `ConversationsListed` (default limit 20; 500 for a bad limit or empty user id) |
| Handler.HandleGetMessages | lambda/handler.py:128-155 | the response is `GetMessagesSpec`: 404 unless the caller owns the conversation, else the newest `limit` messages (default 50) |
| Handler.DeletingHistoryStamps | lambda/handler.py:173-179 | deleting the timestamps of the whole history removes exactly the conversation's messages |
| Handler.HandleDeleteConversation | lambda/handler.py:158-184 | the tables after the request and the response are `DeleteSpec` of the tables before it |
| Handler.LambdaHandler | lambda/handler.py:24-57 | the (tables, response) pair satisfies `Handled`: no user claim gives 500, an unparsable chat body gives 500, an unknown route gives 404, otherwise the routed handler's specification |
| ChatProperties.TitleIsStable | lambda/handler.py:72 | a title has at most 53 characters, starts like the message, and titling a title changes nothing |
| ChatProperties.LastSegmentAfterSlash | lambda/handler.py:43 | the last segment of `p + "/" + id` is `id` when `id` holds no '/' |
| ChatProperties.ConversationPathRoundTrip | lambda/handler.py:42-49 | GET and DELETE of `/conversations/<id>` reach their handlers with `id` |
| ChatProperties.MissingMessageWritesNothing | lambda/handler.py:62-66 | the answer is 400 exactly when the message is missing or empty, and then nothing is written |
| ChatProperties.ChatKeepsTablesWellKeyed | lambda/handler.py:60-102 | a turn never stores an item under a key other than its own or an empty key |
| ChatProperties.FailedCreateWritesNothing | lambda/handler.py:69-83 | the record is created before any message: if DynamoDB refuses it nothing is stored; otherwise the record is stored, and so is the user message unless a successful reply stamped in the same second replaced it |
| ChatProperties.SuppliedIdCreatesNothing | lambda/handler.py:69-96 | a turn naming a conversation never adds or removes a conversation record, nor changes its title or createdAt |
| ChatProperties.NewConversationTurn | lambda/handler.py:69-102 | a new-conversation turn adds exactly one record (title from the message, createdAt when drawn, updatedAt = reply time, count 2), changes no other record, and puts the user message and then the reply |
| ChatProperties.ExistingConversationTurn | lambda/handler.py:82-102 | a turn on an owned conversation keeps the record set, moves updatedAt to the reply time, adds exactly 2 to messageCount, keeps title and createdAt, and puts both messages |
| ChatProperties.SuccessfulTurnMetadata | lambda/handler.py:92-102 | on 200 the response timestamp, the record's updatedAt and the stored reply's key all carry the reply's time |
| ChatProperties.ModelSeesUserMessage | lambda/handler.py:82-89 | the history sent to the model contains the just-saved user message, and ends with it as a user turn when nothing newer is stored |
| ChatProperties.SameSecondReplyReplacesUserMessage | lambda/handler.py:82-96 | when the reply has the user message's second, the new conversation's history is the reply alone while its record counts 2 messages |
| ChatProperties.UncheckedConversationIdWritesMessages | lambda/handler.py:69-96 | a supplied id the caller does not own still gets both messages stored before the 500, and the conversations table is untouched |
| ChatProperties.FailedReplyKeepsUserMessage | lambda/handler.py:82-89 | when the model call fails the answer is 500 and the user message (and a new record) stay stored |
| ChatProperties.GetMessagesPage | lambda/handler.py:128-155 | a 200 lists stored messages of that conversation, strictly newest first, at most `limit`, and all of them when fewer |
| ChatProperties.OtherUsersConversationIsNotFound | lambda/handler.py:131-135 | a conversation the caller does not own is 404 for GET and DELETE, and DELETE changes nothing |
| ChatProperties.DeleteCascades | lambda/handler.py:158-184 | a delete removes the record and every message of the conversation (its history becomes empty) and leaves every other record and message as it was |
| ChatProperties.SecondDeleteIsNotFound | lambda/handler.py:161-165 | after a successful delete, the same delete is 404 and changes nothing |
| ChatProperties.OnlyPostAndDeleteWrite | lambda/handler.py:24-57 | requests other than POST /chat and DELETE /conversations/{id}, and requests without a user, leave both tables unchanged |
| ChatProperties.ResponsesAreJsonWithCors | lambda/handler.py:187-196 | every response carries the JSON and CORS headers and a status among 200, 400, 404, 500; 400 only for a chat body without a message |
| ChatProperties.ListingIsOwnAndRecent | lambda/handler.py:105-125 | a listing is 200 or 500; a 200 holds only the caller's records, by updatedAt descending, and min(20, owned) of them when no limit is given |

## Left out

- Pagination: `lastEvaluatedKey` on input and output is not modelled. `ExclusiveStartKey` and the JSON decoding of the key are not modelled. Queries return the first `Limit` items of the whole result.
- The 1 MB page limit of a DynamoDB query is not modelled, so `get_conversation_history` returns the whole conversation.
- `json.loads` and `json.dumps` are not modelled. A request body is either a decoded object or unparsable. A response body is a datatype.
- A `message` or `conversationId` that is a JSON value other than a string is not modelled.
- The float branch of `DecimalEncoder` is not modelled. Every stored number is an integer.
- `int(time.time())` is taken as an integer number of seconds.
- `uuid.uuid4()` is taken as a given string. Nothing assumes two draws differ.
- The Bedrock `converse` call, its inference settings and the parsing of its reply are a function parameter.
- Read consistency is not modelled. The maps give read-after-write. DynamoDB's default reads are eventually consistent: the history query (lambda/services/dynamodb_service.py:43-47), the ownership `get_item` calls (lambda/handler.py:131, 161) and the message query (lambda/handler.py:149). The `userId-updatedAt-index` listing is always eventually consistent (lambda/handler.py:110-120). `ModelSeesUserMessage`, `DeleteCascades` and `GetMessagesPage` assume that reads see every earlier write.
- Store calls that raise with valid keys are not modelled: an item over DynamoDB's 400 KB limit, throttling, and service errors. For example, an oversized message makes `save_message` raise after `create_conversation` has succeeded (lambda/handler.py:74-83). That leaves a record with no message, and the model cannot reach this outcome. `FailedCreateWritesNothing` covers only a refused creation.
- Exceptions are modelled only as the 500 response they become. Logging and tracebacks are not modelled.
- `batch_writer` buffering and retries are not modelled. Each delete is applied at once.
- Concurrent invocations of the Lambda are not modelled.
- `ChatProperties.FailedCreateWritesNothing` states that the record is created before the messages through what a failed creation leaves behind. Intermediate table states are not stated.
- The CDK stacks, the Gradio client and the web frontend are not part of this model.
