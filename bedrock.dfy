// BedrockService (lambda/services/bedrock_service.py): the message list handed
// to the Converse API. The `converse` call itself, its inference settings and
// the parsing of its reply are outside the model; a call is represented by a
// function from the message list to the reply text, None standing for a call
// that raised.

module Bedrock {
  import opened Records

  /** One `{"text": ...}` content block. */
  datatype ContentBlock = ContentBlock(text: string)

  /** One `{"role": ..., "content": [...]}` entry of the Converse `messages` list. */
  datatype ConverseMessage = ConverseMessage(role: Role, content: seq<ContentBlock>)

  /** The Converse call: the reply text, or None when the call raised. */
  type Converse = seq<ConverseMessage> -> Option<string>

  /** The conversion of one stored record. */
  function ToConverseMessage(m: Message): ConverseMessage {
    ConverseMessage(m.role, [ContentBlock(m.content)])
  }

  /** The list comprehension of `generate_response_with_history`: one entry per
      stored record, in the same order, keeping the role and wrapping the content
      in a single text block. */
  function ToConverseMessages(history: seq<Message>): (r: seq<ConverseMessage>)
    ensures |r| == |history|
    ensures forall i :: 0 <= i < |history| ==>
      r[i].role == history[i].role && r[i].content == [ContentBlock(history[i].content)]
  {
    if history == [] then [] else [ToConverseMessage(history[0])] + ToConverseMessages(history[1..])
  }

  /** The conversion distributes over concatenation: a longer history only
      appends entries, it never reorders the earlier ones. */
  lemma ConversionAppends(older: seq<Message>, newer: seq<Message>)
    ensures ToConverseMessages(older + newer) == ToConverseMessages(older) + ToConverseMessages(newer)
  {
    var whole := ToConverseMessages(older + newer);
    var parts := ToConverseMessages(older) + ToConverseMessages(newer);
    forall i | 0 <= i < |whole|
      ensures whole[i] == parts[i]
    {
      if i < |older| {
        assert (older + newer)[i] == older[i];
      } else {
        assert (older + newer)[i] == newer[i - |older|];
      }
    }
  }

  /** The list literal of `generate_response`: a single user turn. */
  function SingleTurn(userMessage: string): seq<ConverseMessage> {
    [ConverseMessage(User, [ContentBlock(userMessage)])]
  }

  /** `generate_response(m)` sends what `generate_response_with_history` sends
      for a history holding the single user record `m`, whatever that record's
      key and id. */
  lemma SingleTurnIsOneRecordHistory(userMessage: string, conversationId: string, timestamp: int, messageId: string)
    ensures SingleTurn(userMessage) == ToConverseMessages([Message(conversationId, timestamp, messageId, User, userMessage)])
  {
  }

  /** The list `generate_response_with_history` sends for `history`, described
      entry by entry: one entry per record, same order, same role, the content
      as a single text block. */
  ghost predicate SentFor(history: seq<Message>, msgs: seq<ConverseMessage>) {
    && |msgs| == |history|
    && forall i :: 0 <= i < |history| ==> msgs[i].role == history[i].role && msgs[i].content == [ContentBlock(history[i].content)]
  }

  /** Only one list fits that description: the conversion. */
  lemma SentForIsConversion(history: seq<Message>, msgs: seq<ConverseMessage>)
    requires SentFor(history, msgs)
    ensures msgs == ToConverseMessages(history)
  {
    var c := ToConverseMessages(history);
    forall i | 0 <= i < |msgs|
      ensures msgs[i] == c[i]
    {
      assert msgs[i].role == c[i].role && msgs[i].content == c[i].content;
    }
  }

  /** `generate_response_with_history`: the reply to the list described by `SentFor`. */
  function GenerateResponseWithHistory(converse: Converse, history: seq<Message>): (r: Option<string>)
    ensures forall msgs :: SentFor(history, msgs) ==> r == converse(msgs)
  {
    var sent := ToConverseMessages(history);
    assert forall msgs :: SentFor(history, msgs) ==> msgs == sent by {
      forall msgs | SentFor(history, msgs)
        ensures msgs == sent
      {
        SentForIsConversion(history, msgs);
      }
    }
    converse(sent)
  }

  /** `generate_response`: the reply a one-record user history gets, whatever
      that record's key and id. */
  function GenerateResponse(converse: Converse, userMessage: string): (r: Option<string>)
    ensures forall conversationId, timestamp, messageId ::
      r == GenerateResponseWithHistory(converse, [Message(conversationId, timestamp, messageId, User, userMessage)])
  {
    assert forall conversationId, timestamp, messageId ::
      SingleTurn(userMessage) == ToConverseMessages([Message(conversationId, timestamp, messageId, User, userMessage)]) by {
      forall conversationId, timestamp, messageId
        ensures SingleTurn(userMessage) == ToConverseMessages([Message(conversationId, timestamp, messageId, User, userMessage)])
      {
        SingleTurnIsOneRecordHistory(userMessage, conversationId, timestamp, messageId);
      }
    }
    converse(SingleTurn(userMessage))
  }

  /** The list sent depends on a stored record only through its role and
      content: histories that agree on those send the same list, so the model
      is asked the same question. */
  lemma SentListIgnoresKeysAndIds(converse: Converse, a: seq<Message>, b: seq<Message>)
    requires |a| == |b|
    requires forall i :: 0 <= i < |a| ==> a[i].role == b[i].role && a[i].content == b[i].content
    ensures ToConverseMessages(a) == ToConverseMessages(b)
    ensures GenerateResponseWithHistory(converse, a) == GenerateResponseWithHistory(converse, b)
  {
    assert SentFor(b, ToConverseMessages(a));
    SentForIsConversion(b, ToConverseMessages(a));
  }
}
