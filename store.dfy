// The two DynamoDB tables behind DynamoDBService (lambda/services/dynamodb_service.py):
// the conversations table keyed by (userId, conversationId) and the messages
// table keyed by (conversationId, timestamp). Each table is a map from its
// primary key to its item; `put_item` replaces whatever item had the same key.

module Store {
  import opened Records

  type ConversationTable = map<ConversationKey, Conversation>
  type MessageTable = map<MessageKey, Message>

  /** The contents of both tables at one moment. */
  datatype Tables = Tables(conversations: ConversationTable, messages: MessageTable)

  /** The message DynamoDB attaches to a request that names an empty key attribute. */
  const EmptyKeyError: string := "ValidationException: key attribute is an empty string"
  /** The message DynamoDB attaches to a query whose Limit is below 1. */
  const LimitError: string := "ValidationException: Limit must be at least 1"

  /** Every item is stored under the key its own attributes spell, and no key attribute is empty. */
  ghost predicate ConversationsWellKeyed(t: ConversationTable) {
    forall k :: k in t ==> KeyOf(t[k]) == k && ValidKey(k.userId) && ValidKey(k.conversationId)
  }

  ghost predicate MessagesWellKeyed(t: MessageTable) {
    forall k :: k in t ==> MessageKeyOf(t[k]) == k && ValidKey(k.conversationId)
  }

  /** The item `create_conversation` puts. */
  function NewConversation(userId: string, conversationId: string, title: string, timestamp: int): Conversation {
    Conversation(userId, conversationId, title, timestamp, timestamp, 0)
  }

  /** The item `update_conversation_metadata` leaves behind:
      `SET updatedAt = :ua, messageCount = messageCount + 2`. */
  function Touched(c: Conversation, updatedAt: int): Conversation {
    c.(updatedAt := updatedAt, messageCount := c.messageCount + 2)
  }

  /** The sort keys stored under one conversation. */
  function TimestampsOf(t: MessageTable, conversationId: string): set<int> {
    set k | k in t && k.conversationId == conversationId :: k.timestamp
  }

  lemma TimestampsAreKeys(t: MessageTable, conversationId: string)
    ensures forall x :: x in TimestampsOf(t, conversationId) ==> MessageKey(conversationId, x) in t
  {
    forall x | x in TimestampsOf(t, conversationId)
      ensures MessageKey(conversationId, x) in t
    {
      var k :| k in t && k.conversationId == conversationId && k.timestamp == x;
      assert k == MessageKey(conversationId, x);
    }
  }

  lemma EmptyWithoutMembers<T>(s: set<T>)
    requires forall x :: x !in s
    ensures s == {}
  {
    assert forall x :: x in s <==> x in {};
  }

  /** A member of a non-empty set. */
  lemma Pick<T>(s: set<T>) returns (x: T)
    requires s != {}
    ensures x in s
  {
    if forall y :: y !in s {
      EmptyWithoutMembers(s);
      assert false;
    }
    x :| x in s;
  }

  lemma {:induction false} EarliestExists(ts: set<int>)
    requires ts != {}
    ensures exists m :: m in ts && forall x :: x in ts ==> m <= x
  {
    var y := Pick(ts);
    if ts == {y} {
      assert forall x :: x in ts ==> y <= x;
    } else {
      EarliestExists(ts - {y});
      var m :| m in ts - {y} && forall x :: x in ts - {y} ==> m <= x;
      var least := if y < m then y else m;
      forall x | x in ts
        ensures least <= x
      {
        if x != y { assert x in ts - {y}; }
      }
      assert least in ts;
    }
  }

  /** The smallest timestamp of a non-empty set. */
  ghost function Earliest(ts: set<int>): (m: int)
    requires ts != {}
    ensures m in ts && forall x :: x in ts ==> m <= x
  {
    EarliestExists(ts);
    var m :| m in ts && forall x :: x in ts ==> m <= x; m
  }

  /** The items stored under `conversationId` at the timestamps `ts`, oldest first. */
  ghost function HistoryFrom(t: MessageTable, conversationId: string, ts: set<int>): seq<Message>
    requires forall x :: x in ts ==> MessageKey(conversationId, x) in t
    decreases ts
  {
    if ts == {} then []
    else
      var first := Earliest(ts);
      [t[MessageKey(conversationId, first)]] + HistoryFrom(t, conversationId, ts - {first})
  }

  /** What `get_conversation_history` returns: a query on the partition key with
      ScanIndexForward=True, that is, every item of the conversation in ascending
      sort-key order. */
  ghost function History(t: MessageTable, conversationId: string): seq<Message> {
    TimestampsAreKeys(t, conversationId);
    HistoryFrom(t, conversationId, TimestampsOf(t, conversationId))
  }

  lemma {:induction false} HistoryFromIsSortedProjection(t: MessageTable, conversationId: string, ts: set<int>)
    requires MessagesWellKeyed(t)
    requires forall x :: x in ts ==> MessageKey(conversationId, x) in t
    ensures var h := HistoryFrom(t, conversationId, ts);
      && |h| == |ts|
      && (forall i :: 0 <= i < |h| ==> h[i].timestamp in ts && MessageKey(conversationId, h[i].timestamp) in t
                                        && t[MessageKey(conversationId, h[i].timestamp)] == h[i])
      && (forall x :: x in ts ==> t[MessageKey(conversationId, x)] in h)
      && (forall i, j :: 0 <= i < j < |h| ==> h[i].timestamp < h[j].timestamp)
    decreases ts
  {
    if ts != {} {
      var first := Earliest(ts);
      var rest := ts - {first};
      HistoryFromIsSortedProjection(t, conversationId, rest);
      var tail := HistoryFrom(t, conversationId, rest);
      var h := HistoryFrom(t, conversationId, ts);
      assert h == [t[MessageKey(conversationId, first)]] + tail;
      assert h[0].timestamp == first;
      forall i | 0 < i < |h|
        ensures h[i] == tail[i - 1] && first < h[i].timestamp
      {
        assert tail[i - 1].timestamp in rest;
      }
    }
  }

  /** `get_conversation_history` returns exactly the stored messages of the
      conversation, each once, in strictly ascending timestamp order. */
  lemma HistoryIsSortedProjection(t: MessageTable, conversationId: string)
    requires MessagesWellKeyed(t)
    ensures var h := History(t, conversationId);
      && (forall i :: 0 <= i < |h| ==> h[i].conversationId == conversationId
                                        && MessageKeyOf(h[i]) in t && t[MessageKeyOf(h[i])] == h[i])
      && (forall k :: k in t && k.conversationId == conversationId ==> t[k] in h)
      && (forall i, j :: 0 <= i < j < |h| ==> h[i].timestamp < h[j].timestamp)
      && |h| == |TimestampsOf(t, conversationId)|
  {
    TimestampsAreKeys(t, conversationId);
    var ts := TimestampsOf(t, conversationId);
    HistoryFromIsSortedProjection(t, conversationId, ts);
    var h := History(t, conversationId);
    forall k | k in t && k.conversationId == conversationId
      ensures t[k] in h
    {
      assert k.timestamp in ts;
      assert k == MessageKey(conversationId, k.timestamp);
    }
  }

  /** A message just put is in its conversation's history; when every other
      message of the conversation is older, it is the last entry. */
  lemma SavedMessageIsInHistory(t: MessageTable, m: Message)
    requires MessagesWellKeyed(t) && ValidKey(m.conversationId)
    ensures var h := History(t[MessageKeyOf(m) := m], m.conversationId);
      && m in h
      && (forall i, j :: 0 <= i < j < |h| ==> h[i].timestamp < h[j].timestamp)
      && ((forall k :: k in t && k.conversationId == m.conversationId && k != MessageKeyOf(m) ==> k.timestamp < m.timestamp)
            ==> h[|h| - 1] == m)
  {
    var t' := t[MessageKeyOf(m) := m];
    var h := History(t', m.conversationId);
    HistoryIsSortedProjection(t', m.conversationId);
    assert t'[MessageKeyOf(m)] == m;
    if forall k :: k in t && k.conversationId == m.conversationId && k != MessageKeyOf(m) ==> k.timestamp < m.timestamp {
      var i :| 0 <= i < |h| && h[i] == m;
      var last := h[|h| - 1];
    }
  }

  /** A conversation with no stored item has an empty history. */
  lemma EmptyHistory(t: MessageTable, conversationId: string)
    requires forall k :: k in t ==> k.conversationId != conversationId
    ensures History(t, conversationId) == []
  {
    EmptyWithoutMembers(TimestampsOf(t, conversationId));
  }

  /** A conversation with exactly one stored item has that item as its history. */
  lemma SingleItemHistory(t: MessageTable, m: Message)
    requires MessagesWellKeyed(t) && MessageKeyOf(m) in t && t[MessageKeyOf(m)] == m
    requires forall k :: k in t && k.conversationId == m.conversationId ==> k == MessageKeyOf(m)
    ensures History(t, m.conversationId) == [m]
  {
    var h := History(t, m.conversationId);
    HistoryIsSortedProjection(t, m.conversationId);
    assert m in h;
    var ts := TimestampsOf(t, m.conversationId);
    assert forall x :: x in ts <==> x in {m.timestamp};
    assert ts == {m.timestamp};
  }

  lemma ReversedHistory(h: seq<Message>)
    requires forall i, j :: 0 <= i < j < |h| ==> h[i].timestamp < h[j].timestamp
    ensures var r := Reversed(h);
      && (forall i :: 0 <= i < |r| ==> r[i] in h)
      && (forall m :: m in h ==> m in r)
      && (forall i, j :: 0 <= i < j < |r| ==> r[i].timestamp > r[j].timestamp)
  {
    var r := Reversed(h);
    forall m | m in h
      ensures m in r
    {
      var i :| 0 <= i < |h| && h[i] == m;
      assert r[|h| - 1 - i] == m;
    }
    forall i, j | 0 <= i < j < |r|
      ensures r[i].timestamp > r[j].timestamp
    {
      assert r[i] == h[|h| - 1 - i] && r[j] == h[|h| - 1 - j];
    }
  }

  /** Newest first: strictly descending timestamps, exactly the conversation's items. */
  lemma NewestFirstIsDescending(t: MessageTable, conversationId: string)
    requires MessagesWellKeyed(t)
    ensures var h := NewestFirst(t, conversationId);
      && (forall i :: 0 <= i < |h| ==> h[i].conversationId == conversationId
                                        && MessageKeyOf(h[i]) in t && t[MessageKeyOf(h[i])] == h[i])
      && (forall k :: k in t && k.conversationId == conversationId ==> t[k] in h)
      && (forall i, j :: 0 <= i < j < |h| ==> h[i].timestamp > h[j].timestamp)
  {
    HistoryIsSortedProjection(t, conversationId);
    ReversedHistory(History(t, conversationId));
  }

  /** `put_item` on the messages table: after a second put under the same
      (conversationId, timestamp) key the conversation's history is what the
      second put alone would give, and the first item is not in it. */
  lemma SameKeyPutReplaces(t: MessageTable, first: Message, second: Message)
    requires MessagesWellKeyed(t) && ValidKey(second.conversationId)
    requires MessageKeyOf(first) == MessageKeyOf(second)
    ensures var h := History(t[MessageKeyOf(first) := first][MessageKeyOf(second) := second], second.conversationId);
      && h == History(t[MessageKeyOf(second) := second], second.conversationId)
      && second in h
      && (first != second ==> first !in h)
  {
    var t' := t[MessageKeyOf(second) := second];
    assert t[MessageKeyOf(first) := first][MessageKeyOf(second) := second] == t';
    assert MessagesWellKeyed(t');
    var h := History(t', second.conversationId);
    HistoryIsSortedProjection(t', second.conversationId);
    assert t'[MessageKeyOf(second)] == second;
    if first in h {
      var i :| 0 <= i < |h| && h[i] == first;
      assert t'[MessageKeyOf(first)] == first;
    }
  }

  /** The first `n` items of `s` (all of them when `s` is shorter): DynamoDB's `Limit`. */
  function Take<T>(s: seq<T>, n: int): (r: seq<T>)
    ensures |r| == if 0 <= n < |s| then n else |s|
    ensures r <= s
  {
    if 0 <= n < |s| then s[..n] else s
  }

  /** `s` back to front. */
  function Reversed<T>(s: seq<T>): (r: seq<T>)
    ensures |r| == |s|
    ensures forall i :: 0 <= i < |s| ==> r[i] == s[|s| - 1 - i]
  {
    if s == [] then [] else Reversed(s[1..]) + [s[0]]
  }

  /** A query on the messages table with ScanIndexForward=False: newest first. */
  ghost function NewestFirst(t: MessageTable, conversationId: string): seq<Message> {
    Reversed(History(t, conversationId))
  }

  /** The conversation ids a user owns. */
  function OwnedIds(t: ConversationTable, userId: string): set<string> {
    set k | k in t && k.userId == userId :: k.conversationId
  }

  predicate InPage(page: seq<Conversation>, conversationId: string) {
    exists i :: 0 <= i < |page| && page[i].conversationId == conversationId
  }

  /** What a query on the `userId-updatedAt-index` with ScanIndexForward=False and
      Limit `n` may return: the user's items (each once), sorted by `updatedAt`
      descending, `n` of them or all when there are fewer, and no item left out
      is more recent than one returned. Items with equal `updatedAt` come in no
      specified order. */
  ghost predicate IsRecencyPage(t: ConversationTable, userId: string, n: int, page: seq<Conversation>) {
    && |page| == (if n < |OwnedIds(t, userId)| then n else |OwnedIds(t, userId)|)
    && (forall i :: 0 <= i < |page| ==> page[i].userId == userId && KeyOf(page[i]) in t && t[KeyOf(page[i])] == page[i])
    && (forall i, j :: 0 <= i < j < |page| ==> page[i].conversationId != page[j].conversationId)
    && (forall i, j :: 0 <= i < j < |page| ==> page[i].updatedAt >= page[j].updatedAt)
    && (forall k, i :: k in t && k.userId == userId && !InPage(page, k.conversationId) && 0 <= i < |page| ==>
          t[k].updatedAt <= page[i].updatedAt)
  }

  /** The updatedAt of the user's conversation `id`. */
  function UpdatedAt(t: ConversationTable, userId: string, id: string): int
    requires ConversationKey(userId, id) in t
  {
    t[ConversationKey(userId, id)].updatedAt
  }

  lemma {:induction false} LatestExists(t: ConversationTable, userId: string, ids: set<string>)
    requires ids != {}
    requires forall id :: id in ids ==> ConversationKey(userId, id) in t
    ensures exists id :: id in ids && forall j :: j in ids ==> UpdatedAt(t, userId, j) <= UpdatedAt(t, userId, id)
  {
    var y := Pick(ids);
    if ids == {y} {
      assert forall j :: j in ids ==> UpdatedAt(t, userId, j) <= UpdatedAt(t, userId, y);
    } else {
      LatestExists(t, userId, ids - {y});
      var m :| m in ids - {y} && forall j :: j in ids - {y} ==> UpdatedAt(t, userId, j) <= UpdatedAt(t, userId, m);
      var latest := if UpdatedAt(t, userId, m) < UpdatedAt(t, userId, y) then y else m;
      forall j | j in ids
        ensures UpdatedAt(t, userId, j) <= UpdatedAt(t, userId, latest)
      {
        if j != y { assert j in ids - {y}; }
      }
      assert latest in ids;
    }
  }

  /** The state of the selection that builds a recency page: `taken` and `rest`
      split the user's conversation ids, `page` holds the conversations of
      `taken`, most recent first, and none left in `rest` is more recent than
      one already in `page`. */
  ghost predicate RecencyPrefix(t: ConversationTable, userId: string, rest: set<string>, taken: set<string>, page: seq<Conversation>) {
    && SplitsOwned(t, userId, rest, taken)
    && |page| == |taken|
    && PageHolds(t, userId, taken, page)
    && PageOrdered(page)
    && (forall id, i :: id in rest && 0 <= i < |page| ==> UpdatedAt(t, userId, id) <= page[i].updatedAt)
  }

  ghost predicate SplitsOwned(t: ConversationTable, userId: string, rest: set<string>, taken: set<string>) {
    && rest !! taken && rest + taken == OwnedIds(t, userId)
    && (forall id :: id in rest ==> ConversationKey(userId, id) in t)
    && |rest| + |taken| == |OwnedIds(t, userId)|
  }

  ghost predicate PageHolds(t: ConversationTable, userId: string, taken: set<string>, page: seq<Conversation>) {
    && (forall i :: 0 <= i < |page| ==> page[i].conversationId in taken)
    && (forall id :: id in taken ==> InPage(page, id))
    && (forall i :: 0 <= i < |page| ==> page[i].userId == userId && KeyOf(page[i]) in t && t[KeyOf(page[i])] == page[i])
  }

  ghost predicate PageOrdered(page: seq<Conversation>) {
    && (forall i, j :: 0 <= i < j < |page| ==> page[i].conversationId != page[j].conversationId)
    && (forall i, j :: 0 <= i < j < |page| ==> page[i].updatedAt >= page[j].updatedAt)
  }

  lemma RecencyPrefixStart(t: ConversationTable, userId: string)
    ensures RecencyPrefix(t, userId, OwnedIds(t, userId), {}, [])
  {
    forall id | id in OwnedIds(t, userId)
      ensures ConversationKey(userId, id) in t
    {
      var k :| k in t && k.userId == userId && k.conversationId == id;
      assert k == ConversationKey(userId, id);
    }
  }

  lemma SplitsOwnedStep(t: ConversationTable, userId: string, rest: set<string>, taken: set<string>, id: string)
    requires SplitsOwned(t, userId, rest, taken) && id in rest
    ensures SplitsOwned(t, userId, rest - {id}, taken + {id})
  {
  }

  lemma PageHoldsStep(t: ConversationTable, userId: string, taken: set<string>, page: seq<Conversation>, id: string)
    requires ConversationsWellKeyed(t)
    requires PageHolds(t, userId, taken, page) && ConversationKey(userId, id) in t
    ensures PageHolds(t, userId, taken + {id}, page + [t[ConversationKey(userId, id)]])
  {
    var item := t[ConversationKey(userId, id)];
    var page' := page + [item];
    assert KeyOf(item) == ConversationKey(userId, id);
    forall i | 0 <= i < |page'|
      ensures page'[i].conversationId in taken + {id}
      ensures page'[i].userId == userId && KeyOf(page'[i]) in t && t[KeyOf(page'[i])] == page'[i]
    {
      if i < |page| { assert page'[i] == page[i]; }
    }
    forall s | s in taken + {id}
      ensures InPage(page', s)
    {
      if s == id {
        assert page'[|page|].conversationId == id;
      } else {
        var i :| 0 <= i < |page| && page[i].conversationId == s;
        assert page'[i].conversationId == s;
      }
    }
  }

  lemma PageOrderedStep(page: seq<Conversation>, item: Conversation)
    requires PageOrdered(page)
    requires forall i :: 0 <= i < |page| ==> page[i].conversationId != item.conversationId && item.updatedAt <= page[i].updatedAt
    ensures PageOrdered(page + [item])
  {
    var page' := page + [item];
    forall i, j | 0 <= i < j < |page'|
      ensures page'[i].conversationId != page'[j].conversationId
      ensures page'[i].updatedAt >= page'[j].updatedAt
    {
      assert page'[i] == page[i];
      if j < |page| { assert page'[j] == page[j]; }
    }
  }

  lemma RestBoundStep(t: ConversationTable, userId: string, rest: set<string>, page: seq<Conversation>, id: string)
    requires forall j :: j in rest ==> ConversationKey(userId, j) in t
    requires id in rest && forall j :: j in rest ==> UpdatedAt(t, userId, j) <= UpdatedAt(t, userId, id)
    requires forall s, i :: s in rest && 0 <= i < |page| ==> UpdatedAt(t, userId, s) <= page[i].updatedAt
    ensures var page' := page + [t[ConversationKey(userId, id)]];
      forall s, i :: s in rest - {id} && 0 <= i < |page'| ==> UpdatedAt(t, userId, s) <= page'[i].updatedAt
  {
    var page' := page + [t[ConversationKey(userId, id)]];
    forall s, i | s in rest - {id} && 0 <= i < |page'|
      ensures UpdatedAt(t, userId, s) <= page'[i].updatedAt
    {
      if i < |page| { assert page'[i] == page[i]; }
    }
  }

  lemma RecencyPrefixStep(t: ConversationTable, userId: string, rest: set<string>, taken: set<string>, page: seq<Conversation>, id: string)
    requires ConversationsWellKeyed(t)
    requires RecencyPrefix(t, userId, rest, taken, page)
    requires id in rest && forall j :: j in rest ==> UpdatedAt(t, userId, j) <= UpdatedAt(t, userId, id)
    ensures RecencyPrefix(t, userId, rest - {id}, taken + {id}, page + [t[ConversationKey(userId, id)]])
  {
    var item := t[ConversationKey(userId, id)];
    SplitsOwnedStep(t, userId, rest, taken, id);
    PageHoldsStep(t, userId, taken, page, id);
    assert KeyOf(item) == ConversationKey(userId, id);
    forall i | 0 <= i < |page|
      ensures page[i].conversationId != item.conversationId && item.updatedAt <= page[i].updatedAt
    {
      assert page[i].conversationId in taken;
    }
    PageOrderedStep(page, item);
    RestBoundStep(t, userId, rest, page, id);
  }

  lemma RecencyPrefixDone(t: ConversationTable, userId: string, n: int, rest: set<string>, taken: set<string>, page: seq<Conversation>)
    requires RecencyPrefix(t, userId, rest, taken, page)
    requires |page| <= n && (|page| == n || rest == {})
    ensures IsRecencyPage(t, userId, n, page)
  {
    forall k, i | k in t && k.userId == userId && !InPage(page, k.conversationId) && 0 <= i < |page|
      ensures t[k].updatedAt <= page[i].updatedAt
    {
      assert k.conversationId in OwnedIds(t, userId);
      assert k == ConversationKey(userId, k.conversationId);
    }
  }

  /** DynamoDBService: the two tables. The handler also issues get_item,
      delete_item and query calls on them directly; those are methods here too. */
  class ChatStore {
    var conversations: ConversationTable
    var messages: MessageTable

    ghost predicate Valid()
      reads this
    {
      ConversationsWellKeyed(conversations) && MessagesWellKeyed(messages)
    }

    function Snapshot(): Tables
      reads this
    {
      Tables(conversations, messages)
    }

    constructor ()
      ensures Valid() && conversations == map[] && messages == map[]
    {
      conversations := map[];
      messages := map[];
    }

    /** `create_conversation`: an unconditional put, replacing any item with the same key. */
    method CreateConversation(userId: string, conversationId: string, title: string, timestamp: int) returns (ok: bool)
      requires Valid()
      modifies this
      ensures Valid()
      ensures ok == (ValidKey(userId) && ValidKey(conversationId))
      ensures conversations == if ok
        then old(conversations)[ConversationKey(userId, conversationId) := NewConversation(userId, conversationId, title, timestamp)]
        else old(conversations)
      ensures messages == old(messages)
    {
      ok := ValidKey(userId) && ValidKey(conversationId);
      if ok {
        conversations := conversations[ConversationKey(userId, conversationId) := NewConversation(userId, conversationId, title, timestamp)];
      }
    }

    /** `save_message`: an unconditional put under (conversationId, timestamp);
        `messageId` is the fresh uuid the source draws. */
    method SaveMessage(conversationId: string, role: Role, content: string, timestamp: int, messageId: string) returns (ok: bool)
      requires Valid()
      modifies this
      ensures Valid()
      ensures ok == ValidKey(conversationId)
      ensures messages == if ok
        then old(messages)[MessageKey(conversationId, timestamp) := Message(conversationId, timestamp, messageId, role, content)]
        else old(messages)
      ensures conversations == old(conversations)
    {
      ok := ValidKey(conversationId);
      if ok {
        messages := messages[MessageKey(conversationId, timestamp) := Message(conversationId, timestamp, messageId, role, content)];
      }
    }

    /** `get_conversation_history`: the conversation's messages, oldest first. */
    method GetConversationHistory(conversationId: string) returns (r: Result<seq<Message>>)
      requires Valid()
      ensures ValidKey(conversationId) ==> r == Success(History(messages, conversationId))
      ensures !ValidKey(conversationId) ==> r == Failure(EmptyKeyError)
    {
      if !ValidKey(conversationId) {
        return Failure(EmptyKeyError);
      }
      TimestampsAreKeys(messages, conversationId);
      var rest := TimestampsOf(messages, conversationId);
      var items: seq<Message> := [];
      while rest != {}
        invariant forall x :: x in rest ==> MessageKey(conversationId, x) in messages
        invariant items + HistoryFrom(messages, conversationId, rest) == History(messages, conversationId)
        decreases rest
      {
        EarliestExists(rest);
        var first :| first in rest && forall x :: x in rest ==> first <= x;
        assert first == Earliest(rest);
        items := items + [messages[MessageKey(conversationId, first)]];
        rest := rest - {first};
      }
      assert HistoryFrom(messages, conversationId, rest) == [];
      assert items == items + HistoryFrom(messages, conversationId, rest);
      return Success(items);
    }

    /** `update_conversation_metadata`: sets `updatedAt` and adds 2 to
        `messageCount` on an existing item. On a missing item the expression
        `messageCount + :inc` names an attribute that does not exist, so the
        update is refused and nothing changes. */
    method UpdateConversationMetadata(userId: string, conversationId: string, updatedAt: int) returns (ok: bool)
      requires Valid()
      modifies this
      ensures Valid()
      ensures ok == (ConversationKey(userId, conversationId) in old(conversations))
      ensures conversations == if ok
        then old(conversations)[ConversationKey(userId, conversationId) := Touched(old(conversations)[ConversationKey(userId, conversationId)], updatedAt)]
        else old(conversations)
      ensures messages == old(messages)
    {
      var key := ConversationKey(userId, conversationId);
      ok := key in conversations;
      if ok {
        conversations := conversations[key := Touched(conversations[key], updatedAt)];
      }
    }

    /** `conversations_table.get_item`. */
    method GetConversation(userId: string, conversationId: string) returns (r: Result<Option<Conversation>>)
      requires Valid()
      ensures !(ValidKey(userId) && ValidKey(conversationId)) ==> r == Failure(EmptyKeyError)
      ensures ValidKey(userId) && ValidKey(conversationId) ==> r.Success?
      ensures r.Success? ==> (r.value.Some? <==> ConversationKey(userId, conversationId) in conversations)
      ensures r.Success? && r.value.Some? ==> r.value.value == conversations[ConversationKey(userId, conversationId)]
    {
      var key := ConversationKey(userId, conversationId);
      if !(ValidKey(userId) && ValidKey(conversationId)) {
        r := Failure(EmptyKeyError);
      } else if key in conversations {
        r := Success(Some(conversations[key]));
      } else {
        r := Success(None);
      }
    }

    /** `conversations_table.delete_item`: removes the item if present, a no-op otherwise. */
    method DeleteConversation(userId: string, conversationId: string) returns (ok: bool)
      requires Valid()
      modifies this
      ensures Valid()
      ensures ok == (ValidKey(userId) && ValidKey(conversationId))
      ensures conversations == if ok then old(conversations) - {ConversationKey(userId, conversationId)} else old(conversations)
      ensures messages == old(messages)
    {
      ok := ValidKey(userId) && ValidKey(conversationId);
      if ok {
        conversations := conversations - {ConversationKey(userId, conversationId)};
      }
    }

    /** `batch.delete_item` on the messages table. */
    method DeleteMessage(conversationId: string, timestamp: int) returns (ok: bool)
      requires Valid()
      modifies this
      ensures Valid()
      ensures ok == ValidKey(conversationId)
      ensures messages == if ok then old(messages) - {MessageKey(conversationId, timestamp)} else old(messages)
      ensures conversations == old(conversations)
    {
      ok := ValidKey(conversationId);
      if ok {
        messages := messages - {MessageKey(conversationId, timestamp)};
      }
    }

    /** `messages_table.query` with ScanIndexForward=False and `Limit`:
        the newest `limit` messages of the conversation. */
    method QueryMessagesNewestFirst(conversationId: string, limit: int) returns (r: Result<seq<Message>>)
      requires Valid()
      ensures !ValidKey(conversationId) ==> r == Failure(EmptyKeyError)
      ensures ValidKey(conversationId) && limit < 1 ==> r == Failure(LimitError)
      ensures ValidKey(conversationId) && limit >= 1 ==> r == Success(Take(NewestFirst(messages, conversationId), limit))
    {
      var all := GetConversationHistory(conversationId);
      if all.Failure? {
        return all;
      }
      if limit < 1 {
        return Failure(LimitError);
      }
      return Success(Take(Reversed(all.value), limit));
    }

    /** `conversations_table.query` on `userId-updatedAt-index` with
        ScanIndexForward=False and `Limit`: the user's most recently updated conversations. */
    method QueryConversationsByRecency(userId: string, limit: int) returns (r: Result<seq<Conversation>>)
      requires Valid()
      ensures !ValidKey(userId) ==> r == Failure(EmptyKeyError)
      ensures ValidKey(userId) && limit < 1 ==> r == Failure(LimitError)
      ensures ValidKey(userId) && limit >= 1 ==> r.Success? && IsRecencyPage(conversations, userId, limit, r.value)
    {
      if !ValidKey(userId) {
        return Failure(EmptyKeyError);
      }
      if limit < 1 {
        return Failure(LimitError);
      }
      var rest := OwnedIds(conversations, userId);
      ghost var taken: set<string> := {};
      var page: seq<Conversation> := [];
      RecencyPrefixStart(conversations, userId);
      while |page| < limit && rest != {}
        invariant RecencyPrefix(conversations, userId, rest, taken, page)
        invariant |page| <= limit
        decreases rest
      {
        LatestExists(conversations, userId, rest);
        var id :| id in rest && forall j :: j in rest ==> UpdatedAt(conversations, userId, j) <= UpdatedAt(conversations, userId, id);
        RecencyPrefixStep(conversations, userId, rest, taken, page, id);
        page := page + [conversations[ConversationKey(userId, id)]];
        rest := rest - {id};
        taken := taken + {id};
      }
      RecencyPrefixDone(conversations, userId, limit, rest, taken, page);
      return Success(page);
    }
  }
}
