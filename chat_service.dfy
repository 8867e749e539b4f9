/** The conversation service: the message store, the completion-context window,
    the send orchestration and the paginated history query.

    The store is the message collection in insertion order. The clock and the
    id generator are parameters of the operations that write: every write is
    stamped strictly later than every stored record and carries an id no stored
    record has. Under that discipline the collection's timestamp order and its
    insertion order agree, which is what makes "sort by timestamp" well defined
    (see SortedListingUnique). */
module ChatService {
  import opened Messages
  import opened Responses
  import opened Sequences

  const UserRole: string := "user"
  const AssistantRole: string := "assistant"
  const SystemRole: string := "system"

  /** The configured system prompt (its default value). */
  const SystemPrompt: string := "You are a helpful AI assistant."

  /** Number of stored messages the send path puts in a completion request. */
  const ContextLimit: nat := 10

  const SystemEntry: ChatEntry := ChatEntry(SystemRole, SystemPrompt)

  const ServiceUnavailable: ApiError :=
    HttpException(503, "Groq AI service is not available. API key might be missing or invalid.")

  function CompletionFailed(error: string): (e: ApiError)
  {
    HttpException(503, "AI service error: " + error)
  }

  /** What the remote completion call yields: the first choice's text, or the
      message of the exception it raised. */
  datatype Completion = Reply(text: string) | Failure(error: string)

  /** The module-level completion client: absent when it could not be built,
      otherwise an opaque function from a request to a completion. */
  datatype CompletionClient =
    | Unavailable
    | Available(complete: seq<ChatEntry> -> Completion)

  // ---------------------------------------------------------------------------
  // The collection and its invariant

  /** Timestamps strictly increase along the sequence. */
  predicate Chronological(s: seq<Message>)
  {
    forall i, j :: 0 <= i < j < |s| ==> s[i].timestamp < s[j].timestamp
  }

  predicate UniqueIds(s: seq<Message>)
  {
    forall i, j :: 0 <= i < j < |s| ==> s[i].id != s[j].id
  }

  /** `now` is a clock reading later than every stored record. */
  predicate LaterThanAll(s: seq<Message>, now: int)
  {
    forall i :: 0 <= i < |s| ==> s[i].timestamp < now
  }

  /** `id` is not the id of any stored record. */
  predicate FreshId(s: seq<Message>, id: string)
  {
    forall i :: 0 <= i < |s| ==> s[i].id != id
  }

  /** What the send path needs from the clock and the id generator: two clock
      readings in increasing order after every stored record, two fresh ids. */
  predicate ExchangeStamps(s: seq<Message>, userAt: int, userId: string, replyAt: int, replyId: string)
  {
    LaterThanAll(s, userAt) && userAt < replyAt &&
    FreshId(s, userId) && FreshId(s, replyId) && userId != replyId
  }

  // ---------------------------------------------------------------------------
  // Queries

  /** `find({"conversation_id": conv})`: the records of one conversation, in
      store order. */
  function Conversation(records: seq<Message>, conv: string): (r: seq<Message>)
    ensures |r| <= |records|
    ensures forall m :: m in r <==> m in records && m.conversationId == conv
  {
    if records == [] then []
    else
      var last := records[|records| - 1];
      assert records == records[..|records| - 1] + [last];
      Conversation(records[..|records| - 1], conv) + (if last.conversationId == conv then [last] else [])
  }

  /** `count_documents({"conversation_id": conv})`. */
  function Count(records: seq<Message>, conv: string): (n: nat)
    ensures n <= |records|
    ensures n == 0 <==> forall i :: 0 <= i < |records| ==> records[i].conversationId != conv
  {
    var c := Conversation(records, conv);
    assert |c| > 0 ==> c[0] in c;
    assert forall i :: 0 <= i < |records| ==> records[i] in records;
    |c|
  }

  /** `sort("timestamp", -1)` over one conversation. */
  function NewestFirst(records: seq<Message>, conv: string): (r: seq<Message>)
    ensures |r| == Count(records, conv)
    ensures forall m :: m in r <==> m in records && m.conversationId == conv
  {
    var c := Conversation(records, conv);
    ReversedIndices(c);
    assert forall k :: 0 <= k < |c| ==> c[k] == Reversed(c)[|c| - 1 - k];
    Reversed(c)
  }

  /** The cursor `find(...).sort("timestamp", -1).limit(limit)`. */
  function LatestQuery(records: seq<Message>, conv: string, limit: nat): (r: seq<Message>)
    ensures |r| == Min(limit, Count(records, conv))
    ensures forall m :: m in r ==> m in records && m.conversationId == conv
  {
    var newest := NewestFirst(records, conv);
    var r := Take(newest, limit);
    assert forall i :: 0 <= i < |r| ==> r[i] in newest;
    r
  }

  /** The history window, defined independently of the cursor: the last
      `limit` records of the conversation (all of them if it has fewer),
      oldest first. */
  function Window(records: seq<Message>, conv: string, limit: nat): (w: seq<Message>)
  {
    var c := Conversation(records, conv);
    c[|c| - Min(limit, |c|)..]
  }

  function AsEntry(m: Message): (e: ChatEntry)
  {
    ChatEntry(m.sender, m.content)
  }

  /** One role/content entry per message, in the same order. */
  function Format(ms: seq<Message>): (r: seq<ChatEntry>)
    ensures |r| == |ms|
    ensures forall i :: 0 <= i < |ms| ==> r[i].role == ms[i].sender && r[i].content == ms[i].content
  {
    seq(|ms|, i requires 0 <= i < |ms| => AsEntry(ms[i]))
  }

  /** The request the send path hands to the completion client. */
  function CompletionRequest(records: seq<Message>, conv: string): (r: seq<ChatEntry>)
    ensures |r| == 1 + Min(ContextLimit, Count(records, conv))
    ensures r[0] == SystemEntry
  {
    [SystemEntry] + Format(Window(records, conv, ContextLimit))
  }

  /** `get_formatted_history`: `sort("timestamp", 1).skip(skip).limit(limit)`
      over one conversation. */
  function FormattedHistory(records: seq<Message>, conv: string, skip: nat, limit: nat): (page: seq<Message>)
    ensures |page| <= limit
    ensures forall m :: m in page ==> m in records && m.conversationId == conv
  {
    Take(Drop(Conversation(records, conv), skip), limit)
  }

  // ---------------------------------------------------------------------------
  // The send path as a function of the store

  /** The outcome of one request: what it returns and the collection after it. */
  datatype Exchange = Exchange(result: Result<Message>, records: seq<Message>)

  /** `get_ai_response_and_save`: fail if there is no client; otherwise store
      the user's message, ask for a completion over the window that now ends
      with it, and store and return the reply only if the completion succeeded. */
  function SaveExchange(records: seq<Message>, conv: string, content: string, client: CompletionClient,
                        userAt: int, userId: string, replyAt: int, replyId: string): (x: Exchange)
    ensures |records| <= |x.records| <= |records| + 2
    ensures x.records[..|records|] == records
    ensures x.result.Ok? <==> |x.records| == |records| + 2
    ensures x.result.Ok? ==> x.records[|x.records| - 1] == x.result.value
  {
    if client.Unavailable? then Exchange(Err(ServiceUnavailable), records)
    else
      var user := Message(userId, conv, UserRole, content, userAt);
      var stored := records + [user];
      match client.complete(CompletionRequest(stored, conv))
      case Failure(e) => Exchange(Err(CompletionFailed(e)), stored)
      case Reply(text) =>
        var reply := Message(replyId, conv, AssistantRole, text, replyAt);
        Exchange(Ok(reply), stored + [reply])
  }

  // ---------------------------------------------------------------------------
  // The store

  class MessageStore {
    /** The message collection, in insertion order. */
    var records: seq<Message>

    ghost predicate Valid()
      reads this
    {
      Chronological(records) && UniqueIds(records)
    }

    constructor ()
      ensures Valid() && records == []
    {
      records := [];
    }

    /** `add_message_to_db`: stamp a new record with the clock reading `now`
        and the fresh id `id`, insert it, return it. */
    method AddMessage(conv: string, sender: string, content: string, now: int, id: string)
      returns (m: Message)
      requires Valid()
      requires LaterThanAll(records, now) && FreshId(records, id)
      modifies this
      ensures Valid()
      ensures m == Message(id, conv, sender, content, now)
      ensures records == old(records) + [m]
    {
      m := Message(id, conv, sender, content, now);
      records := records + [m];
    }

    /** `get_conversation_history_for_grog`: read the newest `limit` records of
        the conversation, reverse them to oldest first, and turn each into a
        role/content entry. */
    method HistoryForCompletion(conv: string, limit: int) returns (history: seq<ChatEntry>)
      requires Valid()
      requires limit >= 1
      ensures history == Format(Window(records, conv, limit))
      ensures |history| <= limit
    {
      var raw := LatestQuery(records, conv, limit);
      var docs := new Message[|raw|](i requires 0 <= i < |raw| => raw[i]);
      assert docs[..] == raw;
      ReverseInPlace(docs);
      history := [];
      var i := 0;
      while i < docs.Length
        invariant 0 <= i <= docs.Length
        invariant history == Format(docs[..i])
      {
        assert docs[..i + 1] == docs[..i] + [docs[i]];
        history := history + [AsEntry(docs[i])];
        i := i + 1;
      }
      assert docs[..docs.Length] == docs[..];
      ReversedTakeReversed(Conversation(records, conv), limit);
    }

    /** Lines building `messages_for_groq_api`: the system entry, then the
        history window of `ContextLimit` records. */
    method BuildCompletionRequest(conv: string) returns (request: seq<ChatEntry>)
      requires Valid()
      ensures request == CompletionRequest(records, conv)
      ensures request[0] == SystemEntry && |request| <= ContextLimit + 1
    {
      var history := HistoryForCompletion(conv, ContextLimit);
      request := [];
      request := request + [SystemEntry];
      request := request + history;
    }

    /** `get_ai_response_and_save`, step by step against the store. */
    method GetAiResponseAndSave(conv: string, content: string, client: CompletionClient,
                                userAt: int, userId: string, replyAt: int, replyId: string)
      returns (result: Result<Message>)
      requires Valid()
      requires ExchangeStamps(records, userAt, userId, replyAt, replyId)
      modifies this
      ensures Valid()
      ensures Exchange(result, records) ==
              SaveExchange(old(records), conv, content, client, userAt, userId, replyAt, replyId)
    {
      if client.Unavailable? {
        return Err(ServiceUnavailable);
      }
      var user := AddMessage(conv, UserRole, content, userAt, userId);
      var request := BuildCompletionRequest(conv);
      match client.complete(request) {
        case Failure(e) =>
          result := Err(CompletionFailed(e));
        case Reply(text) =>
          var reply := AddMessage(conv, AssistantRole, text, replyAt, replyId);
          result := Ok(reply);
      }
    }
  }

  // ---------------------------------------------------------------------------
  // Properties

  /** Appending a record extends its own conversation by it and leaves every
      other conversation as it was. */
  lemma ConversationAppend(records: seq<Message>, m: Message, conv: string)
    ensures Conversation(records + [m], conv) ==
            Conversation(records, conv) + (if m.conversationId == conv then [m] else [])
  {
    assert (records + [m])[..|records|] == records;
  }

  /** A conversation no stored record belongs to is empty. */
  lemma {:induction false} ConversationOfNoRecord(records: seq<Message>, conv: string)
    requires forall i :: 0 <= i < |records| ==> records[i].conversationId != conv
    ensures Conversation(records, conv) == [] && Count(records, conv) == 0
  {
    if records != [] {
      ConversationOfNoRecord(records[..|records| - 1], conv);
    }
  }

  /** A conversation read from a chronological store is chronological. */
  lemma {:induction false} ConversationChronological(records: seq<Message>, conv: string)
    requires Chronological(records)
    ensures Chronological(Conversation(records, conv))
  {
    if records != [] {
      var n := |records| - 1;
      var front := records[..n];
      assert Chronological(front);
      ConversationChronological(front, conv);
      var c := Conversation(front, conv);
      forall k | 0 <= k < |c|
        ensures c[k].timestamp < records[n].timestamp
      {
        assert c[k] in front;
      }
    }
  }

  /** Two chronological listings of the same records are the same listing: the
      timestamp sort of a set of records has exactly one result. */
  lemma {:induction false} SortedListingUnique(a: seq<Message>, b: seq<Message>)
    requires Chronological(a) && Chronological(b)
    requires forall m :: m in a <==> m in b
    ensures a == b
  {
    SameMembersSameEmptiness(a, b);
    if a != [] {
      SortedListingsSameHead(a, b);
      SortedListingsSameTailMembers(a, b);
      SortedListingUnique(a[1..], b[1..]);
      assert a == [a[0]] + a[1..];
      assert b == [b[0]] + b[1..];
    }
  }

  lemma SameMembersSameEmptiness(a: seq<Message>, b: seq<Message>)
    requires forall m :: m in a <==> m in b
    ensures a == [] <==> b == []
  {
    if a != [] { assert a[0] in b; }
    if b != [] { assert b[0] in a; }
  }

  lemma SortedListingsSameHead(a: seq<Message>, b: seq<Message>)
    requires Chronological(a) && Chronological(b)
    requires forall m :: m in a <==> m in b
    requires a != [] && b != []
    ensures a[0] == b[0]
  {
    assert a[0] in b && b[0] in a;
    var i :| 0 <= i < |a| && a[i] == b[0];
    var j :| 0 <= j < |b| && b[j] == a[0];
    assert a[0].timestamp <= a[i].timestamp;
    assert b[0].timestamp <= b[j].timestamp;
  }

  lemma SortedListingsSameTailMembers(a: seq<Message>, b: seq<Message>)
    requires Chronological(a) && Chronological(b)
    requires forall m :: m in a <==> m in b
    requires a != [] && b != [] && a[0] == b[0]
    ensures forall m :: m in a[1..] <==> m in b[1..]
  {
    forall m | m in a[1..]
      ensures m in b[1..]
    {
      var k :| 1 <= k < |a| && a[k] == m;
      assert a[0].timestamp < m.timestamp;
      assert m in a;
      var q :| 0 <= q < |b| && b[q] == m;
      assert b[1..][q - 1] == m;
    }
    forall m | m in b[1..]
      ensures m in a[1..]
    {
      var k :| 1 <= k < |b| && b[k] == m;
      assert b[0].timestamp < m.timestamp;
      assert m in b;
      var q :| 0 <= q < |a| && a[q] == m;
      assert a[1..][q - 1] == m;
    }
  }

  /** `Conversation` is the ascending timestamp sort of the conversation's
      records: any chronological listing of exactly those records equals it. */
  lemma ConversationIsTimestampSort(records: seq<Message>, conv: string, s: seq<Message>)
    requires Chronological(records) && Chronological(s)
    requires forall m :: m in s <==> m in records && m.conversationId == conv
    ensures s == Conversation(records, conv)
  {
    ConversationChronological(records, conv);
    SortedListingUnique(s, Conversation(records, conv));
  }

  /** The descending cursor lists the conversation newest first. */
  lemma NewestFirstDescending(records: seq<Message>, conv: string)
    requires Chronological(records)
    ensures forall i, j :: 0 <= i < j < |NewestFirst(records, conv)| ==>
              NewestFirst(records, conv)[i].timestamp > NewestFirst(records, conv)[j].timestamp
  {
    var c := Conversation(records, conv);
    ConversationChronological(records, conv);
    forall i, j | 0 <= i < j < |c|
      ensures Reversed(c)[i].timestamp > Reversed(c)[j].timestamp
    {
      ReversedIndex(c, i);
      ReversedIndex(c, j);
    }
  }

  /** The completion-context window holds `min(limit, Count)` records of the
      conversation, oldest first; every record of the conversation left out of
      it is older than all of those in it; a conversation with at most `limit`
      records is taken whole. */
  lemma WindowIsNewest(records: seq<Message>, conv: string, limit: nat)
    requires Chronological(records)
    ensures var w := Window(records, conv, limit);
      && |w| == Min(limit, Count(records, conv))
      && (forall m :: m in w ==> m in records && m.conversationId == conv)
      && Chronological(w)
      && (forall m, k :: m in records && m.conversationId == conv && m !in w && 0 <= k < |w| ==>
            m.timestamp < w[k].timestamp)
      && (Count(records, conv) <= limit ==> w == Conversation(records, conv))
  {
    var c := Conversation(records, conv);
    var start := |c| - Min(limit, |c|);
    var w := Window(records, conv, limit);
    ConversationChronological(records, conv);
    forall m, k | m in records && m.conversationId == conv && m !in w && 0 <= k < |w|
      ensures m.timestamp < w[k].timestamp
    {
      var p :| 0 <= p < |c| && c[p] == m;
      assert p < start;
      assert w[k] == c[start + k];
    }
  }

  /** The cursor of the history route is the contiguous slice
      `[skip, skip + limit)` of the conversation in ascending timestamp order. */
  lemma FormattedHistoryIsSlice(records: seq<Message>, conv: string, skip: nat, limit: nat)
    requires Chronological(records)
    ensures var c := Conversation(records, conv);
      && FormattedHistory(records, conv, skip, limit) == c[Min(skip, |c|)..Min(skip + limit, |c|)]
      && Chronological(FormattedHistory(records, conv, skip, limit))
  {
    TakeDropIsSlice(Conversation(records, conv), skip, limit);
    ConversationChronological(records, conv);
  }

  /** Once the user's message is stored, the completion request is the system
      entry followed by at most `ContextLimit` history entries, and its last
      entry is that message's role and content. */
  lemma RequestEndsWithUserMessage(records: seq<Message>, user: Message)
    requires Chronological(records + [user])
    ensures var req := CompletionRequest(records + [user], user.conversationId);
      && 2 <= |req| <= ContextLimit + 1
      && req[0] == SystemEntry
      && req[|req| - 1] == ChatEntry(user.sender, user.content)
  {
    var conv := user.conversationId;
    ConversationAppend(records, user, conv);
    var c := Conversation(records + [user], conv);
    var w := Window(records + [user], conv, ContextLimit);
    assert c[|c| - 1] == user;
    assert w[|w| - 1] == user;
  }

  /** If no stored record has the system role as sender, the completion request
      carries exactly one system entry, and it comes first. */
  lemma SingleSystemEntry(records: seq<Message>, conv: string)
    requires forall i :: 0 <= i < |records| ==> records[i].sender != SystemRole
    ensures var req := CompletionRequest(records, conv);
      && req[0] == SystemEntry
      && forall i :: 1 <= i < |req| ==> req[i].role != SystemRole
  {
    var req := CompletionRequest(records, conv);
    var w := Window(records, conv, ContextLimit);
    forall i | 1 <= i < |req|
      ensures req[i].role != SystemRole
    {
      assert req[i] == AsEntry(w[i - 1]);
      assert w[i - 1] in records;
    }
  }

  /** How the send path changes the store: no record without a client, only
      the user's message when the completion fails, the user's message then
      the reply (which is also the result) when it succeeds; the records that
      were there stay as they were. */
  lemma ExchangeGrowth(records: seq<Message>, conv: string, content: string, client: CompletionClient,
                       userAt: int, userId: string, replyAt: int, replyId: string)
    ensures var x := SaveExchange(records, conv, content, client, userAt, userId, replyAt, replyId);
      && |x.records| == |records| + (if client.Unavailable? then 0 else if x.result.Ok? then 2 else 1)
      && x.records[..|records|] == records
      && (client.Unavailable? ==> x.result == Err(ServiceUnavailable))
      && (client.Available? ==>
            x.records[|records|] == Message(userId, conv, UserRole, content, userAt))
      && (x.result.Err? ==> x.result.error.HttpException? && x.result.error.status == 503)
      && (x.result.Ok? ==>
            x.records[|records| + 1] == x.result.value
            && x.result.value.sender == AssistantRole
            && x.result.value.conversationId == conv
            && x.result.value.timestamp == replyAt)
  {
  }

  /** The reply is the completion of exactly the request described by
      `CompletionRequest` over the store that already holds the user's message. */
  lemma ExchangeReplyIsCompletion(records: seq<Message>, conv: string, content: string, client: CompletionClient,
                                  userAt: int, userId: string, replyAt: int, replyId: string)
    requires client.Available?
    ensures var x := SaveExchange(records, conv, content, client, userAt, userId, replyAt, replyId);
      var request := CompletionRequest(records + [Message(userId, conv, UserRole, content, userAt)], conv);
      && (x.result.Ok? <==> client.complete(request).Reply?)
      && (x.result.Ok? ==> x.result.value.content == client.complete(request).text)
      && (x.result.Err? ==> x.result.error == CompletionFailed(client.complete(request).error))
  {
  }

  /** Appending a record stamped later than every stored one, with a fresh id,
      keeps the store's invariant. */
  lemma AppendKeepsInvariant(records: seq<Message>, m: Message)
    requires Chronological(records) && UniqueIds(records)
    requires LaterThanAll(records, m.timestamp) && FreshId(records, m.id)
    ensures Chronological(records + [m]) && UniqueIds(records + [m])
  {
  }

  /** A store that satisfies the invariant keeps it across a send. */
  lemma ExchangeKeepsInvariant(records: seq<Message>, conv: string, content: string, client: CompletionClient,
                               userAt: int, userId: string, replyAt: int, replyId: string)
    requires Chronological(records) && UniqueIds(records)
    requires ExchangeStamps(records, userAt, userId, replyAt, replyId)
    ensures var x := SaveExchange(records, conv, content, client, userAt, userId, replyAt, replyId);
      Chronological(x.records) && UniqueIds(x.records)
  {
    if client.Available? {
      var user := Message(userId, conv, UserRole, content, userAt);
      AppendKeepsInvariant(records, user);
      var request := CompletionRequest(records + [user], conv);
      if client.complete(request).Reply? {
        var reply := Message(replyId, conv, AssistantRole, client.complete(request).text, replyAt);
        AppendKeepsInvariant(records + [user], reply);
      }
    }
  }
}
