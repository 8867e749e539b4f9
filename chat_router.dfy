/** The HTTP handlers of the chat router: the blank-content guard of the send
    endpoint, the bounds and the not-found rule of the history endpoint, and the
    new-conversation endpoint. The handlers keep no state; the send handler
    delegates to the store, the others are functions of the stored records. */
module ChatRouter {
  import opened Messages
  import opened Responses
  import opened Sequences
  import opened ChatService

  const EmptyContent: ApiError := HttpException(400, "Message content cannot be empty.")
  const ConversationNotFound: ApiError := HttpException(404, "Conversation not found.")

  /** Query defaults and bounds of the history endpoint. */
  const DefaultSkip: int := 0
  const DefaultLimit: int := 100
  const MaxLimit: int := 200

  /** The largest `skip` the database driver can send: the query carries it as
      a signed 64-bit BSON integer, and encoding a larger one raises an
      exception that no handler catches. */
  const MaxSkip: int := 0x7FFF_FFFF_FFFF_FFFF

  const NewConversationNote: string := "New conversation started. Use this ID for future messages."

  // ---------------------------------------------------------------------------
  // The blank-content guard

  /** The characters Python's `str.isspace` accepts, which `str.strip()` removes. */
  const Whitespace: set<char> :=
    {' ', '\t', '\n', '\r', '\U{0B}', '\U{0C}', '\U{1C}', '\U{1D}', '\U{1E}', '\U{1F}',
     '\U{85}', '\U{A0}', '\U{1680}', '\U{2000}', '\U{2001}', '\U{2002}', '\U{2003}',
     '\U{2004}', '\U{2005}', '\U{2006}', '\U{2007}', '\U{2008}', '\U{2009}', '\U{200A}',
     '\U{2028}', '\U{2029}', '\U{202F}', '\U{205F}', '\U{3000}'}

  predicate IsWhitespace(c: char)
  {
    c in Whitespace
  }

  /** `s` without its leading whitespace. */
  function TrimStart(s: string): (r: string)
    ensures |r| <= |s| && r == s[|s| - |r|..]
    ensures r == [] || !IsWhitespace(r[0])
    ensures forall i :: 0 <= i < |s| - |r| ==> IsWhitespace(s[i])
  {
    if s != [] && IsWhitespace(s[0]) then
      var r := TrimStart(s[1..]);
      assert forall i :: 1 <= i < |s| ==> s[1..][i - 1] == s[i];
      r
    else s
  }

  /** `s` without its trailing whitespace. */
  function TrimEnd(s: string): (r: string)
    ensures |r| <= |s| && r == s[..|r|]
    ensures r == [] || !IsWhitespace(r[|r| - 1])
    ensures forall i :: |r| <= i < |s| ==> IsWhitespace(s[i])
  {
    if s != [] && IsWhitespace(s[|s| - 1]) then
      var r := TrimEnd(s[..|s| - 1]);
      assert forall i :: 0 <= i < |s| - 1 ==> s[..|s| - 1][i] == s[i];
      r
    else s
  }

  /** Python's `str.strip()` with no argument. */
  function Strip(s: string): (r: string)
    ensures |r| <= |s|
    ensures r == [] || (!IsWhitespace(r[0]) && !IsWhitespace(r[|r| - 1]))
    ensures exists a, b :: TrimmedTo(s, r, a, b)
  {
    var r := TrimEnd(TrimStart(s));
    StripIsInnerSlice(s);
    r
  }

  /** `r` is the part `s[a..b]` of `s`, and everything of `s` around it is
      whitespace. */
  ghost predicate TrimmedTo(s: string, r: string, a: int, b: int)
  {
    0 <= a <= b <= |s| && r == s[a..b] &&
    forall i :: 0 <= i < a || b <= i < |s| ==> IsWhitespace(s[i])
  }

  /** Stripping keeps a contiguous middle part and drops only whitespace
      around it. */
  lemma StripIsInnerSlice(s: string)
    ensures exists a, b :: TrimmedTo(s, TrimEnd(TrimStart(s)), a, b)
  {
    var t := TrimStart(s);
    var r := TrimEnd(t);
    var a := |s| - |t|;
    var b := a + |r|;
    assert t == s[a..];
    assert r == s[a..b];
    assert forall i :: 0 <= i < a ==> IsWhitespace(s[i]);
    assert forall i :: b <= i < |s| ==> IsWhitespace(t[i - a]) && s[i] == t[i - a];
    assert TrimmedTo(s, r, a, b);
  }

  /** The guard `not payload.content.strip()`: the content is made only of
      whitespace (the empty content among them). */
  predicate IsBlank(content: string)
    ensures IsBlank(content) <==> forall i :: 0 <= i < |content| ==> IsWhitespace(content[i])
  {
    BlankIffAllWhitespace(content);
    Strip(content) == []
  }

  /** `strip()` leaves nothing exactly when every character is whitespace. */
  lemma {:induction false} BlankIffAllWhitespace(s: string)
    ensures Strip(s) == [] <==> forall i :: 0 <= i < |s| ==> IsWhitespace(s[i])
  {
    if forall i :: 0 <= i < |s| ==> IsWhitespace(s[i]) {
      AllWhitespaceIsBlank(s);
    } else {
      var k :| 0 <= k < |s| && !IsWhitespace(s[k]);
      NonBlankHasVisibleChar(s, k);
    }
  }

  lemma {:induction false} AllWhitespaceIsBlank(s: string)
    requires forall i :: 0 <= i < |s| ==> IsWhitespace(s[i])
    ensures Strip(s) == []
  {
  }

  lemma {:induction false} NonBlankHasVisibleChar(s: string, k: nat)
    requires k < |s| && !IsWhitespace(s[k])
    ensures Strip(s) != []
  {
    var t := TrimStart(s);
    var d := |s| - |t|;
    assert d <= k;
    assert t[k - d] == s[k];
    var u := TrimEnd(t);
    assert |u| > k - d;
  }

  // ---------------------------------------------------------------------------
  // POST /chat/{conversation_id}/send

  /** The send endpoint as a function of the store: blank content is refused
      before anything is written; any other content goes to the service. */
  function SendRoute(records: seq<Message>, conv: string, content: string, client: CompletionClient,
                     userAt: int, userId: string, replyAt: int, replyId: string): (x: Exchange)
    ensures |records| <= |x.records| <= |records| + 2
    ensures x.records[..|records|] == records
    ensures IsBlank(content) ==> x.records == records && x.result == Err(EmptyContent)
  {
    if IsBlank(content) then Exchange(Err(EmptyContent), records)
    else SaveExchange(records, conv, content, client, userAt, userId, replyAt, replyId)
  }

  /** `send_message`. */
  method SendMessage(store: MessageStore, conv: string, content: string, client: CompletionClient,
                     userAt: int, userId: string, replyAt: int, replyId: string)
    returns (result: Result<Message>)
    requires store.Valid()
    requires ExchangeStamps(store.records, userAt, userId, replyAt, replyId)
    modifies store
    ensures store.Valid()
    ensures Exchange(result, store.records) ==
            SendRoute(old(store.records), conv, content, client, userAt, userId, replyAt, replyId)
  {
    if IsBlank(content) {
      return Err(EmptyContent);
    }
    result := store.GetAiResponseAndSave(conv, content, client, userAt, userId, replyAt, replyId);
  }

  /** What a send does to the store: blank content and a missing client write
      nothing, a failed completion writes the user's message alone, a
      successful one writes it and the reply; blank content is refused with 400
      whatever the client. */
  lemma SendRouteGrowth(records: seq<Message>, conv: string, content: string, client: CompletionClient,
                        userAt: int, userId: string, replyAt: int, replyId: string)
    ensures var x := SendRoute(records, conv, content, client, userAt, userId, replyAt, replyId);
      && x.records[..|records|] == records
      && (IsBlank(content) ==> x == Exchange(Err(EmptyContent), records))
      && |x.records| - |records| ==
           (if IsBlank(content) || client.Unavailable? then 0 else if x.result.Ok? then 2 else 1)
      && (x.result.Ok? <==> |x.records| == |records| + 2)
      && (|x.records| > |records| ==>
            x.records[|records|] == Message(userId, conv, UserRole, content, userAt))
  {
    if IsBlank(content) {
      assert SendRoute(records, conv, content, client, userAt, userId, replyAt, replyId)
             == Exchange(Err(EmptyContent), records);
    } else {
      assert SendRoute(records, conv, content, client, userAt, userId, replyAt, replyId)
             == SaveExchange(records, conv, content, client, userAt, userId, replyAt, replyId);
      ExchangeGrowth(records, conv, content, client, userAt, userId, replyAt, replyId);
    }
  }

  // ---------------------------------------------------------------------------
  // GET /chat/{conversation_id}/history

  /** `get_message_history`: absent query parameters take their defaults;
      parameters out of bounds are refused; a skip the driver cannot encode
      fails with status 500; an empty first page of a conversation without
      any message is "not found". */
  function MessageHistory(records: seq<Message>, conv: string, skip: Option<int>, limit: Option<int>)
    : (r: Result<seq<Message>>)
    ensures r.Err? ==> r.error == RequestInvalid || r.error == Unhandled || r.error == ConversationNotFound
    ensures r.Ok? ==> |r.value| <= MaxLimit
    ensures r.Ok? ==> forall m :: m in r.value ==> m in records && m.conversationId == conv
  {
    var s := if skip.Some? then skip.value else DefaultSkip;
    var l := if limit.Some? then limit.value else DefaultLimit;
    if s < 0 || l < 1 || l > MaxLimit then Err(RequestInvalid)
    else if s > MaxSkip then Err(Unhandled)
    else
      var page := FormattedHistory(records, conv, s, l);
      if page == [] && s == 0 && Count(records, conv) == 0 then Err(ConversationNotFound)
      else Ok(page)
  }

  /** The endpoint refuses exactly the parameters outside `skip >= 0` and
      `1 <= limit <= 200`, and the defaults are inside them. Within those
      bounds, it fails with status 500 exactly when `skip` exceeds what the
      driver can encode. */
  lemma HistoryBounds(records: seq<Message>, conv: string, skip: int, limit: int)
    ensures MessageHistory(records, conv, Some(skip), Some(limit)) == Err(RequestInvalid) <==>
            !(0 <= skip && 1 <= limit <= MaxLimit)
    ensures MessageHistory(records, conv, Some(skip), Some(limit)) == Err(Unhandled) <==>
            0 <= skip && 1 <= limit <= MaxLimit && skip > MaxSkip
    ensures MessageHistory(records, conv, None, None) == MessageHistory(records, conv, Some(0), Some(100))
    ensures MessageHistory(records, conv, None, None) != Err(RequestInvalid)
  {
  }

  /** Within bounds, the endpoint answers 404 if and only if the page is the
      first one and the conversation has no message. A skip the driver cannot
      encode fails with status 500. Otherwise it returns the slice
      `[skip, skip + limit)` of the conversation, oldest first. That slice is
      empty past the end, and it is never empty on the first page of a
      conversation that has messages. */
  lemma HistoryNotFoundRule(records: seq<Message>, conv: string, skip: int, limit: int)
    requires Chronological(records)
    requires 0 <= skip && 1 <= limit <= MaxLimit
    ensures var r := MessageHistory(records, conv, Some(skip), Some(limit));
      var c := Conversation(records, conv);
      && (r == Err(ConversationNotFound) <==> skip == 0 && Count(records, conv) == 0)
      && (skip > MaxSkip ==> r == Err(Unhandled))
      && (r != Err(ConversationNotFound) && skip <= MaxSkip ==>
            r.Ok? && r.value == c[Min(skip, |c|)..Min(skip + limit, |c|)] && Chronological(r.value))
      && (0 < skip <= MaxSkip && skip >= Count(records, conv) ==> r == Ok([]))
      && (skip == 0 && Count(records, conv) > 0 ==> r.Ok? && r.value != [])
  {
    FormattedHistoryIsSlice(records, conv, skip, limit);
  }

  // ---------------------------------------------------------------------------
  // POST /chat/new

  /** `start_new_conversation`, given the identifier the id generator drew. */
  function StartNewConversation(freshId: string): (r: NewConversation)
    ensures r.conversationId == freshId
  {
    NewConversation(freshId, NewConversationNote)
  }

  /** Starting a conversation writes nothing, and the identifier it hands out,
      being fresh, names a conversation whose history is "not found" until
      its first message is sent. */
  lemma NewConversationIsEmpty(records: seq<Message>, freshId: string)
    requires forall i :: 0 <= i < |records| ==> records[i].conversationId != freshId
    ensures StartNewConversation(freshId).conversationId == freshId
    ensures Count(records, freshId) == 0
    ensures MessageHistory(records, StartNewConversation(freshId).conversationId, None, None)
            == Err(ConversationNotFound)
  {
    ConversationOfNoRecord(records, freshId);
  }

  // ---------------------------------------------------------------------------
  // Send, then read back

  /** With the default parameters, a conversation of 1 to 100 messages is
      returned whole. */
  lemma DefaultPageIsWholeConversation(records: seq<Message>, conv: string)
    requires 1 <= Count(records, conv) <= DefaultLimit
    ensures MessageHistory(records, conv, None, None) == Ok(Conversation(records, conv))
  {
    var c := Conversation(records, conv);
    assert FormattedHistory(records, conv, 0, 100) == c;
  }

  lemma ConversationOfFirstExchange(records: seq<Message>, user: Message, reply: Message)
    requires Count(records, user.conversationId) == 0 && reply.conversationId == user.conversationId
    ensures Conversation(records + [user] + [reply], user.conversationId) == [user, reply]
  {
    ConversationAppend(records, user, user.conversationId);
    ConversationAppend(records + [user], reply, user.conversationId);
  }

  /** The first successful send to a conversation leaves a history of exactly
      two messages, the user's then the reply, in that order. */
  lemma FirstExchangeHistory(records: seq<Message>, conv: string, content: string, client: CompletionClient,
                             userAt: int, userId: string, replyAt: int, replyId: string)
    requires Chronological(records) && ExchangeStamps(records, userAt, userId, replyAt, replyId)
    requires Count(records, conv) == 0 && !IsBlank(content)
    requires client.Available?
    requires client.complete(CompletionRequest(records + [Message(userId, conv, UserRole, content, userAt)], conv)).Reply?
    ensures var x := SendRoute(records, conv, content, client, userAt, userId, replyAt, replyId);
      && x.result.Ok?
      && MessageHistory(x.records, conv, None, None) ==
         Ok([Message(userId, conv, UserRole, content, userAt), x.result.value])
  {
    var user := Message(userId, conv, UserRole, content, userAt);
    var stored := records + [user];
    var reply := Message(replyId, conv, AssistantRole,
                         client.complete(CompletionRequest(stored, conv)).text, replyAt);
    assert SendRoute(records, conv, content, client, userAt, userId, replyAt, replyId)
           == SaveExchange(records, conv, content, client, userAt, userId, replyAt, replyId);
    ExchangeReplyIsCompletion(records, conv, content, client, userAt, userId, replyAt, replyId);
    ExchangeGrowth(records, conv, content, client, userAt, userId, replyAt, replyId);
    ConversationOfFirstExchange(records, user, reply);
    DefaultPageIsWholeConversation(stored + [reply], conv);
  }
}
