# Chat backend conversation flow, in Dafny

This project models the core of a small chat backend. The backend stores every
message of every conversation in one document collection. It relays each user
message to a hosted language-model completion endpoint and stores the reply.

The model covers five parts:

- **Appending a message** (`add_message_to_db`). It adds one record stamped with the
  current clock reading and a fresh id.
- **The completion context window** (`get_conversation_history_for_grog`). It reads
  the newest `limit` records of a conversation. It reverses them in place to oldest
  first. It turns each record into a role/content entry.
- **The send path** (`get_ai_response_and_save` and the `send_message` handler).
  Blank content is refused before anything is written. The user's message is stored
  next. Then the request is built: one system entry followed by a window of 10
  records. The opaque completion call comes after that. The reply is stored only if
  the call succeeds.
- **Paginated history** (`get_formatted_history`). It sorts ascending by timestamp,
  then applies skip and limit.
- **The history handler** (`get_message_history`). It checks the query bounds and
  applies the not-found rule. The new-conversation handler is modelled too.

Files:

- `messages.dfy` (`Messages`): the stored record, the completion entry and the
  new-conversation reply.
- `responses.dfy` (`Responses`): `Option`, `Result`, and the HTTP errors the
  handlers raise.
- `sequences.dfy` (`Sequences`): the cursor's `limit`/`skip` and Python's in-place
  `list.reverse`.
- `chat_service.dfy` (`ChatService`): the store class `MessageStore`, its queries
  as functions, the send path as the function `SaveExchange`, and the lemmas about
  them.
- `chat_router.dfy` (`ChatRouter`): the blank guard (Python's `str.strip`), the
  send handler, the history handler and the new-conversation handler.

The store is a class whose field `records` is the collection in insertion order.
Its invariant says that timestamps strictly increase and that ids are unique.

The clock and the id generator are parameters of the writing methods. Each write
requires a clock reading later than every stored record and an id no stored record
has. The source sorts on the timestamp alone. With strictly increasing timestamps,
the ascending sort of a conversation is its records in store order.
`SortedListingUnique` proves that this sort has only one possible result.

The completion client is `CompletionClient`. It is either `Unavailable` (the client
could not be built) or an opaque function from a request to `Reply(text)` or
`Failure(error)`.

The history endpoint consults the conversation's count only when `skip` is 0
(app/routers/chat.py:74). With `skip > 0`, an empty conversation yields an empty
list, not 404. `ChatRouter.HistoryNotFoundRule` states this.

The history endpoint bounds `skip` only from below (app/routers/chat.py:53). The
service passes it unchanged to the cursor (app/services/chat_service.py:139), and
the database driver sends it as a signed 64-bit BSON integer. A skip above
2^63 - 1 therefore raises an encoding error that nothing catches, and the request
ends with status 500. The model returns `Unhandled` for it (`ChatRouter.MaxSkip`).
The driver is not part of this model; only this limit of it is.

## Model

| member | source | states |
|---|---|---|
| `ChatService.MessageStore.AddMessage` | app/services/chat_service.py:24-42 | appends exactly one record with the given conversation, sender and content, stamped with the clock reading and the fresh id; returns that record; earlier records unchanged; the store invariant is kept |
| `ChatService.AppendKeepsInvariant` | app/services/chat_service.py:30-39 | a record stamped later than every stored one, with a fresh id, keeps timestamps strictly increasing and ids unique |
| `ChatService.Conversation` | app/services/chat_service.py:56-57 | the conversation filter: a record is in the result iff it is stored and carries that conversation id; never longer than the store |
| `ChatService.ConversationAppend` | app/services/chat_service.py:39 | an insert extends its own conversation by the new record at the end and leaves every other conversation unchanged |
| `ChatService.Count` | app/routers/chat.py:76 | `count_documents` over one conversation: at most the store's size, and 0 exactly when no stored record carries that conversation id |
| `ChatService.ConversationOfNoRecord` | app/routers/chat.py:76 | a conversation id that no stored record carries has count 0 |
| `ChatService.ConversationChronological` | app/services/chat_service.py:137-139 | under the store invariant, a conversation read in store order is in strictly increasing timestamp order |
| `ChatService.SortedListingUnique` | app/services/chat_service.py:58 | two timestamp-sorted listings of the same records are equal, so sorting on the timestamp alone has one result |
| `ChatService.ConversationIsTimestampSort` | app/services/chat_service.py:137-139 | any ascending timestamp listing of exactly a conversation's records equals the store-order conversation |
| `ChatService.NewestFirst` | app/services/chat_service.py:56-58 | the conversation sorted newest first: exactly the conversation's records, `Count` of them; its order is stated by `NewestFirstDescending` |
| `ChatService.LatestQuery` | app/services/chat_service.py:56-60 | the cursor `find(...).sort("timestamp", -1).limit(limit)`: min(limit, count) records, all of the conversation; `ReversedTakeReversed` and `WindowIsNewest` state what it selects |
| `ChatService.NewestFirstDescending` | app/services/chat_service.py:56-58 | the descending cursor lists the conversation strictly newest first |
| `Sequences.ReverseInPlace` | app/services/chat_service.py:61 | the array afterwards holds the old contents in reverse order |
| `Sequences.ReversedTakeReversed` | app/services/chat_service.py:58-61 | the first n of the newest-first listing, reversed back, are the last min(n, length) records in their original order |
| `ChatService.Format` | app/services/chat_service.py:72-73 | one entry per message, in order, with role the sender and content the content, without filtering or truncation |
| `ChatService.MessageStore.HistoryForCompletion` | app/services/chat_service.py:44-79 | the result is one role/content entry per record of the window (the newest `limit` records of the conversation, oldest first); role is the sender, content is the content; at most `limit` entries |
| `ChatService.WindowIsNewest` | app/services/chat_service.py:56-73 | the window has min(limit, count) records, all of the conversation, in increasing timestamp order; every record of the conversation left out is older than every record in it; a conversation of at most `limit` records is taken whole, so an empty one gives an empty window |
| `ChatService.CompletionRequest` | app/services/chat_service.py:96-100 | the request over a store: 1 + min(10, count) entries, the system entry first; `RequestEndsWithUserMessage` and `SingleSystemEntry` state the rest |
| `ChatService.MessageStore.BuildCompletionRequest` | app/services/chat_service.py:96-100 | the request is the system entry followed by the window of 10 records; it starts with the system entry and has at most 11 entries |
| `ChatService.RequestEndsWithUserMessage` | app/services/chat_service.py:91-104 | once the user's message is stored, the request has 2 to 11 entries, starts with the system prompt, and its last entry is the user message's role and content |
| `ChatService.SingleSystemEntry` | app/services/chat_service.py:98-100 | if no stored sender is "system", the request holds exactly one system entry, at index 0 |
| `ChatService.SaveExchange` | app/services/chat_service.py:82-128 | the send path as a function of the store: the store grows by 0 to 2 records and keeps its old records as a prefix; success iff it grows by 2, and the returned reply is then the last record; `ExchangeGrowth` and `ExchangeReplyIsCompletion` state each path |
| `ChatService.MessageStore.GetAiResponseAndSave` | app/services/chat_service.py:82-128 | the result and the new store are those of `SaveExchange` over the old store; the invariant is kept |
| `ChatService.ExchangeGrowth` | app/services/chat_service.py:88-128 | the store grows by 0 records without a client (503, nothing written), by 1 (the user's message) when the completion fails with 503, by 2 (user message, then the assistant reply that is returned) on success; earlier records unchanged |
| `ChatService.ExchangeReplyIsCompletion` | app/services/chat_service.py:114-125 | the send succeeds iff the completion of the request built after storing the user's message is a reply; the stored reply's content is that text; a failure carries the provider's message |
| `ChatService.ExchangeKeepsInvariant` | app/services/chat_service.py:91-125 | a send keeps timestamps strictly increasing and ids unique |
| `ChatService.FormattedHistory` | app/services/chat_service.py:131-148 | a page has at most `limit` records, all stored and all of the requested conversation |
| `ChatService.FormattedHistoryIsSlice` | app/services/chat_service.py:137-141 | the page is the slice [skip, skip + limit) of the conversation in ascending timestamp order, clipped to its length, and is itself in increasing timestamp order |
| `ChatRouter.Strip` | app/routers/chat.py:32 | Python's `str.strip()`: the result is a contiguous part `s[a..b]` of the input with only whitespace outside it, and is empty or starts and ends with a non-whitespace character |
| `ChatRouter.IsBlank` | app/routers/chat.py:32 | the guard `not content.strip()` holds iff every character is whitespace in Python's sense (the empty content included) |
| `ChatRouter.BlankIffAllWhitespace` | app/routers/chat.py:32-33 | `Strip(content)` is empty iff every character is whitespace in Python's sense (the empty content included) |
| `ChatRouter.SendRoute` | app/routers/chat.py:32-47 | the send handler as a function of the store: the store grows by 0 to 2 records with its old records kept; blank content returns 400 and leaves the store unchanged; `SendRouteGrowth` states each path |
| `ChatRouter.SendMessage` | app/routers/chat.py:16-48 | the result and the new store are those of `SendRoute`: blank content gives 400 with the store unchanged, any other content is the service's send |
| `ChatRouter.SendRouteGrowth` | app/routers/chat.py:32-47 | blank content is refused with 400 and writes nothing, whatever the client; otherwise the store grows by 0, 1 or 2 records as above, first the user's message; success iff it grows by 2 |
| `ChatRouter.MessageHistory` | app/routers/chat.py:50-79 | the history handler: it fails only with 422 (bounds), 500 (a skip the driver cannot encode as a signed 64-bit integer) or 404 (not found); a page has at most 200 records, all stored and of the requested conversation; `HistoryBounds` and `HistoryNotFoundRule` state when each case applies |
| `ChatRouter.HistoryBounds` | app/routers/chat.py:53-54 | the handler refuses exactly skip < 0, limit < 1 or limit > 200; absent parameters mean skip 0 and limit 100, which are accepted; within bounds, it fails with 500 exactly when skip exceeds 2^63 - 1 |
| `ChatRouter.HistoryNotFoundRule` | app/routers/chat.py:68-79 | within bounds: 404 iff skip is 0 and the conversation has no message; a skip above 2^63 - 1 gives 500; otherwise the page is the ascending slice [skip, skip + limit); a skip at or past the end, up to 2^63 - 1, gives an empty list, not an error; skip 0 on a non-empty conversation gives a non-empty page |
| `ChatRouter.DefaultPageIsWholeConversation` | app/routers/chat.py:50-79 | with default parameters, a conversation of 1 to 100 messages is returned whole |
| `ChatRouter.StartNewConversation` | app/routers/chat.py:82-89 | returns the conversation id the id generator drew, with the handler's fixed note; `NewConversationIsEmpty` states that the id names an empty conversation |
| `ChatRouter.NewConversationIsEmpty` | app/routers/chat.py:82-89 | the new-conversation handler returns the fresh id it drew and writes nothing; a fresh id has count 0, and its history is 404 |
| `ChatRouter.FirstExchangeHistory` | app/routers/chat.py:42-79 | on a time-ordered store with increasing clock readings, after the first successful send to a conversation, its default history is exactly the user's message then the reply |

## Left out

- The completion provider itself. The remote call, its model name and the construction of its client are out of scope; the client is the opaque `CompletionClient` parameter.
- A completion whose first choice has no text content. In the source this fails later, at record validation, with a server error. The model's `Reply` always carries text.
- Storage failures (the store unreachable, a failed insert). Every write in the model succeeds, so the state "user message stored, reply write failed" arises only through a failed completion.
- Async dispatch, the worker thread for the completion call, and races between concurrent sends on one conversation. Each request is one sequential step.
- The database connection, ping and index creation; settings loading; the web application, CORS and lifespan. The collection is the `records` field, and the system prompt is its default text as a constant.
- Request parsing and JSON encoding. Records are transcribed as a datatype. `MessageResponse` has the same fields as the stored record, so the model returns the record.
- The real clock and `uuid4`. They are parameters; see the next two lines.
- ChatService.MessageStore.AddMessage: requires a clock reading strictly later than every stored record and an id not yet used. The store keeps timestamps to the millisecond (a BSON date), so a clock tick is one millisecond. Messages written in the same millisecond, whose order the source leaves undefined, are not modelled.
- ChatService.MessageStore.GetAiResponseAndSave: requires two increasing clock readings and two distinct fresh ids for the same reason.
- ChatService.MessageStore.HistoryForCompletion: requires `limit >= 1`. MongoDB reads `limit(0)` as "no limit", and the only caller passes 10. The default of 20 is never used.
- ChatService.FormattedHistory: takes `skip` and `limit` as naturals and does not fail. Its only caller checks the lower bounds and the limit's upper bound first. The driver's failure on a skip above 2^63 - 1 is not caught between the two, so `ChatRouter.MessageHistory` models it before calling this function.
- Framework validation of the query parameters is modelled as a single `RequestInvalid` (status 422), and an uncaught exception as `Unhandled` (status 500). Their response bodies are not modelled.
- Token-budget truncation (disabled in the source) and the unused `MAX_HISTORY_TOKENS`, background tasks and commented-out id validation.
- Debug output.
