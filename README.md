# RAG chatbot backend — session store, answer pipeline and indexing, in Dafny

This project models the core of a retrieval-augmented chatbot backend:

- **Session store** (`chat_service.dfy`, over `redis.dfy`). Chat sessions live in Redis:
  - a sorted set holds each session's last-activity time;
  - a list per session holds its messages;
  - a TTL is refreshed on every message.
  It offers five operations: create, append, read history, clear, and list active sessions while reaping stale ones. Each is a method of `ChatService.Service` and is specified by a function on the store's state. The failure of any single Redis call is an explicit `Fault` parameter. All the service's `catch` clauses are modelled.
- **Answer pipeline** (`rag_query.dfy`, pure). It embeds the question, searches the vector index for the top-k articles, builds the "Title:/Content:" context, and asks the generator model. It falls back to `"Loading...."` or `"Server is busy, Please try again later."`.
- **Ingestion** (`ingestion.dfy`). It parses the comma-separated feed list and fetches the feeds in order. Each parsed item becomes one article record, with per-field defaults.
- **Vector index** (`qdrant.dfy`). It maps articles to points and holds a `Server` class with its collections. It covers create-if-absent, upsert and search.
- **Indexing job** (`indexing.dfy`). It embeds, checks the vector count, ensures the collection exists, then upserts.
- **HTTP handlers** (`chat_controller.dfy`) and **socket handlers** (`socket_handler.dfy`). Each returns the response or the events it produces, together with the ordered store and pipeline steps it takes.

Remote services are function parameters that either return a value or throw. These are the embedding endpoint, the vector search, the generator, the feed fetch and parse, UUID generation and the clock. Redis and Qdrant are modelled as state, in `Redis.Store` and `Qdrant.Server`.

Conventions:
- A Dafny `char` is a Unicode scalar value, while JavaScript strings are sequences of UTF-16 code units. Splitting on a comma, trimming and joining agree in the two views, since the comma and all white space lie in the Basic Multilingual Plane. Where the code units matter, in the character-by-character streaming of a reply, the model encodes the reply to UTF-16 (`Strings.Utf16`) and streams one code unit per event.
- Time is in milliseconds. A Redis key counts as expired only once the clock is strictly past its expiry.
- The `chat:` prefix of list keys is dropped: a list is keyed by its session id.

## Model

| member | source | states |
|---|---|---|
| ChatService.SessionTtl | src/services/chatService.ts:7 | the TTL is the configured number when it is set and non-zero; when it is unset or 0, the TTL is 3600; it is never 0 |
| ChatService.Service.constructor | src/services/chatService.ts:6-7 | the service keeps the shared store and the TTL computed from the configuration |
| ChatService.Service.CreateSession | src/services/chatService.ts:10-26 | the new state and the returned id are those of ZADD(id, now) then EXPIRE; a throwing call stops there and returns "" |
| ChatService.CreateSessionOutcome | src/services/chatService.ts:10-26 | "" is returned iff one of the two calls threw; otherwise the fresh id is returned, scored `now`; if EXPIRE threw, the id is already indexed; no list is created, so the new session's history is empty |
| ChatService.Service.HandleMessage | src/services/chatService.ts:29-44 | the new state is RPUSH, then ZADD, then EXPIRE, stopping at the call that throws |
| ChatService.HandleMessageAppends | src/services/chatService.ts:29-44 | with no failure, exactly `msg` is appended to the live history; the session is scored `now`; its list expires TTL seconds later |
| ChatService.HandleMessageIsolated | src/services/chatService.ts:29-44 | whichever call fails, every other session's list, expiry and score is unchanged |
| ChatService.AppendsInOrder | src/services/chatService.ts:29-44 | N appends, each within the TTL window of the previous one, read back in time give the old history followed by the N messages in call order |
| ChatService.HandleMessageFailureLeavesOrphan | src/services/chatService.ts:34-43 | a ZADD that throws after the RPUSH leaves a list with no index entry |
| ChatService.Service.GetHistory | src/services/chatService.ts:47-55 | the reply is the whole live list, empty for an absent or expired key, and empty when LRANGE throws; the store is not changed |
| ChatService.Service.ClearSession | src/services/chatService.ts:58-65 | the new state is DEL of the list and then ZREM from the index, stopping at the call that throws |
| ChatService.ClearIdempotent | src/services/chatService.ts:58-65 | after a clear, the id is neither indexed nor has a list; clearing again, even with a failure, changes nothing |
| ChatService.Service.GetSessions | src/services/chatService.ts:68-91 | the stale ids are those scored in [0, now - TTL·1000], lowest score first; they are reaped and their lists deleted in that order; the reply ranks the remaining index by descending score; for every failing call, the reply is [] and the state is the one reached before that call |
| ChatService.Service.DeleteLists | src/services/chatService.ts:78-80 | the lists of the stale ids are deleted in order; when the j-th DEL throws, exactly the first j lists are gone |
| ChatService.Cutoff | src/services/chatService.ts:70 | the cutoff lies exactly TTL seconds, in milliseconds, before now, and strictly before now for a positive TTL |
| ChatService.SweepReapsExactlyStale | src/services/chatService.ts:70-81 | the cleanup removes exactly the ids scored in [0, cutoff] and their lists; every other id keeps its score, list and expiry |
| ChatService.CreatedSessionListed | src/services/chatService.ts:10-20 | a created session is listed by any later getSessions whose cutoff is still before its creation time, with an empty history |
| ChatService.ConsistencyPreserved | src/services/chatService.ts:10-81 | create, clear (even when partly failed), a failure-free append and a failure-free cleanup all keep every list's id in the index |
| ChatService.SweepFailureLeavesOrphan | src/services/chatService.ts:76-81 | a DEL that throws after ZREMRANGEBYSCORE leaves a stale session's list with no index entry, so no later cleanup reaps it |
| ChatService.NothingStale | src/services/chatService.ts:76 | when nothing is stale the cleanup changes nothing |
| ChatService.RankedMembers | src/services/chatService.ts:74-84 | a ranking lists exactly the members of the set it ranks |
| Redis.Store.constructor | src/services/chatService.ts:1 | a fresh store is empty |
| Redis.Store.ZAdd | src/services/chatService.ts:16 | ZADD inserts the member or updates its score, and nothing else changes |
| Redis.Store.ZRem | src/services/chatService.ts:61 | ZREM removes the member from the index only |
| Redis.Store.ZRemRangeByScore | src/services/chatService.ts:77 | ZREMRANGEBYSCORE removes exactly the members scored within the inclusive range |
| Redis.Store.ZRangeByScore | src/services/chatService.ts:74 | the reply holds exactly the members scored in the inclusive range, ascending by score, with ties in code-point order, which is the order of their UTF-8 bytes |
| Redis.Store.ZRangeRev | src/services/chatService.ts:84 | the reply holds every member, descending by score, with ties in reverse code-point order, which is the order of their UTF-8 bytes |
| Redis.Rank | src/services/chatService.ts:74-84 | the selection loop produces the ranking of the whole set, in either direction |
| Redis.FirstExists | src/services/chatService.ts:74-84 | every non-empty set of members has a member that precedes all the others |
| Redis.RankedDistinct | src/services/chatService.ts:84 | a ranking never lists an id twice |
| Redis.TwoSessionsMostRecentFirst | src/services/chatService.ts:84 | of two sessions, the one with the later activity is listed first |
| Redis.PrecedesTransitive | src/services/chatService.ts:84 | the ranking order is transitive |
| Redis.PrecedesTotal | src/services/chatService.ts:84 | any two distinct members are ordered one way or the other |
| Redis.PrecedesIrreflexive | src/services/chatService.ts:84 | no member precedes itself |
| Redis.Live | src/services/chatService.ts:49 | a list with no expiry is live; a list whose expiry is now or later is live; a key past its expiry is not |
| Redis.ListAt | src/services/chatService.ts:49 | an absent or expired key reads as the empty list |
| Redis.Store.RPush | src/services/chatService.ts:34 | RPUSH appends to a live list and keeps its expiry; on an absent or expired key it starts a one-element list with no expiry |
| Redis.Store.Del | src/services/chatService.ts:60 | DEL removes the list and its expiry |
| Redis.Store.Expire | src/services/chatService.ts:19 | EXPIRE does nothing on an absent or expired key; a non-positive timeout deletes the key; otherwise the expiry is set `seconds` from now |
| Redis.Store.LRange | src/services/chatService.ts:49 | LRANGE 0 -1 returns the whole live list, or [] |
| Order.LexTotal | src/services/chatService.ts:84 | the tie-break order on ids is total on distinct strings |
| Order.LexTransitive | src/services/chatService.ts:84 | the tie-break order is transitive |
| Order.LexIrreflexive | src/services/chatService.ts:84 | the tie-break order is strict |
| Order.LexAsymmetric | src/services/chatService.ts:84 | the tie-break order is asymmetric |
| RagQuery.QueryArticles | src/services/ragQueryService.ts:7-37 | the answer is never "" |
| RagQuery.AnswerCases | src/services/ragQueryService.ts:7-37 | the answer is the busy message, the loading message or the generator's own text; it is the busy message whenever the embedding or the search throws; once both succeed, the generator is asked with the context of the hits and the question, and the answer is the busy message if it throws, its text if that is non-empty, and the loading message if it is empty |
| RagQuery.OnlyFirstEmbeddingAndTopK | src/services/ragQueryService.ts:10-13 | only the first returned embedding and the limit `topK` matter: services that agree on those calls give the same answer |
| RagQuery.EmptyIndexStillAsks | src/services/ragQueryService.ts:16-33 | with no hits the generator is still asked, with an empty context, and its answer or the fallback is returned |
| RagQuery.ContextShape | src/services/ragQueryService.ts:16-18 | no hits give an empty context; one hit gives its block; two runs of hits give their contexts joined by a blank line |
| RagQuery.Render | src/services/ragQueryService.ts:17 | a block is exactly "Title: ", the hit's title, a line break and "Content: ", then the hit's content, each at its fixed offset |
| RagQuery.PayloadText | src/services/ragQueryService.ts:17 | the title or the content of the hit's payload, or "undefined" when the payload is missing |
| RagQuery.Context | src/services/ragQueryService.ts:16-18 | no hits give the empty context; a single hit gives exactly its block |
| RagQuery.Request | src/services/ragQueryService.ts:21-27 | the request names the model "gemini-2.5-flash", carries the fixed system instruction and exactly one prompt, which starts with "Context:\n" and ends with the question |
| RagQuery.Prompt | src/services/ragQueryService.ts:23 | the prompt starts with "Context:\n" and is as long as the context, the question and the fixed text around them |
| RagQuery.FirstVector | src/services/ragQueryService.ts:10 | there is a first embedding iff the service returned at least one, and it is the first returned |
| RagQuery.RenderAll | src/services/ragQueryService.ts:16-17 | one block per hit, in returned order |
| RagQuery.PromptParts | src/services/ragQueryService.ts:23 | the context and the question can be read back from the prompt at fixed offsets |
| Strings.Join | src/services/ragQueryService.ts:18 | joining no parts gives "", one part gives that part, and a join starts with its first part |
| Strings.JoinAppend | src/services/ragQueryService.ts:18 | joining a concatenation is joining the parts with one separator between them |
| Strings.JoinSnoc | src/services/ragQueryService.ts:18 | joining with one more element appends the separator and that element |
| Strings.Split | src/services/ragIngestionService.ts:15 | split gives at least one part, and no part contains the separator |
| Strings.JoinSplit | src/services/ragIngestionService.ts:15 | joining the parts of a split with the separator gives the string back |
| Strings.SplitJoin | src/services/ragIngestionService.ts:15 | splitting a join of non-empty, separator-free parts gives the parts back |
| Strings.SplitAfterPart | src/services/ragIngestionService.ts:15 | a leading separator-free part followed by the separator splits off as the first part |
| Strings.SplitNoSeparator | src/services/ragIngestionService.ts:15 | a string without the separator splits into itself |
| Strings.IsJsSpace | src/services/ragIngestionService.ts:15 | space, tab, line feed and carriage return are white space; digits, ASCII letters and the URL punctuation `,:/.-` are not |
| Strings.TrimStart | src/services/ragIngestionService.ts:15 | trimStart removes only leading whitespace characters, and the result does not start with one |
| Strings.TrimEnd | src/services/ragIngestionService.ts:15 | trimEnd removes only trailing whitespace characters, and the result does not end with one |
| Strings.Trim | src/services/ragIngestionService.ts:15 | trim returns a slice of the input surrounded only by whitespace, with no whitespace at either end |
| Strings.TrimNoEdgeSpace | src/services/ragIngestionService.ts:15 | a string without whitespace at either end is left unchanged |
| Strings.TrimKeepsOut | src/services/ragIngestionService.ts:15 | trimming adds no character, so a feed URL without a comma stays without one |
| Strings.TrimLeadingBlank | src/services/ragIngestionService.ts:15 | a blank before an already-trimmed string is removed by trim |
| Strings.TrimIdempotent | src/services/ragIngestionService.ts:15 | trimming twice is trimming once |
| Base.OrElse | src/services/ragIngestionService.ts:46-49 | a logical-or of a string with a fallback gives the fallback when the string is missing or empty, else the string |
| Ingestion.Feeds | src/services/ragIngestionService.ts:15 | every configured feed is non-empty, trimmed and free of commas |
| Ingestion.NoFeedsConfigured | src/services/ragIngestionService.ts:15-19 | an unset or empty RSS_FEEDS configures no feed |
| Ingestion.FeedsRoundTrip | src/services/ragIngestionService.ts:15 | a comma-joined list of non-empty, trimmed, comma-free URLs configures exactly those feeds, in order |
| Ingestion.FeedsOfJoin | src/services/ragIngestionService.ts:15 | for any comma-free parts, the feeds of their comma-join are the trimmed parts with empty ones dropped, in order |
| Ingestion.FeedsWithBlanksAndTrailingComma | src/services/ragIngestionService.ts:15 | "u1, u2," configures exactly [u1, u2]: the blank is trimmed and the empty last part dropped |
| Ingestion.FeedsRoundTripNonEmpty | src/services/ragIngestionService.ts:15 | the same round trip, for a list of at least one URL |
| Ingestion.TrimAll | src/services/ragIngestionService.ts:15 | one trimmed part per part, in order |
| Ingestion.TrimAllIdempotent | src/services/ragIngestionService.ts:15 | trimming the parts again changes nothing |
| Ingestion.TrimAllAppend | src/services/ragIngestionService.ts:15 | trimming a concatenation trims each run, in order |
| Ingestion.TrimAllTrimmed | src/services/ragIngestionService.ts:15 | already-trimmed parts are unchanged |
| Ingestion.NonEmpty | src/services/ragIngestionService.ts:15 | `filter(Boolean)` keeps only non-empty parts of the input and every non-empty part |
| Ingestion.NonEmptySingle | src/services/ragIngestionService.ts:15 | a single part is kept iff it is non-empty |
| Ingestion.NonEmptyAppend | src/services/ragIngestionService.ts:15 | filtering a concatenation filters each run and keeps them in order; with NonEmptySingle this fixes the result as the non-empty parts in input order |
| Ingestion.NonEmptyKeepsAll | src/services/ragIngestionService.ts:15 | a list with no empty part passes the filter unchanged |
| Ingestion.ToArticle | src/services/ragIngestionService.ts:44-50 | each field takes the item's value, or its default when that value is missing or empty: "" for title and url, the current time for the date; content falls back from contentSnippet to content to "" |
| Ingestion.FeedArticles | src/services/ragIngestionService.ts:35-51 | a parsed feed yields one article per item, in item order; a non-ok status or an exception yields none |
| Ingestion.Responses | src/services/ragIngestionService.ts:25-33 | one fetch per configured feed, in order |
| Ingestion.CollectedCount | src/services/ragIngestionService.ts:21-59 | a run yields exactly one article per parsed item; a feed that failed yields none |
| Ingestion.CollectedIds | src/services/ragIngestionService.ts:43-51 | the k-th article of a run gets the k-th generated id |
| Ingestion.CollectedPrefix | src/services/ragIngestionService.ts:25-55 | later feeds only append after the articles of earlier feeds |
| Ingestion.CollectedStep | src/services/ragIngestionService.ts:25-55 | one more feed appends exactly that feed's articles |
| Ingestion.PushItems | src/services/ragIngestionService.ts:43-51 | the loop appends one article per item, in item order |
| Ingestion.FetchRSSArticles | src/services/ragIngestionService.ts:21-59 | the loop over the feeds returns exactly the feed-then-item collection of the responses, skipping feeds that failed |
| Qdrant.CollectionName | src/services/qdrantService.ts:7 | the collection is QDRANT_COLLECTION when it is set and non-empty, else "news_articles"; it is never empty |
| Qdrant.PointRoundTrip | src/services/qdrantService.ts:48-57 | a point keeps its article's id, all four payload fields and its embedding |
| Qdrant.ToPoints | src/services/qdrantService.ts:48-57 | one point per input, in input order, each carrying its article and embedding |
| Qdrant.PutAll | src/services/qdrantService.ts:59 | after upsert, the stored ids are the old ids plus the batch's ids |
| Qdrant.PutAllStores | src/services/qdrantService.ts:59 | with distinct ids, every point of the batch is stored as given and other points are untouched |
| Qdrant.Server.constructor | src/services/qdrantService.ts:4 | a fresh server holds no collection |
| Qdrant.Server.GetCollection | src/services/qdrantService.ts:13-15 | getCollection succeeds iff the call does not fail and the collection exists, and then returns its configuration |
| Qdrant.Server.CreateCollection | src/services/qdrantService.ts:22-31 | a collection is created, empty, iff the call does not fail and the name is free; otherwise nothing changes |
| Qdrant.Server.Upsert | src/services/qdrantService.ts:59 | upsert succeeds iff the call does not fail, the collection exists and every vector has the configured size; only then are the points stored |
| Qdrant.CreateCollection | src/services/qdrantService.ts:11-38 | an existing collection is left alone; otherwise one is created with 1024-dimensional cosine vectors, one segment and one replica; an error is reported as failure |
| Qdrant.EnsureCollectionIdempotent | src/services/qdrantService.ts:11-38 | after a success the collection exists; a second call with a successful lookup changes nothing; an absent collection is created with the news configuration unless creation fails; a failure changes nothing |
| Qdrant.UpsertArticles | src/services/qdrantService.ts:41-66 | the batch's points are stored in the collection iff the upsert succeeds; otherwise nothing changes |
| Qdrant.UpsertReadBack | src/services/qdrantService.ts:41-66 | after an upsert of articles with distinct ids, each article and its embedding can be read back from the point under its id |
| Qdrant.SearchArticles | src/services/qdrantService.ts:69-82 | the search is sent the query vector with `limit: topK`, and its reply or error is passed through unchanged |
| Indexing.Contents | src/services/indexArticles.ts:17 | the texts sent for embedding are the articles' contents, in article order |
| Indexing.Pair | src/services/indexArticles.ts:27-30 | article i is paired with embedding i |
| Indexing.Run | src/services/indexArticles.ts:7-39 | no articles: nothing is called or changed; an embedding error or count mismatch: fail after the embedding call only; a failed collection step: fail before any upsert; otherwise the pairs are upserted, and "indexed" is reported iff the upsert succeeded; the collection used is the one QDRANT_COLLECTION names, or "news_articles"; `run` never throws |
| ChatController.SendMessage | src/controllers/chatController.ts:6-30 | a missing request body gives 500 "Server error" and nothing changes; a missing or empty id or message gives 400 "sessionId and message are required" and nothing changes; otherwise the user message is stored, then the answer is computed, then the bot message is stored, then the history is read, and 200 returns the reply, the id and that history; with no failure, the history is the earlier one plus the user and bot messages |
| ChatController.TurnHistory | src/controllers/chatController.ts:13-23 | with no failure, the history read at the end of a turn is the earlier live history, then the user message, then the bot message |
| ChatController.ClearSession | src/controllers/chatController.ts:32-45 | a missing request body gives 500 "Server error" and nothing changes; a missing or empty id gives 400 "sessionId is required"; otherwise the session is cleared and 200 {status: "cleared"} is returned, even when a Redis call failed inside |
| ChatController.InterpolatedId | src/controllers/chatController.ts:49-50 | a missing id names the list of the session "undefined" |
| ChatController.GetSessionHistory | src/controllers/chatController.ts:47-56 | a missing request body gives 500 "Server error"; otherwise, with no validation, 200 echoes the id as given and returns that session's stored history; the store is unchanged |
| Strings.UnitsOf | src/sockets/socketHandler.ts:22 | a character below U+10000 is one code unit, itself; any other is a high surrogate then a low surrogate that together encode it |
| Strings.Utf16 | src/sockets/socketHandler.ts:22 | a string has at least as many code units as characters |
| Strings.FromUtf16 | src/sockets/socketHandler.ts:22-26 | decoding never yields more characters than there are code units |
| Strings.Utf16RoundTrip | src/sockets/socketHandler.ts:22-26 | decoding the code units of a string gives the string back |
| Strings.NonBmpIsTwoUnits | src/sockets/socketHandler.ts:22 | a character outside the Basic Multilingual Plane is two code units, so two `split("")` pieces |
| SocketHandler.StreamReply | src/sockets/socketHandler.ts:22-28 | one bot_reply step per UTF-16 code unit of the reply, in order |
| SocketHandler.EmittedReplies | src/sockets/socketHandler.ts:22-28 | streaming emits nothing but the bot_reply events, one per code unit, in order |
| SocketHandler.StreamedReplies | src/sockets/socketHandler.ts:22-28 | the code units of the bot_reply events, concatenated, are the units streamed |
| SocketHandler.StreamedReplyReassembles | src/sockets/socketHandler.ts:22-28 | a client concatenating the streamed pieces of a reply decodes exactly the reply |
| SocketHandler.ReplyEvents | src/sockets/socketHandler.ts:26 | the i-th bot_reply event carries the session id and the i-th code unit |
| SocketHandler.ReplySteps | src/sockets/socketHandler.ts:25-26 | the i-th streamed step carries the i-th code unit |
| SocketHandler.EmittedAppend | src/sockets/socketHandler.ts:9-42 | the events of two step runs are the events of each, in order |
| SocketHandler.EmittedCons | src/sockets/socketHandler.ts:9-42 | a step adds its event, if it has one, in front of the events of the rest |
| SocketHandler.TurnSteps | src/sockets/socketHandler.ts:14-38 | a turn is seven steps plus one per reply code unit: it starts by storing the user message, asks the pipeline third, streams the reply from the fourth step, and ends with bot_done |
| SocketHandler.TurnStepsShape | src/sockets/socketHandler.ts:14-38 | the handler's steps, taken in source order, are exactly the turn's |
| SocketHandler.TurnOrder | src/sockets/socketHandler.ts:14-38 | a turn emits bot_typing, then the reply code unit by code unit, then chat_history, then bot_done, and nothing else; the bot_reply events carry exactly the reply's code units |
| SocketHandler.TurnStoreOrder | src/sockets/socketHandler.ts:14-38 | the user message is stored first, before anything is emitted; the bot message is stored right after the last code unit; no other message is stored; only the history read and events follow |
| SocketHandler.SendMessage | src/sockets/socketHandler.ts:9-42 | a missing payload rejects the listener before the `try`, with nothing emitted or stored; a missing or empty id or message does nothing; otherwise the store goes through both appends and the steps are exactly the turn's, with the history read after the bot message is stored |
| SocketHandler.GetHistory | src/sockets/socketHandler.ts:45-53 | an empty id does nothing; otherwise the stored history is read and sent as chat_history |
| SocketHandler.ClearSession | src/sockets/socketHandler.ts:56-64 | an empty id does nothing; otherwise the session is cleared and chat_cleared is sent, even when a Redis call failed inside |

## Left out

- The Redis, Qdrant, Gemini and Jina clients are not modelled: their configuration, connection handling and wire formats. src/config/*.ts and src/services/jinaEmbeddings.ts are not part of this model. Embedding, search and generation are function parameters that return a value or throw.
- Similarity scoring and the order of search hits belong to the vector server. The model takes the hits as returned and leaves out the score field.
- Express routing, the session routes and server start-up are left out: src/routes, src/controllers/sessionController.ts and src/server.ts. Socket connection and disconnect logging is left out too.
- ChatController.SendMessage, ChatController.ClearSession, ChatController.GetSessionHistory: the only 500 "Server error" modelled is the one for a missing request body, whose destructuring throws inside the `try`. No other 500 path is reachable: every service they call catches its own errors, and queryArticles never throws. Likewise, the socket handlers' catch clauses are never entered.
- ChatController.GetSessionHistory: a body field that is JSON `null` is not modelled. A missing field is `None` and is interpolated as "undefined"; a `null` one would name the list "chat:null".
- Logging (`console.log` and `console.error`) is left out.
- SocketHandler.SendMessage: the 20 ms pause between code units is not modelled. A client disconnect during streaming is not modelled either. A payload that is present but not an object is not modelled; the two fields are taken as given. The rejection of the listener's promise on a missing payload is reported as `rejected`; what Node does with the unhandled rejection is not modelled.
- Concurrent requests are not modelled. Each operation runs to completion before the next one starts.
- Messages are stored as values. The JSON round trip through `JSON.stringify` and `JSON.parse` is taken to be exact.
- ChatService.Service.ClearSession, ChatService.Service.HandleMessage: list keys drop the `chat:` prefix and the model keeps lists and the session index apart, so the collision of the session id "sessions" with the index key "chat:sessions" is not modelled. In Redis, clearing the session "sessions" (over HTTP or the socket) DELs the whole session index. A message to "sessions" while the index key is absent RPUSHes a list onto that key; after that every ZADD and ZRANGEBYSCORE fails with a wrong-type error, so createSession returns "" and getSessions returns []. A message to "sessions" while the index exists fails at RPUSH with a wrong-type error.
- SESSION_SET_KEY is fixed: the model has one session index.
- ChatService.SessionTtl takes the parsed number as an input. `Number(...)` parsing and non-integer values such as "1.5" are not modelled.
- Each operation reads the clock once. handleMessage's ZADD score and its EXPIRE base use the same `now`, and so do the two appends of a turn.
- Ingestion.FetchRSSArticles: fetching and parsing are a function of the feed URL. So a URL listed twice gets the same response both times. The User-Agent and Accept headers are not modelled.
- Ingestion.FetchRSSArticles: `crypto.randomUUID()` is a parameter `uuid`, applied to the article's position. The model does not state that the ids are distinct.
- Indexing.Run takes the fetched articles as an input. It does not call Ingestion.FetchRSSArticles itself.
- A search hit may have a payload with some fields missing. Only the case of a whole missing payload (rendered as "undefined") is modelled.
- Qdrant.Server.CreateCollection assumes that Qdrant refuses to create a collection whose name is taken.
- Qdrant.Server.Upsert assumes that Qdrant rejects the whole batch when any vector has the wrong size.
- Qdrant.Server.Upsert, Qdrant.UpsertArticles: a failed upsert is modelled as one the server refused or never received, so it changes nothing. An upsert the server applied but whose reply was lost, for example to the client's 10-second timeout, is not modelled; there the points are stored although the call throws.
- Indexing.Run: after an upsert failure the model's index is unchanged, for the same reason; an applied upsert whose reply was lost is not modelled.
- ChatService.Service.DeleteLists: as with every `Fault`, the throwing Redis call is taken to have had no effect. A command Redis applied before the connection dropped its reply is not modelled; there that list would be gone although the call threw.
- JavaScript strings holding an unpaired surrogate cannot be written as Dafny strings, so messages, replies and ids are taken to be well-formed UTF-16.
