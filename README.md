# brobot: conversation core, connection registry and client state, in Dafny

brobot is a chat tutor that walks a user through a *scenario*. A scenario is a list of *chapters*; a
*training session* ties one user to one scenario. The bot answers on a websocket and records a
*chapter completion* when its tool says the current chapter is done. This project models the parts
of brobot that hold its logic, and proves what they promise:

- the server-side **connection registry** (`ConnectionRegistry`): one live socket per session, a
  bounded FIFO of undelivered payloads per session (100 entries, the oldest dropped), fallback to
  the queue on failed sends, replay on (re)connect, and the receive loop that drops blank frames;
- the **conversation coordinator** (`Sessions`, `Chapters`): current-chapter resolution (the first
  pending chapter in ascending `order`, ties by list position), the transcript handed to the
  language model, one generation turn (one assistant message, one completion only when the tool
  set the flag), lookup-or-create of sessions, adding messages, cascade delete and the DTO
  projections;
- the **websocket bot adapter** (`BotAdapters`), whose simpler turn always uses the first chapter;
- the **scenario service** (`Scenarios`): projections, delete, create, and the checks and path
  rewrite that turn a GitHub page URL into the raw-file URL to import;
- the **schema** (`Models`, `Store`): the entities, their primary keys and UNIQUE constraints as a
  store invariant preserved by every write;
- the **slug validator** of the import request (`ImportRequests`, `Text`);
- the web client's **message merge** (`ClientMessages`, `StableSort`) and its **resilient
  websocket** (`WebSocketClient`): unbounded outgoing queue, flush on open, capped exponential
  back-off.

The store is a `Database` class whose `tables` field holds one sequence of rows per table in
insertion order and one counter per autoincrement key; `Store.WellFormed` is the schema's key and
uniqueness constraints and is kept by every service method. Operations that change state are
methods on classes (`ConnectionManager`, `SessionService`, `ScenarioService`, `BotAdapter`,
`ResilientSocket`) proved against specification functions; the pure parts (chapter search,
projections, URL rewrite, slug validation, message merge, back-off) are functions with lemmas.

Effects outside the program are inputs or logs:

- each socket send is an oracle outcome passed by the caller (`SendOutcome`, or `ok: nat -> bool`
  for the i-th send of a flush), and a ghost `wire` records what sockets accepted;
- the language model is `Sessions.Generate`, a method that promises nothing about its reply or flag;
- notifications a service sends are returned in order as a log of `Outbound` calls;
- background tasks are appended to a `scheduled` list instead of run;
- the clocks are integers passed in: `now` for the UTC-aware `now_utc()` that stamps rows
  (api/brobot/models.py:8-9), and `localNow` for the naive local `datetime.now()` that stamps a
  chapter completion (api/brobot/services/session.py:119); the two differ by the host's UTC offset;
- exceptions are `Failure` values in a `Result`.

The websocket bot adapter works over the older service in `brobot/services/session.py`, whose
`get_complete_scenario` is a lookup by session id and whose `add_message` is the same as the
coordinator's; the model reuses `Sessions.SessionService` for both.

The receive loop of `handle_session` hands on the frames unstripped (the code passes `raw`); the
model follows the code. The slug is stripped with the Unicode White_Space set (pydantic's
`strip_whitespace`), received frames with Python's `str.isspace` set, which also includes
U+001C..U+001F.

## Model

| member | source | states |
|---|---|---|
| StableSort.SortBySorted | api/brobot/services/session.py:259 | the sort by key returns a non-decreasing sequence that is a permutation of its input |
| StableSort.SortByStable | app/utils/messages.ts:6-9 | elements with equal keys keep their relative order: for every key k, the sorted elements with key k are the input's elements with key k, in input order |
| StableSort.SortBySortedIsIdentity | app/utils/messages.ts:6-9 | sorting an already sorted sequence returns it unchanged |
| StableSort.FirstWhereLowest | api/brobot/services/session.py:259-261 | on a sorted sequence the first element satisfying a predicate has the lowest key among those satisfying it |
| StableSort.FirstWhereLowestOf | api/brobot/services/session.py:259-261 | searching a sorted permutation of s finds a member of s whose key is lowest among the members of s satisfying the predicate |
| Text.TrimIsSlice | api/brobot/dto/create/import_scenario.py:8 | stripping returns a contiguous slice of the input; everything cut away on either side is whitespace, and a non-empty result starts and ends with non-whitespace |
| Text.TrimEmptyIffAll | brobot/ws/manager.py:131 | the stripped text is empty exactly when every character is whitespace |
| Text.TrimPadded | api/brobot/dto/create/import_scenario.py:8 | whitespace padding around a text that starts and ends with non-whitespace is stripped back to that text |
| Models.FreshKeyAppend | api/brobot/models.py:46 | a row taking the autoincrement counter's value keeps the key unique and every key below the advanced counter |
| Models.KeyUniqueAppend | api/brobot/models.py:42-44 | a row whose key is not yet taken keeps a UNIQUE constraint |
| Models.KeyUniqueFilter | api/brobot/models.py:42-44 | deleting rows never breaks a uniqueness constraint |
| Models.KeysBelowFilter | api/brobot/models.py:46 | deleting rows keeps every key below the counter |
| Models.Turns | api/brobot/services/session.py:292-298 | one role/content pair per stored message, same length and order |
| Store.FindScenario | api/brobot/services/scenarios.py:30-32 | the lookup returns a stored scenario with that id, and None exactly when no stored scenario has it |
| Store.FindSession | api/brobot/services/session.py:105-106 | the lookup returns a stored session with that id, and None exactly when none has it |
| Store.FindPair | api/brobot/services/session.py:160-164 | the lookup returns a stored session of that (user, scenario) pair, and None exactly when none exists |
| Store.FindSessionUnique | api/brobot/models.py:46 | under the primary key, the lookup by id returns the one stored session with that id |
| Store.FindPairUnique | api/brobot/models.py:42-44 | under the unique (user, scenario) constraint, the pair lookup returns the one session of that pair |
| Store.DuplicateCompletionsAdmitted | api/brobot/models.py:124-125 | two completions of the same chapter for the same session form a well-formed store: nothing makes the pair unique |
| Store.DeleteOneMore | api/brobot/services/session.py:229-230 | deleting rows one primary key at a time composes: the keys so far, then one more, is the extended list of keys |
| Store.DeleteSelected | api/brobot/services/scenarios.py:93-97 | deleting, by primary key, every row a condition selects leaves exactly the rows it does not select |
| Store.DeletePreservesWellFormed | api/brobot/models.py:34-134 | deleting rows from any tables keeps the store's key and uniqueness constraints |
| Dtos.ScenarioView | api/brobot/services/scenarios.py:37-50 | the projection copies the scenario's id, title, description and creation time and lists its chapters, in table order, with id, title and order only |
| Dtos.ScenarioViewCoversChapters | api/brobot/services/scenarios.py:42-49 | a chapter summary is listed exactly when some chapter of that scenario has it |
| Events.Encode | brobot/ws/manager.py:69-71 | an event's JSON text is one object, and one of the two typing texts exactly for a typing event |
| Events.IntToStringRoundTrip | brobot/ws/manager.py:70 | the decimal text of every integer, sign included, parses back to it |
| Events.DecodeEncode | brobot/ws/manager.py:69-71 | every event's JSON text decodes back to the event |
| Events.EncodeInjective | brobot/ws/manager.py:69-71 | no two events share a JSON text |
| Chapters.CurrentChapter | api/brobot/services/session.py:254-262 | "No chapters found" exactly for an empty list; a found chapter is one of the list and not completed |
| Chapters.SearchFindsLowestOrder | api/brobot/services/session.py:259-261 | the chapter found is pending and its order is the lowest among the pending chapters |
| Chapters.LowestPendingExists | api/brobot/services/session.py:257-261 | whenever some chapter is pending, a chapter meeting the reference definition (pending, lowest order, first in list among pending of that order) exists |
| Chapters.SearchHitsReferenceOrder | api/brobot/services/session.py:259-261 | the search finds a chapter whose order is the reference chapter's |
| Chapters.CurrentChapterIsReference | api/brobot/services/session.py:257-261 | the search returns exactly the chapter the reference definition picks; ties in order go to the earlier chapter because the sort is stable |
| Chapters.CurrentChapterFoundIff | api/brobot/services/session.py:257-262 | a chapter is found iff some chapter is pending; "All chapters completed" iff there are chapters and every one is completed |
| ConnectionRegistry.DeliveriesAt | brobot/ws/manager.py:87-89 | the i-th delivery of a run carries the i-th payload to the socket |
| ConnectionRegistry.Enqueue | brobot/ws/manager.py:73-76 | the queue stays within capacity and ends with the new payload |
| ConnectionRegistry.EnqueueKeepsNewest | brobot/ws/manager.py:12 | appending keeps exactly the newest 100 payloads, in FIFO order |
| ConnectionRegistry.EnqueueAllKeepsNewest | brobot/ws/manager.py:73-76 | any number of queued sends leave the newest 100 of the old entries followed by the new payloads, in call order |
| ConnectionRegistry.FlushRun | brobot/ws/manager.py:87-92 | the count of payloads a flush delivers: every send before it succeeded and, if the queue was not exhausted, the next one failed |
| ConnectionRegistry.FlushAllDelivered | brobot/ws/manager.py:87-89 | when every send succeeds the whole queue is delivered and nothing stays queued |
| ConnectionRegistry.FlushSplitsQueue | brobot/ws/manager.py:87-92 | a flush whose i-th send fails delivers a FIFO prefix of at most i payloads, loses exactly the payload it popped for the failed send, and keeps the rest queued in order |
| ConnectionRegistry.NotBlankIffSomeNonSpace | brobot/ws/manager.py:131 | a frame is dispatched exactly when it holds a non-whitespace character |
| ConnectionRegistry.ConnectionManager.constructor | brobot/ws/manager.py:31-34 | no connections, no queues |
| ConnectionRegistry.ConnectionManager.Disconnect | brobot/ws/manager.py:51-54 | only the session's live socket is forgotten, idempotently; queues and deliveries unchanged |
| ConnectionRegistry.ConnectionManager.QueueMessage | brobot/ws/manager.py:73-77 | the session's queue (created empty if missing) gets the payload with oldest-drop at capacity; nothing else changes |
| ConnectionRegistry.ConnectionManager.SendText | brobot/ws/manager.py:56-67 | with no socket or a failing send the payload is queued; on a disconnect error the socket is also dropped, on any other error it stays; an accepted send reaches the wire and leaves queues alone; nothing is raised |
| ConnectionRegistry.ConnectionManager.SendJson | brobot/ws/manager.py:69-71 | send_text of the event's JSON text, with the same outcomes |
| ConnectionRegistry.ConnectionManager.FlushQueue | brobot/ws/manager.py:79-92 | without a live socket nothing changes; otherwise the first FlushRun payloads are delivered in FIFO order and the queue keeps what follows the failed one |
| ConnectionRegistry.ConnectionManager.DrainQueue | brobot/ws/manager.py:87-92 | the popping loop delivers the FlushRun prefix over the session's socket and leaves FlushRest queued |
| ConnectionRegistry.ConnectionManager.Connect | brobot/ws/manager.py:36-49 | the socket replaces any previous one for the session, then the queue is flushed over it |
| ConnectionRegistry.ConnectionManager.HandleSession | brobot/ws/manager.py:105-140 | the connect hook runs once; exactly the non-blank frames are dispatched, unstripped and in order; the connection is dropped at the end; queues unchanged |
| Sessions.SessionView | api/brobot/services/session.py:39-84 | fails with an attribute error exactly when the session's scenario is missing; otherwise carries the session's id and time, the scenario's own projection (`Dtos.ScenarioView` of the stored scenario), and one entry per message and completion of the session, in order |
| Sessions.Get | api/brobot/services/session.py:97-110 | None exactly for an unknown id; an attribute error exactly when the session exists but its scenario does not; otherwise exactly `SessionView` of the stored session |
| Sessions.ViewAll | api/brobot/services/session.py:141 | projecting a list succeeds exactly when every element's scenario exists, fails with an attribute error otherwise, and on success holds, position by position, each element's `SessionView` |
| Sessions.UsersSessions | api/brobot/services/session.py:126-141 | an attribute error exactly when some session of the user has a missing scenario; otherwise, position by position, the `SessionView` of each of the user's sessions in table order |
| Sessions.UsersSessionsBelongToUser | api/brobot/services/session.py:135-141 | every listed entry is the projection of a session of that user |
| Sessions.UsersSessionsListAll | api/brobot/services/session.py:135-141 | the projection of every session of the user is listed |
| Sessions.Transcript | api/brobot/services/session.py:277-298 | with no stored message, exactly the one assistant turn carrying `BootstrapPrompt`, the dedented instruction text of lines 281-287 (leading newline, lines without indentation, trailing space after "and" kept); otherwise one role/content pair per stored message, in stored order |
| Sessions.ResolveCurrentChapter | api/brobot/services/session.py:240-262 | "Session not found" exactly for an unknown session; an attribute error exactly for a missing scenario; "No chapters found" exactly for a scenario without chapters; a found chapter belongs to the session's scenario and is not completed |
| Sessions.ResolvedChapterIsReference | api/brobot/services/session.py:257-261 | the resolved chapter is the one the reference definition picks among the scenario's chapters |
| Sessions.AppendedMessageEndsHistory | api/brobot/services/session.py:201-203 | a new message ends its own session's history and leaves every other session's history unchanged |
| Sessions.DeletedSessionIsGone | api/brobot/services/session.py:213-238 | after the delete the session is not found and has no messages or completions; every other session keeps its own |
| Sessions.TurnNotifications | api/brobot/services/session.py:323-342 | with a registry: the chapter-completed event first when a completion was recorded, then the reply, then typing-stop; nothing without one |
| Sessions.TurnNotificationsStayInSession | api/brobot/services/session.py:323-342 | every notification of a turn is addressed to the turn's session |
| Sessions.TurnNotificationsAsWritten | api/brobot/services/session.py:323-329 | the call as written fails exactly when a registry is present and a completion was recorded |
| Sessions.AsWrittenLosesReply | api/brobot/services/session.py:323-334 | as written, such a turn sends nothing, while the corrected step sends the reply |
| Sessions.AsWrittenAgreesOtherwise | api/brobot/services/session.py:331-342 | wherever the call as written does not fail, it sends what the corrected step sends |
| Sessions.SessionService.AddMessage | api/brobot/services/session.py:185-211 | None and no change for an unknown session; otherwise exactly one message with the given role (default "user") appended and returned |
| Sessions.SessionService.CompleteChapter | api/brobot/services/session.py:112-124 | exactly one completion row linking session, chapter and message is appended, stamped with the local naive time it is given |
| Sessions.SessionService.DeleteMessagesOf | api/brobot/services/session.py:228-230 | the loop deletes exactly the session's messages |
| Sessions.SessionService.DeleteCompletionsOf | api/brobot/services/session.py:232-234 | the loop deletes exactly the session's completions |
| Sessions.SessionService.Delete | api/brobot/services/session.py:213-238 | False and no change for an unknown id; otherwise the session with all its messages and completions is removed and nothing else |
| Sessions.SessionService.GetOrCreate | api/brobot/services/session.py:143-183 | an existing pair's session is returned and nothing changes; otherwise exactly one session is inserted, typing-start is sent when a registry is given and one generation turn is scheduled |
| Sessions.SessionService.GenerateAnswer | api/brobot/services/session.py:264-344 | a resolution failure changes nothing; otherwise exactly one assistant message with the reply is appended and returned, a completion of the current chapter by it, stamped with the local naive time `localNow` while the message carries the UTC time `now`, is appended iff the flag is set, and the corrected notifications (`TurnNotifications`, see Findings) follow |
| Sessions.SessionService.RecordTurn | api/brobot/services/session.py:309-342 | the writes of a turn: one assistant message at UTC time `now`, then a completion at local naive time `localNow` iff the flag is set, then the corrected notifications (`TurnNotifications`) |
| BotAdapters.GetSession | brobot/ws/ws_bot_adapter.py:26-34 | "Session not found" exactly when the lookup finds nothing |
| BotAdapters.IdentifyCurrentChapter | brobot/ws/ws_bot_adapter.py:36-56 | "Scenario not found" for a missing scenario, "No chapters found" for none; otherwise exactly the first of the scenario's chapters in list order (which sits no later in the table than any other of them), completions ignored |
| BotAdapters.FirstOfScenarioComesFirst | brobot/ws/ws_bot_adapter.py:55 | the first chapter of a scenario sits no later in the table than any other chapter of it |
| BotAdapters.ReplyNotifications | brobot/ws/ws_bot_adapter.py:95-111 | two sends, both to the adapter's session: typing-stop first, the stored reply last |
| BotAdapters.ConvertMessages | brobot/ws/ws_bot_adapter.py:58-68 | one role/content pair per message, same length and order |
| BotAdapters.BotAdapter.AnswerUserMessage | brobot/ws/ws_bot_adapter.py:70-111 | lookup failures are reported and change nothing; an empty reply stores and sends nothing; otherwise exactly one assistant message is stored, then typing-stop and the reply are sent in that order; no completion is ever recorded |
| Scenarios.Get | api/brobot/services/scenarios.py:22-50 | None exactly for an unknown id; otherwise the projection of that scenario |
| Scenarios.GetAll | api/brobot/services/scenarios.py:52-77 | one projection per stored scenario, in storage order |
| Scenarios.InsertScenario | api/brobot/models.py:108 | the commit fails with an integrity error exactly when the slug is missing or taken; otherwise the row gets the next id and the store stays well formed |
| Scenarios.CreateAsWrittenAlwaysFails | api/brobot/services/scenarios.py:112-117 | as written, the first commit of create fails on every store |
| Scenarios.CreateSucceedsOnFreeSlug | api/brobot/services/scenarios.py:112-118 | with the slug carried over, the commit succeeds on a free slug and the new scenario is then found by its id |
| Scenarios.ChapterRows | api/brobot/services/scenarios.py:120-127 | one row per requested chapter, in order, with its title, content and order, the new scenario's id and consecutive fresh ids |
| Scenarios.CreatedChaptersAreListed | api/brobot/services/scenarios.py:120-129 | the new scenario's chapter list ends with the created chapters in request order |
| Scenarios.ScenarioRowAsWritten | api/brobot/services/scenarios.py:112-115 | the row as written carries the request's title and description and no slug |
| Scenarios.ScenarioRow | api/brobot/services/scenarios.py:112-115 | the corrected row carries the request's title, description and slug |
| Scenarios.RemoveAll | api/brobot/services/scenarios.py:160-162 | removing a pattern never lengthens the text |
| Scenarios.RemoveAllDropsLeading | api/brobot/services/scenarios.py:160-162 | an occurrence at the front is removed and removal continues right after it |
| Scenarios.RemoveAllKeepsNonMatch | api/brobot/services/scenarios.py:160-162 | a character that does not start an occurrence is kept, followed by the removal from the rest |
| Scenarios.RemoveAllWithoutOccurrence | api/brobot/services/scenarios.py:160-162 | a text in which the pattern does not occur is left unchanged |
| Scenarios.RemoveAllKeepsPrefix | api/brobot/services/scenarios.py:160-162 | a prefix in which no occurrence starts is kept in front of the removal from the rest |
| Scenarios.NoOccurrenceWithoutChar | api/brobot/services/scenarios.py:160-162 | a text lacking any character of the pattern holds no occurrence of it |
| Scenarios.RawUrl | api/brobot/services/scenarios.py:160-162 | the raw host followed by a text no longer than the path |
| Scenarios.ImportSource | api/brobot/services/scenarios.py:151-162 | "Invalid GitHub URL" exactly when the host is not github.com; the file-type error exactly when the path does not end in ".json"; otherwise the raw-host URL of the rewritten path |
| Scenarios.RemoveAllWithoutLastChar | api/brobot/services/scenarios.py:160-162 | a text without the pattern's last character is left unchanged |
| Scenarios.RemoveAllKeepsSuffix | api/brobot/services/scenarios.py:160-162 | a suffix not containing the pattern's last character survives the removal |
| Scenarios.RawUrlKeepsPlainPath | api/brobot/services/scenarios.py:160-162 | a path in which neither "blob/" nor "refs/heads/" occurs is kept verbatim after the raw host |
| Scenarios.RawUrlExample | api/brobot/services/scenarios.py:146-149 | the page path "/amrltqt/brobot/blob/master/data/scenarios/introduction-sql.json" becomes "https://raw.githubusercontent.com/amrltqt/brobot/master/data/scenarios/introduction-sql.json" |
| Scenarios.ImportSourceIsRawJson | api/brobot/services/scenarios.py:151-162 | every URL that passes the checks becomes a raw-host URL of a ".json" file |
| Scenarios.ScenarioDeletionState | api/brobot/services/scenarios.py:89-101 | removing the scenario by primary key removes exactly the row its id selects, and the store stays well formed |
| Scenarios.DeletionKeepsReferencesResolved | api/brobot/services/scenarios.py:89-100 | when no session and no completion refers to the scenario or its chapters, deleting them leaves every session's scenario and every completion's chapter stored |
| Scenarios.ScenarioService.Delete | api/brobot/services/scenarios.py:79-101 | False and no change for an unknown id; an integrity error and no change when a training session still refers to the scenario or a completion to one of its chapters (the flush nulls their NOT NULL foreign keys, api/brobot/models.py:48, 95, 116, 125); otherwise the scenario and every chapter with its id are removed, nothing else changes, and stored references stay resolved |
| Scenarios.ScenarioService.DeleteChaptersOf | api/brobot/services/scenarios.py:93-97 | the loop deletes exactly the scenario's chapters |
| Scenarios.ScenarioService.InsertChapters | api/brobot/services/scenarios.py:120-127 | the requested chapters are appended, in order, linked to the scenario, with consecutive fresh ids |
| Scenarios.ScenarioService.Create | api/brobot/services/scenarios.py:103-130 | an integrity error and no change exactly when the slug is taken; otherwise one scenario row and one chapter row per requested chapter are appended |
| ImportRequests.ValidateSlug | api/brobot/dto/create/import_scenario.py:6-9 | accepted exactly when the stripped text is one or more ASCII letters or hyphens; the stored value is the stripped text |
| ImportRequests.ParseImportRequest | api/brobot/dto/create/import_scenario.py:5-10 | the request is rejected exactly when the slug is, and an accepted request carries a valid slug and the URL |
| ImportRequests.PaddedSlugIsAccepted | api/brobot/dto/create/import_scenario.py:8 | a valid slug with whitespace on either side is accepted as the bare slug |
| ImportRequests.ValidateSlugIdempotent | api/brobot/dto/create/import_scenario.py:6-9 | an accepted slug is accepted again unchanged |
| ImportRequests.ForeignCharacterRejects | api/brobot/dto/create/import_scenario.py:8 | a character outside [A-Za-z-] between two non-whitespace characters rejects the slug: digits, underscores, dots, inner spaces |
| ImportRequests.BlankSlugRejected | api/brobot/dto/create/import_scenario.py:8 | a slug of only whitespace is rejected |
| ImportRequests.AcceptedExample | api/brobot/dto/create/import_scenario.py:8 | " sql-db\n" is accepted as "sql-db" |
| ImportRequests.RejectedExamples | api/brobot/dto/create/import_scenario.py:8 | "sql_1" and "sql db" are rejected |
| ClientMessages.SortMessagesByDate | app/utils/messages.ts:3-10 | a copy, non-decreasing by creation time, that is a permutation of the input |
| ClientMessages.SortMessagesStable | app/utils/messages.ts:6-9 | messages with the same timestamp keep their relative order |
| ClientMessages.FindIndex | app/utils/messages.ts:19 | -1 exactly when no message has the id; otherwise the first index holding it |
| ClientMessages.Upsert | app/utils/messages.ts:19-25 | the first message with the id is replaced and the rest kept in place; with no such message, the new one is appended |
| ClientMessages.ReplaceAt | app/utils/messages.ts:23 | same length, the new message at the index, every other position unchanged |
| ClientMessages.Append | app/utils/messages.ts:25 | one longer, the new message last, every earlier position unchanged |
| ClientMessages.UpsertAndSort | app/utils/messages.ts:15-28 | a sorted permutation of the upserted list |
| ClientMessages.UpsertLength | app/utils/messages.ts:19-25 | a known id keeps the length; an unknown id adds exactly one message |
| ClientMessages.NewMessageIsMerged | app/utils/messages.ts:20-27 | the new message is in the merged list, whether it replaced a message or was appended |
| ClientMessages.UpsertKeepsMessages | app/utils/messages.ts:20-27 | every input message other than the replaced one is in the result |
| ClientMessages.OnlyNewMessageHasItsId | app/utils/messages.ts:19-25 | with distinct ids, the new message is the only one of the merged list carrying its id |
| ClientMessages.UpsertAndSortIdempotent | app/utils/messages.ts:15-28 | with distinct ids, merging the same message twice gives the result of merging it once |
| WebSocketClient.ReconnectDelay | app/hooks/use-websocket.ts:76 | the delay is the cap 30000 or 1000 times 2 to the attempts, never above the cap |
| WebSocketClient.Pow2Monotone | app/hooks/use-websocket.ts:76 | powers of two grow with the exponent |
| WebSocketClient.DelayBounds | app/hooks/use-websocket.ts:76 | the delay lies between 1000 and 30000 |
| WebSocketClient.DelayMonotone | app/hooks/use-websocket.ts:76 | more attempts never shorten the delay |
| WebSocketClient.DelayCappedFromFive | app/hooks/use-websocket.ts:76 | from five attempts on the delay is 30000 |
| WebSocketClient.DelayDoublesBelowFive | app/hooks/use-websocket.ts:76 | below that the delay doubles with each attempt |
| WebSocketClient.ResilientSocket.constructor | app/hooks/use-websocket.ts:87-88 | mounting opens a connecting socket with an empty queue and no attempts |
| WebSocketClient.ResilientSocket.Connect | app/hooks/use-websocket.ts:49-52 | a new connecting socket replaces the reference |
| WebSocketClient.ResilientSocket.Send | app/hooks/use-websocket.ts:98-105 | on an open socket the message is sent and the queue unchanged; otherwise it is appended to the queue, which has no bound |
| WebSocketClient.ResilientSocket.OnOpen | app/hooks/use-websocket.ts:54-66 | state open, attempts reset, heartbeat set, the queued messages sent in FIFO order and the queue emptied |
| WebSocketClient.ResilientSocket.StartClosing | app/hooks/use-websocket.ts:98-104 | the live socket leaves OPEN before `onclose` runs, so a `send` in between queues the message for the next open |
| WebSocketClient.ResilientSocket.Cleanup | app/hooks/use-websocket.ts:35-46 | heartbeat cleared and socket reference nulled |
| WebSocketClient.ResilientSocket.OnClose | app/hooks/use-websocket.ts:72-79 | state closed and cleaned up; the reconnect delay is computed from the attempts so far, which then grow by one; the queue is kept |

## Left out

- ConnectionRegistry.ConnectionManager.HandleSession: the connect and message hooks are recorded, not run; sends they make through the same manager are not modelled, which is the only reason the queues are stated unchanged.
- ConnectionRegistry.ConnectionManager.Connect: a failing `websocket.accept()` (brobot/ws/manager.py:42) is not modelled; the socket is assumed accepted.
- Sessions.SessionService.GenerateAnswer: models the corrected chapter-completed call, as does Sessions.SessionService.RecordTurn; the call as written (api/brobot/services/session.py:323-329) fails after the writes, which the Findings row states with `Sessions.TurnNotificationsAsWritten` and `Sessions.AsWrittenLosesReply`.
- Heartbeats and timers: `_heartbeat` (brobot/ws/manager.py:94-103), the client's heartbeat interval and the reconnect `setTimeout`; only the computed delay is modelled.
- Concurrency: `asyncio.create_task` runs nothing here (dispatched frames and scheduled turns are lists), the unused lock is dropped, and interleavings of tasks are not modelled.
- The language model and its tools are an oracle (`Sessions.Generate`) that may return any reply and flag.
- The ORM and the database engine: a commit is atomic and only constraint violations fail it; relationship lists are the child rows in table order.
- Foreign keys are declared but not enforced by the store, so dangling references are allowed and the projections that follow one fail with an attribute error.
- Scenarios.ScenarioService.Delete: the ORM's flush is not modelled step by step; its effect, nulling the NOT NULL foreign keys of the sessions and completions still referring to the deleted rows and so failing the commit, is modelled as one integrity error with the transaction rolled back.
- Store.Tables: ids come from counters that never go back; an engine that reuses the largest id after it is deleted is not modelled.
- The chapter `meta` JSON column, string lengths of the columns, and the user's password handling; user rows are never created by the modelled services, so the user column defaults (api/brobot/models.py:24-29) are not modelled.
- Timestamps are integers passed in as `now` and `localNow`; time zones and their conversion are not modelled; the client's parsing of `created_at` into dates (and invalid dates) is not modelled.
- The fetch, JSON decoding and scenario creation from the fetched file in `import_github` (api/brobot/services/scenarios.py:163-207), and the parsing of the URL into host and path (`Scenarios.Url` takes them parsed).
- Error texts are `Failure` constructors; log lines are dropped.
- Messages sent as text (`model_dump_json`) are logged as the DTO, not its JSON text; only the events' JSON text is modelled (`Events.Encode`).
- The bot adapter's swallowing of `TypeError` when a send is not awaitable, and its connection manager's own send effects (its sends are logged as `Outbound` calls).
- WebSocketClient.ResilientSocket.OnOpen: requires a current socket; handlers of a socket that was already replaced or cleaned up are not modelled, nor are `onerror` and `onmessage`.
- React rendering, the routes, the CLI, the configuration and the superseded copies of the services.

## Findings

| source | as written | input that shows it | evidently intended | confidence | as-written member | corrected member |
|---|---|---|---|---|---|---|
| api/brobot/services/session.py:323-329 | the chapter-completed `send_json` passes the event dict as the session id and no payload, so it raises a missing-argument TypeError after the reply and the completion are stored | any turn whose tool sets the completion flag while a connection manager is given | `send_json(session_id, {...})`, followed by the reply and typing-stop | high, not executed | Sessions.AsWrittenLosesReply | Sessions.TurnNotifications |
| api/brobot/services/scenarios.py:112-115 | the scenario row is built without its slug, a NOT NULL column, so the first commit of `create` fails on every input | any `CreateScenarioDTO`, e.g. the one with slug "test-scenario" in api/tests/services/test_scenario_service.py | the row carries `slug=scenario.slug`, failing only on a taken slug | high, not executed | Scenarios.CreateAsWrittenAlwaysFails | Scenarios.ScenarioService.Create |
