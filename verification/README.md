# Verified model of the A2A gateway

A Dafny 4.11 model of the stateful parts of an MCP gateway to A2A agents, with proofs of what they guarantee.
`dafny verify dfyconfig.toml` checks the whole project.

The gateway keeps, per agent alias, an entry in a registry, a conversation context, a rate limiter, a health state and a
history; it caches one client per agent URL; it collects the answers of background sends in an inbox; and a directory
serves agent cards page by page. Each of these is modelled in the form the Go code has: objects whose methods update their
fields are classes, the inbox is a Go slice over a backing array, loops are loops with invariants, and pure code is
functions. Methods are proved against functions or relations, and the main results are lemmas about whole runs of those.

What lies outside is a parameter: the clock, the ticks of a poll, the answers and event streams of an agent, the outcome of
creating a client, of validating input and of asking a rate limiter, and the order in which threads and goroutines run.
Every method that holds a lock throughout is one atomic step; the client cache, which holds two locks one after the other,
is two.

## Layout

| file | models |
|---|---|
| `Inbox.dfy`, `InboxRuns.dfy` | the inbox as a slice with in-place pruning and a two-pointer merge; its guarantees over one pop and over every run |
| `Streaming.dfy`, `Polling.dfy` | event streams, polling with a deadline, reading a reply |
| `Background.dfy`, `AsyncBroadcast.dfy` | background sends and broadcasts, which leave their answers in the inbox |
| `Broadcast.dfy`, `BroadcastRuns.dfy` | one goroutine of a broadcast; all goroutines in every interleaving, over one client cache |
| `Cards.dfy` | cards fetched over the network while other connections are made |
| `ClientCache.dfy` | the double-checked client cache and evict-and-retry, for any number of threads |
| `Health.dfy`, `History.dfy`, `Stores.dfy` | the per-alias stores |
| `Gateway.dfy`, `Lifecycle.dfy` | the tools that change the stores, and what the stores keep in common |
| `Base64.dfy`, `Decimal.dfy`, `Cursor.dfy`, `Directory.dfy` | section 4 of RFC 4648, decimal numerals, cursors, pagination and the default filter |
| `A2A.dfy`, `Content.dfy`, `Prelude.dfy`, `Sequences.dfy` | protocol values, message parts, shared types and sequence lemmas |

## Where the code differs from what it says

The model follows the code. These differences are proved, not only noted.

- Pop's merge is said to keep the original order of ties (registry/inbox.go:138). It puts the other aliases first.
  `InboxRuns.PopDeletesInPlaceIff` says exactly when the order survives in any store, `InboxRuns.PopDeletesInPlaceIffNoTies` in
  one in time order, and `InboxRuns.TieOvertakes` gives a store where it does not.
- The streamed send tests for an error that is never set (`Gateway.SendViaStreaming`), so a failed stream counts as a success for
  the agent's health and an authentication failure is not retried; a broadcast over the same stream marks the same exactly if the
  stream ended well, and leaves the client cache alone exactly if it did not fail to authenticate
  (`Broadcast.StreamedSendIgnoresFailures`).
- The last case of the inner switch over a polled task (internal/tool/tool_send.go:445) is dead (`Polling.HandleTaskResult`).
- Polling stops in the states that end a stream except rejected (`Polling.RejectedEndsStreamsOnly`), so a rejected task is polled
  to the deadline (`Polling.RejectedIsPolledToTheDeadline`).
- Disconnecting resets an agent's health instead of deleting it, so what was under way still counts for an agent that is gone:
  an answer leaves its context and (healthy, 0), a failed exchange leaves one failure and no context
  (`Lifecycle.LateDirectReply`, `Lifecycle.LateStream`, `Lifecycle.LatePing`). `Lifecycle.StoresAgreeIffRepliesAreTimely` says
  exactly which runs are free of this.
- The server's default rate limit is promised for every agent connected without its own (gateway/server.go:127-131) but never
  reaches the connect tool (`Gateway.ConnectAgentTool.constructor`, `Lifecycle.DefaultRateLimitIsDropped`).
- Nothing keeps two goroutines of a broadcast from reaching one URL, by an alias named twice or by two aliases. The result is
  independent of the schedule exactly when no two do (`BroadcastRuns.ScheduleIndependentIffApart`, with schedules that differ in
  `BroadcastRuns.RepeatedAliasRaces` and `BroadcastRuns.SharedUrlRaces`). The report of a background broadcast is reliable
  exactly for lists that name no alias twice (`AsyncBroadcast.ReportedRightIffDistinct`, `AsyncBroadcast.RepeatedAliasIsMisreported`).
- Connecting stores the card it fetched without looking whether the alias was moved meanwhile. `Cards.CardsBelongIffInTime` says
  exactly when each stored card came from its agent's URL, `Cards.LateCardIsMisfiled` gives a run in which one does not.
- History is deleted with its agent, but records are made for agents that are not registered any more or never were;
  `Lifecycle.HistoriesOwnedIffRecordsAre` says exactly when each history has an owner.
- A background broadcast leaves an entry with neither state nor error exactly for a registered agent that is skipped as unhealthy
  (`AsyncBroadcast.BlankEntryIffUnhealthy`).
- A direct send is recorded in the history without the error flag even if it failed; the record is right exactly for a message
  and for a task decided as completed or asking for something (`Gateway.DirectRecordIsRightIff`).
- A broadcast's streaming error is turned into text before it is classified, so that even a cancellation counts as a failure
  there, but not on the direct path (`Broadcast.CancellationCountsOnStreamsOnly`).
- An alias without a health entry counts as healthy, although the comment says otherwise (health/health_tracker.go:126-131):
  `Health.HealthTracker.IsHealthy` is true of every alias but those with an unhealthy entry, and
  `Health.UnhealthyIffFailuresReachThreshold` says which call histories lead there.

## Model

| member | source | states |
|---|---|---|
| Inbox.Append | registry/inbox.go:61 | the built-in append: the elements grow by one, in the same backing array or in a new one |
| Inbox.MemoryInbox.constructor | registry/inbox.go:45-50 | the inbox starts empty |
| Inbox.Compact | registry/inbox.go:164-171 | the loop that moves the kept entries to the front of the array it is reading ends with exactly the filter of that window |
| Inbox.MemoryInbox.Deposit | registry/inbox.go:54-62 | the entry joins the end, stamped with the clock if it had no time; the store stays in its array or moves to a new one |
| Inbox.MemoryInbox.PruneExpired | registry/inbox.go:159-172 | the store is compacted in its own array to the entries not older than the TTL, and unchanged without a TTL |
| Inbox.MemoryInbox.Peek | registry/inbox.go:66-79 | shows the unexpired entries of the alias, in a slice that shares no array with the store |
| Inbox.MemoryInbox.Partition | registry/inbox.go:94-103 | splits the store by alias into two slices with arrays of their own |
| Inbox.MergeByTime | registry/inbox.go:127-146 | the two-pointer loop computes the merge in a fresh array |
| Inbox.MemoryInbox.Pop | registry/inbox.go:88-155 | result, remaining store and failure are those of PopFrom on the pruned store; the result shares no array with the store |
| InboxRuns.PopHandsOut | registry/inbox.go:111-154 | of the alias's own entries in order a pop hands out the last alone, the first n, or all; only latest drops any, and it fails if and only if there are entries and the length is negative |
| InboxRuns.PopDelivers | registry/inbox.go:88-155 | in every run a pop hands out just these of what its alias has within the TTL, and adds them to what was delivered |
| InboxRuns.PeekShows | registry/inbox.go:72-78 | a peek shows everything for the empty alias, else exactly the entries of the alias, in order |
| InboxRuns.StampingKeepsTheEntry | registry/inbox.go:58-60 | a deposit changes nothing about an entry but a missing time |
| InboxRuns.PopLeaves | registry/inbox.go:94-152 | a pop takes a prefix of its own alias's entries and leaves every other alias's entries as they were |
| InboxRuns.PopConserves | registry/inbox.go:94-152 | a pop neither loses nor copies an entry |
| InboxRuns.PopSorted | registry/inbox.go:126-146 | a pop keeps a store in time order |
| InboxRuns.PopDeletesInPlaceIff | registry/inbox.go:117-146 | on any store, popping n entries equals deleting those positions if and only if each entry that stays is not later than the next one of the other side, and earlier than it if it is the alias's own |
| InboxRuns.PopDeletesInPlaceIffNoTies | registry/inbox.go:117-146 | on a store in time order this is so if and only if no entry of the alias that stays is tied with one of another alias behind it |
| InboxRuns.PopDeletesInPlaceWithDistinctTimes | registry/inbox.go:117-146 | on a store in time order with pairwise distinct timestamps it always does |
| InboxRuns.TieOvertakes | registry/inbox.go:138-145 | a store of two tied entries whose order a pop of nothing reverses |
| InboxRuns.PruneConserves | registry/inbox.go:159-172 | pruning splits the store into entries within the TTL and entries beyond it |
| InboxRuns.PruneRemovesPrefix | registry/inbox.go:163-171 | from a store in time order pruning removes a prefix |
| InboxRuns.ReturnedEntriesAreFresh | registry/inbox.go:66-155 | neither a pop nor a peek returns an entry older than the TTL |
| InboxRuns.PeekForetellsPop | registry/inbox.go:64-79 | a peek disturbs nothing: popping everything for the alias at that time returns what the peek showed |
| InboxRuns.Perform | registry/inbox.go:54-155 | one call on the object is one step of the ledger, and returns the answer of that step |
| InboxRuns.PerformAll | registry/inbox.go:54-172 | from any reachable state, over any run: the object follows the ledger, every slice returned still reads at the end as it did at first, and the answers of the pops make up what the ledger counts as delivered |
| InboxRuns.Conservation | registry/inbox.go:54-172 | in every run the deposited entries are, with multiplicity, those delivered, dropped by latest, expired and pending |
| InboxRuns.NoSecondDelivery | registry/inbox.go:81-87 | an entry deposited once is delivered at most once and is then nowhere else |
| InboxRuns.FifoPerAlias | registry/inbox.go:81-155 | in every run, what an alias's pops returned followed by what is pending is a subsequence of its deposits in order, for all clocks and timestamps |
| InboxRuns.ClockFedStoreIsSorted | registry/inbox.go:52-62 | with timestamps left to a clock that never goes back, the store is always in time order and holds nothing from the future |
| InboxRuns.ClockFedPruningRemovesPrefix | registry/inbox.go:157-172 | in such a run every pruning removes exactly a prefix |
| Streaming.StopIndex | internal/tool/helpers.go:302-306 | the first item that ends a stream |
| Streaming.FirstNonEmpty | internal/tool/helpers.go:332-337 | the first non-empty identifier |
| Streaming.Absorb | internal/tool/helpers.go:321-366 | one event adds its own artifacts, status and progress, and an identifier only where none is known |
| Streaming.ConsumeStream | internal/tool/helpers.go:307-371 | for every stream and starting state: the ending, and all accumulated fields as the contributions of the items up to the first stopping one, in order |
| Streaming.OutcomeDependsOnPrefix | internal/tool/helpers.go:302-306 | nothing behind the first stopping item changes the ending or the synthetic task |
| Streaming.SucceedsIffTerminalComesFirst | internal/tool/helpers.go:295-306 | a stream succeeds if and only if a task, message or stopping status comes before any error |
| Streaming.EndingOfDecided | internal/tool/helpers.go:307-351 | how a stream ends, read off the first error or answer: which result, or which of the four errors |
| Streaming.EndingOfUndecided | internal/tool/helpers.go:369-370 | a stream with neither error nor answer has no end |
| Streaming.ArtifactsAreThoseReceived | internal/tool/helpers.go:354-362 | the accumulated artifacts are those of the artifact events, in order |
| Streaming.ProgressIsReported | internal/tool/helpers.go:344-352 | one report with state and text for each status that does not end the stream |
| Streaming.StreamAnswer | internal/tool/helpers.go:230-263 | the answer is the very task or message that decides the stream, or a task of its status with the artifacts and first identifiers; the context remembered is the result's own, else the first one named |
| Streaming.BuildTaskFromState | internal/tool/helpers.go:156-166 | the synthetic task carries the accumulated identifiers, artifacts and last status |
| Streaming.FreshDigest | internal/tool/helpers.go:248-252 | for a stream ended by a status this is the task of the declarative specification |
| Streaming.HandleStreamingMessage | internal/tool/helpers.go:171-264 | the Go error is always nil; output, reported failure and remembered context as functions of the stream |
| Polling.PollTaskCompletion | internal/tool/tool_send.go:463-496 | outcome and number of requests, given the wakes of the loop |
| Polling.PollOutcomeMeaning | internal/tool/tool_send.go:458-496 | success if and only if the last answer is in a stop state, every earlier one being in none; otherwise the last successful answer is returned, none if and only if there was none |
| Polling.PollIsDecidedAt | internal/tool/tool_send.go:473-495 | outcome and number of requests read off the first wake that does not leave the task running |
| Polling.NoDeadlineNoTimeout | internal/tool/tool_send.go:464-480 | without a positive timeout a poll never times out |
| Polling.PollBudget | internal/tool/tool_send.go:356 | with timeout T the agent is asked at most floor(T / 2s) times and the loop ends one wake later at the latest |
| Polling.HandleTaskResult | internal/tool/tool_send.go:360-456 | the nested case analysis amounts to judging one deciding task; its context is remembered, and the inner default is dead |
| Polling.ReplyIsReadAs | internal/tool/tool_send.go:360-456 | which task a reply is read as, the reply or the polled one; output, error, the agent's words and the context remembered all are of that very task |
| Polling.RejectedEndsStreamsOnly | internal/tool/tool_send.go:489-493 | polling stops in exactly the states that end a stream, except rejected |
| Polling.RejectedIsPolledToTheDeadline | internal/tool/tool_send.go:489-493 | an agent that answers rejected is polled as long as there is time |
| Background.BackgroundSendAndPoll | internal/tool/tool_send.go:530-572 | at most one deposit, with the entry for the reply and the poll; only the inbox is written |
| Background.EntryTellsReply | internal/tool/tool_send.go:530-593 | which task or message an entry holds for each reply and each end of polling, with its identifiers, state and error |
| Background.EverySendIsAnswered | internal/tool/tool_send.go:526-572 | a background send leaves no entry if and only if the reply is not recognised or a task that goes on is still polled, which a timeout ends; every entry is filed under the alias |
| Background.CleanEntriesAreResults | internal/tool/tool_send.go:574-593 | an entry without an error is a message or a task in a stopping state, with that task's identifiers |
| ClientCache.ClientResolver.LookupShared | registry/client_resolver.go:37-42 | under the read lock a hit is returned and nothing changes |
| ClientCache.ClientResolver.LoadExclusive | registry/client_resolver.go:44-65 | under the write lock the cached client is returned if there is one by now, else a new one is stored |
| ClientCache.ClientResolver.Resolve | registry/client_resolver.go:36-66 | undisturbed, the two sections return the cached client, or store and return a new object |
| ClientCache.ClientResolver.Evict | registry/client_resolver.go:70-74 | the URL is no longer cached and every other one is |
| ClientCache.ResolveClientWithAuthRetry | internal/tool/auth_retry.go:26-51 | undisturbed: at most two runs, the second only after an authentication error and on a client allocated since |
| ClientCache.ReachableCache | registry/client_resolver.go:36-74 | in every interleaving: cached means created and not evicted since, and what was returned was current |
| ClientCache.ResolutionsAgree | registry/client_resolver.go:36-74 | in every interleaving, two resolutions of one URL with no eviction of it between them return the same client |
| ClientCache.OneClientPerEpoch | registry/client_resolver.go:47-65 | in every interleaving, an eviction lies between any two creations for one URL |
| ClientCache.RetryUsesNewClient | internal/tool/auth_retry.go:18-51 | in every interleaving, a caller runs fn at most twice, evicts at most once and only after an authentication error, never stops after one without evicting, and its second client was created after its own eviction |
| Base64.RoundTrip | internal/tool/helpers.go:403-404 | decoding undoes encoding for every byte string |
| Base64.LineBreaksAreSkipped | internal/tool/tool_send.go:343-346 | line breaks in encoded text make no difference |
| Base64.Vectors | internal/tool/helpers.go:403-404 | the test vectors of section 10 of RFC 4648 |
| Base64.EncodeInjective | internal/tool/helpers.go:403-404 | different byte strings have different encodings |
| Base64.EncodeUndoesDecodeIffCanonical | internal/tool/tool_send.go:343-346 | an accepted text is the encoding of what it decodes to if and only if it has no line breaks and its leftover bits are zero |
| Decimal.AtoiPrintInt | directory/handler.go:124 | reading a printed 64-bit integer gives it back |
| Decimal.PrintedNumbers | directory/handler.go:16 | numerals are printed most significant digit first, with a minus sign in front |
| Cursor.CursorRoundTrip | directory/handler.go:14-35 | a 64-bit offset comes back from its cursor if and only if it is not negative, else the cursor is refused |
| Cursor.ForeignCursorIsRead | directory/handler.go:29-33 | a cursor no server made is read alike, with blanks before the number, a plus sign, and text behind it |
| Cursor.FirstCursors | directory/handler.go:14-24 | the cursor of the first page, letter by letter, and that a missing one means the same |
| Cursor.CursorsInjective | directory/handler.go:14-17 | distinct offsets have distinct cursors |
| Directory.ServeHTTP | directory/handler.go:111-174 | the step-by-step handler answers with the page between the cursor and the limit, or the first applicable error |
| Directory.QueryGoesToFilterOrResolver | directory/handler.go:132-145 | a query goes to the registry's own filter or else to the resolver; without one the listing is the answer |
| Directory.RequestIsAnswered | directory/handler.go:113-163 | which error a request gets, in order; a request without a limit is answered with everything from its offset on |
| Directory.PageAdvances | directory/handler.go:152-163 | the page is the part from offset to limit; the next token is missing if and only if the listing is exhausted, and otherwise leads strictly forward, inside the listing |
| Directory.PagesReassembleListing | directory/handler.go:132-163 | following tokens with any positive limits concatenates to the listing |
| Directory.RequestCount | directory/handler.go:158-163 | with one limit this takes max(1, ceil(size / limit)) requests |
| Directory.MatchesCard | directory/resolver.go:85-100 | true if and only if name, description or some skill tag contains the text |
| Directory.CardIsFoundByItsTexts | directory/resolver.go:85-100 | a card is found exactly by what its name, its description or a tag contains, so by each of them |
| Directory.ContainsIsInfix | directory/resolver.go:85-100 | a text contains what stands somewhere in it and nothing else |
| Directory.Resolve | directory/resolver.go:69-81 | exactly the matching cards, in listing order |
| Content.ConvertInputParts | internal/tool/tool_send.go:313-354 | either every part is converted index by index, or the error describes a bad part behind good ones only |
| Content.ConversionIsDetermined | internal/tool/tool_send.go:311-354 | conversion succeeds if and only if the list is non-empty and every part has one field and decodes; the result, or the least bad index, is unique |
| Content.BadPartIsNamed | internal/tool/tool_send.go:329-347 | the error names the first bad part and what is wrong with it |
| Content.RenderingShowsInput | internal/tool/helpers.go:388-408 | a part made of input has the kind of the field that was set, and its rendering is that field, or an encoding of the same bytes |
| Content.ShownIffSendable | internal/tool/helpers.go:388-408 | a part is shown if and only if a caller could have sent it |
| Content.RawPartRoundTrip | internal/tool/helpers.go:403-404 | converting the rendering of any bytes gives those bytes |
| Content.ExtractPartsText | internal/tool/tool_send.go:500-508 | the renderings in order, with parts that have none skipped |
| Content.PartsTextConcat | internal/tool/tool_send.go:500-508 | the text of a message is put together part by part, in order |
| Content.PartsTextOfOne | internal/tool/tool_send.go:500-508 | one part adds its rendering, or nothing if it has none |
| Health.HealthTracker.RecordSuccess | health/health_tracker.go:39-54 | only the alias's own entry changes, as AfterCall says |
| Health.HealthTracker.RecordFailure | health/health_tracker.go:59-76 | only the alias's own entry changes, as AfterCall says |
| Health.HealthTracker.Reset | health/health_tracker.go:94-106 | the alias gets an entry (unknown, 0) unless tracking is off |
| Health.HealthTracker.Delete | health/health_tracker.go:110-119 | the alias loses its entry unless tracking is off |
| Health.HealthTracker.IsHealthy | health/health_tracker.go:128-131 | false exactly of an alias with an unhealthy entry, so true of one without an entry |
| Health.TrackerRefinesHistory | health/health_tracker.go:39-119 | for every call history: tracked, failure count and status as read off the alias's own calls |
| Health.UnhealthyIffFailuresReachThreshold | health/health_tracker.go:59-90 | for every call history: unhealthy if and only if tracked and at least threshold failures end the history; untracked aliases show (unknown, 0) |
| Health.DisabledTrackerIsEmpty | health/health_tracker.go:28-35 | with threshold 0 nothing is ever held |
| Health.AliasesDoNotInterfere | health/health_tracker.go:78-90 | histories that agree on an alias show the same state for it |
| History.MemoryBackend.Append | history/history_memory.go:29-40 | the alias's list loses at most its oldest entry and gains the new one; other aliases keep theirs |
| History.FileBackend.Append | history/history_file.go:100-117 | if the file can be read and written, the alias's list makes room for one and gains it, and other files stay; if not, an error and nothing changed |
| History.MemoryKeepsLatest | history/history_memory.go:27-75 | for every run, exactly the last depth entries since the last deletion |
| History.FileKeepsLatest | history/history_file.go:99-153 | likewise from any initial files; an over-long file is trimmed at the first operation on it |
| History.BackendsAgree | history/history_memory.go:27-75 | from nothing, both backends list the same after the same operations |
| History.GetHistory | internal/tool/tool_history.go:33-53 | the errors, and the most recent entries up to the limit |
| History.ShownHistory | internal/tool/tool_history.go:47-50 | a call with limit L shows the last min(L, depth) entries since the last deletion |
| Stores.AgentRegistry.Connect | registry/agent_registry.go:35-47 | the alias's entry is replaced, without a card |
| Stores.AgentRegistry.Disconnect | registry/agent_registry.go:51-61 | returns the entry and removes it |
| Stores.AgentRegistry.SetCard | registry/agent_registry.go:88-98 | only a registered alias's card changes, and nothing else about it |
| Cards.Perform | registry/agent_registry.go:35-98 | the registry object takes the steps of the run model in which a card arrives later than its agent is registered |
| Cards.ConnectIsRegisterThenCard | internal/tool/tool_connect.go:58-66 | with nothing between registering and the arrival of the card this is the whole connect |
| Cards.CardsBelongIffInTime | internal/tool/tool_connect.go:58-66 | at every moment of a run each stored card came from the URL of its agent if and only if no card arrives for an alias that was moved while it was fetched |
| Cards.LateCardIsMisfiled | internal/tool/tool_connect.go:58-66 | a run in which the card of one URL ends up with an agent at another |
| Stores.ContextStore.Set | registry/context_store.go:28-37 | an empty context changes nothing, any other is stored |
| Stores.RemembersOneAlias | internal/tool/tool_send.go:363-365 | only a context that is not empty, for an agent addressed by alias, is remembered, with its URL; nothing else changes |
| Stores.ContextStore.Delete | registry/context_store.go:40-45 | the alias has no context any more |
| Stores.RateLimiterRegistry.Set | registry/rate_limiter.go:38-48 | a disabled limit removes the limiter, any other replaces it |
| Gateway.ConnectAgentTool.constructor | internal/tool/tool_connect.go:22-31 | the tool's default rate limit is zero whatever the environment's |
| Gateway.ConnectAgentTool.Handle | internal/tool/tool_connect.go:40-115 | the stores after connecting, and the eviction of the former URL |
| Gateway.ConnectChanges | internal/tool/tool_connect.go:45-69 | what is held about the alias afterwards: agent, context, limit, health and history; every other alias stays |
| Gateway.DisconnectAgent | internal/tool/tool_disconnect.go:40-64 | succeeds if and only if the alias is registered; then the stores afterwards, and the eviction of its URL |
| Gateway.DisconnectForgets | internal/tool/tool_disconnect.go:45-58 | nothing is held about the alias afterwards, and everything about every other |
| Gateway.PingAgent | internal/tool/tool_ping.go:41-101 | the health after a ping, and the reachability, health and response time reported |
| Gateway.PingCounts | internal/tool/tool_ping.go:84-101 | an agent that was reached is (healthy, 0), a cancelled ping changes nothing, any other error is one more failure |
| Gateway.ClearHistory | internal/tool/tool_history.go:77-91 | only a registered agent's history is cleared |
| Gateway.SendViaStreaming | internal/tool/tool_send.go:157-178 | never evicts or retries; remembers the stream's context, counts as a success and leaves one record |
| Gateway.StreamIsRecorded | internal/tool/tool_send.go:173-177 | the latest record is an error if and only if the stream failed, and else names the context and task of its answer |
| Gateway.SendDirect | internal/tool/tool_send.go:182-222 | which answer decides, and the stores, the client cache, the output and the error that follow from it |
| Gateway.DirectReplyIsReadAs | internal/tool/tool_send.go:203-222 | output, error and context for each kind of the deciding reply |
| Gateway.RecordNamesOutput | internal/tool/tool_send.go:236-247 | a record names the context and the task of what the caller got |
| Gateway.DirectRecordIsRightIff | internal/tool/tool_send.go:236-237 | the error flag of a direct send's record agrees with its error if and only if the reply is a message, or a task decided as completed, input-required or auth-required; an input where it does not |
| Gateway.Exchange | internal/tool/tool_send.go:183-188 | the first answer stands unless it is an authentication error; only then the URL is evicted and resolved again |
| Gateway.SecondAnswerStandsAfterRetry | internal/tool/auth_retry.go:32-50 | the second answer stands if and only if the first client got an authentication error and a new one could be created |
| Gateway.RetryRenewsClient | internal/tool/auth_retry.go:42-48 | exactly then the client of that URL is replaced by a newer one, and no other |
| Gateway.AliasBeforeUrl | gateway/tools.go:98-117 | an identifier is a registered alias before it is a URL |
| Gateway.ContextPriority | internal/tool/tool_send.go:126-130 | the caller's own context goes before the stored one, which goes before none |
| Gateway.AdmittedIff | internal/tool/tool_send.go:105-124 | to whom a send goes out: named, resolvable, with a message, and let through by the limiter of an alias |
| Gateway.StreamsIffCardSaysSo | gateway/tools.go:119-128 | after connecting, messages are streamed if and only if the fetched card declares it; to a URL never |
| Gateway.BuildSendRequest | internal/tool/tool_send.go:105-153 | when a request can be built, the agent and context it goes out with, and the client resolved for it |
| Gateway.SendMessage | internal/tool/tool_send.go:84-100 | the transport follows the card; then the output, the error, the stores and the client cache, also for a request that cannot be built |
| Gateway.FailureIsReported | internal/tool/tool_send.go:95-99 | a failure is reported if and only if the stream had no answer or the direct exchange an error |
| Lifecycle.StoresAgree | internal/tool/tool_disconnect.go:45-54 | after every sequence of tool calls: contexts belong to registered agents and were obtained at their current URL, limiters belong to registered agents, unregistered aliases read (unknown, 0) |
| Lifecycle.StoresAgreeIffRepliesAreTimely | internal/tool/tool_send.go:84-130 | with sends, pings and broadcasts split into question and reply and any calls between: the stores agree at every moment of a run if and only if each reply that brings a context finds its agent registered where it was asked, and each that makes a mark finds it registered |
| Lifecycle.ExchangeIsTheCall | internal/tool/tool_ping.go:46-65 | question and reply with nothing between them are the whole send, ping or broadcast |
| Lifecycle.PerformTool | internal/tool/tool_connect.go:40-75 | connect, disconnect, ping and clear, run on the store objects, have the effect of the call in the run model and keep the stores consistent |
| Lifecycle.PerformSend | internal/tool/tool_send.go:84-100 | so does a send |
| Lifecycle.PerformBroadcast | internal/tool/tool_broadcast.go:148-204 | so does one goroutine of a broadcast |
| Lifecycle.LateRepliesKeepOrigins | internal/tool/tool_send.go:360-456 | what even late replies cannot break: limiters of registered agents only, registered and asked agents tracked, every context obtained where its alias was asked |
| Lifecycle.HistoriesOwnedIffRecordsAre | internal/tool/tool_disconnect.go:56-58 | at every moment of a run each history belongs to a registered agent if and only if each record is filed under one |
| Lifecycle.ConnectKeepsConsistency | internal/tool/tool_connect.go:45-69 | connecting keeps the stores consistent |
| Lifecycle.DisconnectKeepsConsistency | internal/tool/tool_disconnect.go:45-58 | disconnecting keeps the stores consistent |
| Lifecycle.ReplyKeepsContextsIff | internal/tool/tool_send.go:360-456 | what an exchange leaves keeps the contexts consistent if and only if its agent is still registered at the URL it was asked at, or it brings no context for an alias |
| Lifecycle.ReplyKeepsHealthIff | internal/tool/tool_send.go:225-233 | it keeps unregistered aliases at (unknown, 0) if and only if it makes no visible mark on one |
| Lifecycle.LateReplyLeaves | internal/tool/tool_disconnect.go:51-58 | whatever is under way when its agent is disconnected: which stores it leaves inconsistent, and the context, health and history it leaves for the alias |
| Lifecycle.LateDirectReply | internal/tool/tool_send.go:189-199 | for every late reply of a direct send: an answer leaves (healthy, 0) and its context, a failed exchange one failure and no context, and the stores agree if and only if it was cancelled |
| Lifecycle.LateStream | internal/tool/tool_send.go:173-177 | a late stream always leaves (healthy, 0), and its context if it ended well |
| Lifecycle.LatePing | internal/tool/tool_ping.go:62-65 | a late ping leaves the stores consistent if and only if it was cancelled |
| Lifecycle.ConversationContinues | internal/tool/tool_send.go:126-135 | the next message carries the context of the last reply, whatever uninterrupting calls come between |
| Lifecycle.DefaultRateLimitIsDropped | internal/tool/tool_connect.go:104-115 | connecting without a limit changes no limiter; with the server's default it would, unless that is disabled or already set |
| Broadcast.BroadcastDirect | internal/tool/tool_broadcast.go:254-289 | outcome, health mark and client cache after the direct exchange with its one retry |
| Broadcast.BroadcastViaStreaming | internal/tool/tool_broadcast.go:208-250 | the same for the streaming exchange |
| Broadcast.ResolveAndSend | internal/tool/tool_broadcast.go:175-203 | the client, the parts and the transport in their order |
| Broadcast.BroadcastToAgent | internal/tool/tool_broadcast.go:148-204 | one goroutine by itself: outcome, health, client cache and exactly one history record, on every path |
| Broadcast.NotAskedBecause | internal/tool/tool_broadcast.go:150-190 | why an agent is not asked, in order of precedence; the rest is its exchange |
| Broadcast.TaskIsTold | internal/tool/tool_broadcast.go:292-324 | a task answers, as that very task, if and only if it is completed or asks for input or authentication; otherwise the reason tells its state |
| Broadcast.DirectExchangeTells | internal/tool/tool_broadcast.go:254-289 | the outcome of a direct exchange tells of the reply that decides it |
| Broadcast.StreamTells | internal/tool/tool_broadcast.go:231-246 | the outcome of a stream tells of the item that decides it |
| Broadcast.StreamedExchangeTells | internal/tool/tool_broadcast.go:208-229 | which of the two streams decides, and the health mark |
| Broadcast.AuthFailureIsDecisive | internal/tool/tool_broadcast.go:213 | a stream is retried if and only if the item that decides it is an authentication error |
| Broadcast.ErrorIsRecordedIffNoAnswer | internal/tool/tool_broadcast.go:327-340 | the history records an error if and only if the caller sees no answer |
| Broadcast.CancellationCountsOnStreamsOnly | internal/tool/tool_broadcast.go:222-226 | on the direct path every error but a cancellation counts as a failure, on a stream every error does; an input for each side of the difference |
| Broadcast.StreamedSendIgnoresFailures | internal/tool/tool_send.go:157-178 | a streamed send leaves a tracked agent (healthy, 0) and the client cache as it was, which is what a broadcast over the same stream does if and only if it ended well, or did not fail to authenticate; an input that does |
| BroadcastRuns.TenTurns | internal/tool/tool_broadcast.go:148-289 | step by step a goroutine does what its attempt does as a whole |
| BroadcastRuns.AttemptOnStores | internal/tool/tool_broadcast.go:148-204 | that is what the method leaves in the stores and the client cache, and no other alias is touched |
| BroadcastRuns.BroadcastIsConfluent | internal/tool/tool_broadcast.go:112-132 | over one client cache, if no two goroutines reach the same URL, every complete schedule gives each alias the outcome, health, history and cached client of its own attempt, each unregistered one its records, and changes nothing else |
| BroadcastRuns.SchedulesAgree | internal/tool/tool_broadcast.go:112-132 | then any two complete schedules end in the same state |
| BroadcastRuns.BroadcastIsSequential | internal/tool/tool_broadcast.go:112-132 | then the health, histories and cached URLs are those of the same attempts made one after the other |
| BroadcastRuns.ResponseOfBroadcast | internal/tool/tool_broadcast.go:135-145 | the response holds exactly the aliases with an answer, with that answer |
| BroadcastRuns.ResponseShowsReplies | internal/tool/tool_broadcast.go:135-145 | over a complete schedule a directly asked agent is in the response if and only if its deciding reply is a message or such a task, and then as that very one |
| BroadcastRuns.ResponseShowsStreams | internal/tool/tool_broadcast.go:135-145 | the same of a streamed one by the item that decides its stream |
| BroadcastRuns.EveryGoroutineIsRecorded | internal/tool/tool_broadcast.go:327-340 | for any list, distinct or not, and any complete schedule: one record is made for each occurrence of an alias, and its history ends with the latest depth of what it held and these |
| BroadcastRuns.RepeatedAliasRaces | internal/tool/tool_broadcast.go:119-128 | for every list that names a registered alias twice there are two schedules of which either occurrence decides one |
| BroadcastRuns.SharedUrlRaces | internal/tool/tool_broadcast.go:175-182 | for any two goroutines that reach one URL with no cached client, by one alias or two, there are two schedules with different outcomes |
| BroadcastRuns.ScheduleIndependentIffApart | internal/tool/tool_broadcast.go:112-132 | all complete schedules of every broadcast to a list end alike if and only if no two goroutines reach the same URL |
| AsyncBroadcast.Start | internal/tool/tool_broadcast.go:366-407 | the report and the goroutines started |
| AsyncBroadcast.SpawnedIffAdmitted | internal/tool/tool_broadcast.go:371-395 | a goroutine is started for exactly the occurrences of registered aliases that are not limited |
| AsyncBroadcast.ReportNamesAliases | internal/tool/tool_broadcast.go:367-404 | the report has an answer for exactly the aliases named |
| AsyncBroadcast.ReportTells | internal/tool/tool_broadcast.go:371-403 | the answer tells of the last occurrence: unknown, limited or dispatched |
| AsyncBroadcast.BackgroundBroadcastToAgent | internal/tool/tool_broadcast.go:412-439 | exactly one deposit on every path, with the entry for the outcome, next to the mark, record and cached client of the same attempt in the foreground |
| AsyncBroadcast.EntryTellsOutcome | internal/tool/tool_broadcast.go:418-436 | an entry holds the answer with its identifiers and state, or the reason as its error |
| AsyncBroadcast.BlankEntryIffUnhealthy | internal/tool/tool_broadcast.go:418-436 | an entry has neither state nor error if and only if the agent is registered and skipped as unhealthy |
| AsyncBroadcast.OneDepositPerDispatch | internal/tool/tool_broadcast.go:395-438 | in whatever order the goroutines finish, one entry for each dispatched occurrence, under its alias, and none else |
| AsyncBroadcast.ReportMatchesDepositsIff | internal/tool/tool_broadcast.go:366-439 | an alias receives the entries its report promises if and only if none of its occurrences but the last was dispatched |
| AsyncBroadcast.ReportMatchesDeposits | internal/tool/tool_broadcast.go:366-439 | if no alias is named twice, exactly the aliases reported as dispatched receive an entry, one each |
| AsyncBroadcast.ReportedRightIffDistinct | internal/tool/tool_broadcast.go:369-404 | every request for a list is reported as it is served if and only if the list names no alias twice |
| AsyncBroadcast.DispatchedAnswersAreAccountedFor | internal/tool/tool_broadcast.go:395-438 | in every run of an inbox fed by a broadcast among other senders, an alias's entries delivered, dropped, expired and pending are those of the others and one for each dispatched occurrence |
| AsyncBroadcast.RepeatedAliasIsMisreported | internal/tool/tool_broadcast.go:369-404 | for every list that names an alias twice: reported as dispatched once while at least two entries follow, and reported as limited while one follows |

## Left out

- HTTP, JSON-RPC, event-stream and MCP transport, the client library and JSON schemas: their results are parameters.
- The choice between message and parts, validation of tool input and effective timeouts: thin.
- Token buckets: a rate limiter's answer is a parameter; only which alias has a limiter is kept.
- Error chains: an error is one of authentication, deadline, cancellation or other, and Go's error text is not modelled.
- The choice of transport and card when a client is created, and the headers a client sends: creation succeeds or fails.
- File system and JSON encoding of the file history: a file is the list it encodes, and only appending can fail. Timestamps, message summaries and truncation of history records are not modelled.
- Unicode: lower-casing is an arbitrary function, and only ASCII blanks are skipped before a scanned number.
- Nil and empty slices are not told apart, except for nil message parts.
- A history that is switched off: the stores always include one of depth at least 1.
- Polling.HandleTaskResult: speaks of polls that end; one without a deadline may go on for ever, as Polling.PollBudget and the Pending outcome say.
- Durations and times are integers without overflow; a 64-bit range is enforced where numbers are parsed.
- The sorted agent list, the caller card, agent discovery requests, get_task, cancel_task and option handling: easy or not stateful.
- Native query registries and the help request of the directory: delegated whole to code that is not part of this model.
- Pagination over a listing that changes between requests; the memory registry lists in no fixed order, so a stable listing is assumed.
- The response texts of broadcast results; only status, reason and payload are kept.
- BroadcastRuns.BroadcastIsConfluent: the registry does not change during the broadcast. Resolving a client is one step, since it takes effect in one of its two critical sections; ClientCache takes them apart.
- History.FileBackend.Append: a write that fails leaves the file as it was.
- Lifecycle.StoresAgree: tool calls are made one after another; runs in which sends, pings and broadcasts are under way are the subject of Lifecycle.StoresAgreeIffRepliesAreTimely. The steps within one connect or disconnect are not interleaved with other calls, except that Cards lets the card of a connect arrive late.
- Gateway.SendDirect: polling uses the client resolved before the send; both are represented by the answers they give.
