# Verified model of the chat service

A Dafny 4.11 model of the parts of this repository that hold state or run a protocol, with the properties the
service depends on proved for all inputs, runs and interleavings. `dafny verify dfyconfig.toml` checks everything.

Four systems are modelled, file by file and with the branches the code has.

**Conversation compaction.** `Summarization.dfy` is `_split`, `_newest_durable_id` and `compact`. `AgentGraph.dfy` and
`SubagentGraph.dfy` are the two graphs around them, `GraphLoop.dfy` what their loop is for. `Conversation.dfy` is
`Send` as a protocol: any number of sends on one conversation interleave one SQL statement at a time;
`SendHandler.dfy` is one send as the handler runs it, proved to be those statements; `WatermarkOrder.dfy` is about the
order of the stored watermarks and `SendContext.dfy` about what the model sees. A message carries the database rows it
stands for (`rows`) and those among them whose content a failed summarizer threw away (`lost`), so "covers exactly the
rows up to the watermark" is an equation. `SummaryCapture.dfy` follows a summary from the summarizer's stream to the
pair that is stored, and `RunCapture.dfy` puts a graph run beside the events it streams.

**The run-event pipeline.** `RunEvents.dfy` is the `Translator`, `Sse.dfy` the two printers and the two parsers,
`TraceRecorder.dfy` the API's accumulator, `LiveNodes.dfy` the browser's reducers, `RunTree.dfy` the tree builder over
the parent links of `Forest.dfy`, `RunReply.dfy` what interleaved subagents may do to the saved reply.
`TraceNodes.dfy` says what a trace holds, and `EndToEnd.dfy` joins the stages.

**Refresh-token rotation.** `RefreshTokens.dfy` has the handlers as methods over a token table and the same SQL
statements as events that interleave; `SessionLife.dfy` is about how long a token is good and its reuse noticed;
`Browser.dfy` composes that server with a browser (cookie jar, single-flight refresh, logins, logouts) and any number
of other clients.

**Admission control.** `RateLimit.dfy` is the per-key token bucket with idle eviction in exact integers: time in
nanoseconds, one token worth 60,000,000,000 units, a limit of n per minute refilling n units each nanosecond.
`RateEviction.dfy` says when the eviction can be noticed. `RunBudget.dfy` is the rolling 24-hour run budget.

Code that changes things step by step is a class or a method with loops, proved equal to a function on values; the
theorems are about those functions and about sequences of events. An event that does not fit the current state
changes nothing, so every theorem over event sequences holds for every interleaving.

## Where a promise needs a condition

- Only storing a captured summary moves the watermark, always to above what that send had loaded
  (`WatermarkOrder.StoreMovesAboveItsLoad`). However sends overlap, it never decreases over a run if and only if no
  store puts a captured row below the stored watermark, a comparison the UPDATE does not make
  (`WatermarkOrder.WatermarkNeverMovesBackIff`). Sends that do not overlap, and all whose load is still current when
  they store, meet this (`WatermarkOrder.WatermarkNeverMovesBack`), and so may others
  (`WatermarkOrder.HarmlessStaleStore`); some do not (`WatermarkOrder.OverlapMovesWatermarkBack`). Even then the
  stored summary covers exactly the rows up to the stored watermark, so nothing is lost.
- A compaction whose summarizer streams no text is announced but not captured, so the stored pair is the last
  reported one if and only if that summarizer streamed. This is proved of the recorder over a whole run's events
  (`RunCapture.RecordedIsLastReported`), with the text and row it holds (`SummaryCapture.LastCompactionIsKept`).
- Revoking a family is final if and only if no rotation of that family is in flight when the revoking statement
  runs (`RefreshTokens.TheftResponseIsFinal`). A rotation that was claimed before it inserts a live row afterwards.
- Reuse of a spent token is noticed if and only if its row is still on file: until its own logout, or the first purge
  after its own expiry (`SessionLife.ReplayIsNoticed`). The family may live on past that, as every rotation starts a
  new thirty days.
- A set of tabs sharing one jar never looks like a thief, in any run, if and only if it has at most one tab
  (`Browser.QuietExactlyForOneTab`): tabs share the cookie but not the refresh promise.
- Losing a response is harmless for every continuation if and only if that refresh had claimed nothing or the jar
  does not hold a token on file as revoked (`Browser.QuietAfterLossIff`); any tab can reach the harmful case
  (`Browser.LostResponseLooksLikeTheft`).
- Live view and reload agree, now and later, if and only if node ids are distinct
  (`LiveNodes.AgreementNeedsDistinctIds`). With distinct ids they agree if and only if no node was sent nothing but
  empty pieces of text (`LiveNodes.AgreesUnlessOnlyEmpty`); the translator sends no empty piece.
- The saved reply keeps arrival order, the live nodes keep announcement order. For a run without a stored trace they
  say the same, for every choice of non-empty pieces of text, if and only if no piece goes to an older node than the
  recorded piece before it (`LiveNodes.ReplyIsAllTextIffInOrder`). Two top-level calls that alternate break this
  (`LiveNodes.OverlapBreaksReplyOrder`).
- A wait is cut to whole nanoseconds, so "burst + rate × T" is exact if and only if a nanosecond's refill divides a
  token (`RateLimit.ExactWindowBoundIff`); all three limiters of the service satisfy this.
- The Retry-After header is cut to whole seconds: a client that returns after exactly that long, nobody else having
  been admitted, is admitted if and only if its wait was at most a second or a whole number of seconds
  (`RateLimit.RetryAfterAlone`; on the chat limiter the other case is reached, `RateLimit.RetryAfterTooEarly`). One
  more second is always enough.
- Idle eviction goes unnoticed, for any calls and sweeps, if and only if even the deepest debt is refilled by the
  first nanosecond in which its entry may be dropped (`RateEviction.UnnoticedIff`); all three limiters meet this
  (`RateEviction.ServiceSweepsAreUnnoticed`), and the chat limiter would not with an idle period of ten seconds
  (`RateEviction.ShortIdleIsNoticed`).
- The comment above `allow` calls the returned duration the wait until the next token; it is the wait until this
  call would be admitted, and exactly that (`RateLimit.WaitIsExact`).
- The run budget is checked before a run and marked after it, so a window can hold budget + k − 1 marks when k runs
  overlap, and some run reaches that number (`RunBudget.RollingBudgetIsReached`).
- `buildTree` keeps every node exactly once if and only if no node is its own ancestor, whatever the order of the
  list (`Forest.ForestHoldsEveryNodeOnce`); what it drops is exactly the nodes whose chain of parents runs into such
  a node (`Forest.ForestHoldsGroundedNodes`, `Forest.GroundedUnlessCyclic`). Logs the translator emits contain none.

## Assumptions

Message weights are arbitrary naturals, model and summarizer calls return anything or fail, and tool nodes answer
each call once, in order. Ids made inside a run are not all digits. Tool run ids are distinct and contain no colon.
One run's chunks always name the same enclosing runs, and a run inside a tool streams only while that tool is open
(needed by the two reply theorems alone). Refresh tokens and family ids are freshly drawn, one conversation's row
ids come from one increasing sequence, and an insert's id allocation and visibility are one step. Clocks of one
component do not run backwards, and the API and the database agree on the time of a usage mark.

## Model

| member | source | states |
|---|---|---|
| Decimal.RowIdRoundTrip | api/chat.go:365 | every row id, printed in decimal by the API, is an all-digits string that parses back to the same row |
| Decimal.ReadThenFormat | api/chat.go:422 | an all-digits text without leading zeros is the decimal form of the number it is read as |
| Messages.PairedByIndex | agent/src/graphs/agent.py:25-40 | the grouped form of a history is the same as: every tool result sits in the group of the call it answers, and every call is answered |
| Messages.WellPairedCut | agent/src/middleware/summarization.py:25-28 | cutting a paired history anywhere but before a tool result leaves two paired halves |
| Summarization.SplitIsOptimal | agent/src/middleware/summarization.py:17-28 | a position is the cut `_split` takes if and only if it is the greatest admissible position at or before the start of the longest suffix that fits the budget, or of the newest message alone |
| Summarization.Split | agent/src/middleware/summarization.py:17-28 | the two loops return head and tail that concatenate to the input, keep the newest message in the tail, and cut at that best position |
| Summarization.SplitKeepsPairing | agent/src/middleware/summarization.py:25-28 | both halves of a split keep calls and results together |
| Summarization.FindNewestDurableId | agent/src/middleware/summarization.py:31-36 | the reverse search returns the id of the last all-digits message, or none exactly when there is none |
| Summarization.NewestDurableFound | agent/src/middleware/summarization.py:31-36 | the specified id belongs to the last durable message, and is absent exactly when no message is durable |
| Summarization.CompactionPreserves | agent/src/middleware/summarization.py:50-65 | a compaction stands for the same rows in the same order, stays paired, keeps the newest message, loses nothing when the summarizer succeeds and at most the visible rows when it fails |
| Summarization.CompactionIsGated | agent/src/middleware/summarization.py:50-65 | for every list, size, threshold, budget and call: nothing happens below the threshold or where the best cut leaves no head; otherwise one human turn without an id stands for the messages before the best cut, the rest stay as they are, and the reported id is that of the last durable message folded |
| Watermark.UpToThenAbove | api/chat.go:344-374 | the rows at or below a watermark followed by the rows above it are all rows, in order |
| Watermark.UpToPrefix | agent/src/middleware/summarization.py:31-36 | in ascending ids, the rows through the last id of a prefix are exactly that prefix, and all later ids are above it |
| AgentGraph.HeadCoverage | agent/src/middleware/summarization.py:56-61 | a reported id parses, lies above the previous one, and the folded head stands for exactly the rows through it |
| AgentGraph.StepKeepsInv | agent/src/graphs/agent.py:17-40 | every graph step keeps row coverage, order, pairing and the growth of reported ids |
| AgentGraph.ModelCallsSeePairedHistory | agent/src/graphs/agent.py:32-40 | at every model call of every run, however often compaction fired, each tool result follows its own call's group and every call is answered |
| AgentGraph.ReportedIdsIncrease | agent/src/middleware/summarization.py:50-65 | the non-null ids reported by successive compactions of a run strictly increase and start above the loaded watermark |
| AgentGraph.CapturedIsLastReported | api/chat.go:414-428 | on the graph's side: given which summarizer calls streamed, the pair kept for storing is the last one reported if and only if the call that reported it did |
| AgentGraph.StepLoses | agent/src/middleware/summarization.py:60-64 | only a failed summarizer adds to the rows whose content is gone |
| GraphLoop.CompactionActs | agent/src/middleware/summarization.py:50-65 | the compaction node hands over to the model in every case, folds as the best cut says above the threshold, and announces the row of the last stored message folded unless the summarizer failed |
| GraphLoop.LoopOrder | agent/src/graphs/agent.py:25-40 | for any steps in any order, those that act are a compaction, a reply, the results of exactly its calls, and so on again; a run ends exactly with its first reply without calls |
| GraphLoop.ContextIsTail | agent/src/graphs/agent.py:17-40 | at any point of any run the messages are all that was said from the prompt on, word for word and in order, or one human turn that stands for everything before some point and all said since, the newest message always included |
| SummaryCapture.CompactionIsCaptured | api/chat.go:414-428 | an ended compaction is captured exactly when it names a row and streamed text; the captured summary is all that this summarizer run streamed, in order, whatever streamed in between |
| SummaryCapture.LastCompactionIsKept | api/chat.go:389-433 | after any events of a run the recorder holds the text and the row of the last ended compaction that named a row and had streamed text, or nothing before there is one |
| RunCapture.RecordedIsCaptured | api/chat.go:414-428 | for any run of the graph and any interleaving of its events with others, the recorded row is the row that the run of the graph is said to have captured |
| RunCapture.RecordedIsLastReported | api/chat.go:414-428 | the recorded row is the last one the run reported if and only if the summarizer call that reported it had streamed text, as read off the events |
| SummaryCapture.OthersCaptureNothing | api/chat.go:397-428 | no other event of a run changes the captured summary or its row |
| SubagentGraph.WebSearchNode | agent/src/graphs/subagent.py:32-74 | each call gets one tool message with its own id and name, in order; the first ones carry results or errors, the rest the limit text; the count grows by the searches executed |
| SubagentGraph.SearchCapIsExact | agent/src/graphs/subagent.py:32-88 | over a whole subagent run with compactions, the searches executed number the smaller of those requested and the cap, a negative cap counting as zero |
| SubagentGraph.SubagentFollowsLoop | agent/src/graphs/subagent.py:77-88 | a subagent is at the same node with the same messages as the agent's loop given the same steps, so order and context hold of it too |
| SubagentGraph.ModelCallsSeePairedHistory | agent/src/graphs/subagent.py:77-88 | every subagent model call sees calls and results paired |
| SubagentGraph.SubagentNeverMovesWatermark | agent/src/graphs/subagent.py:77-88 | every compaction of a subagent reports a null id |
| Conversation.PromptCoversVisibleRows | api/chat.go:344-374 | a prompt built from any pair that covers its rows stands for every visible row exactly once, in order |
| Conversation.PromptIsTurns | api/chat.go:344-374 | the prompt is the stored summary, if any, as one human turn, then exactly the rows above the watermark in order, each named by its id, in its own role, without calls and with its content |
| Conversation.StoredSummaryCoversThroughWatermark | api/chat.go:466-470 | after any interleaving of sends, the stored summary stands for exactly the rows at or below the stored watermark |
| Conversation.LoadSeesEveryRow | api/chat.go:334-374 | a load sees every row present exactly once, however long before the pair was read and whatever other sends did since |
| Conversation.EveryPromptCoversItsLoad | api/chat.go:334-433 | at every step of every run the messages stand for the rows visible at its load, once each and in order; what is missing was folded by a failed summarizer; model calls see paired histories |
| SendContext.EveryContextIsTail | api/chat.go:334-433 | for any overlap of sends and at any step, the context of a running send is a tail of the turns it loaded and of what its run said since, and its steps took the loop's order |
| SendHandler.Tables.LoadPrompt | api/chat.go:344-374 | the loop over the rows above the watermark, with the summary put in front, builds the specified prompt |
| SendHandler.RunAgent | api/chat.go:396-433 | the run's result is that of its steps, and the same steps appended as events bring the protocol to the same run |
| SendHandler.Send | api/chat.go:326-470 | a whole send has the effect of its own statements, run steps included, appended as events; it succeeds exactly when both inserts fit and the run on its prompt ends, and then stores what that run captured; the user's message survives a run that fails, which stores nothing else; the stored summary still stands for exactly the rows at or below the watermark |
| SendHandler.SendAddsTurns | api/chat.go:326-470 | a send adds the user's turn and, if it succeeds, the assistant's after it, under the next ids; it changes the stored pair only when it succeeds |
| SendHandler.Finish | api/chat.go:434-470 | a run that ended leaves its reply, if it fits, and its captured summary; any other leaves the tables as they were |
| Conversation.NothingLostWithoutFailure | agent/src/middleware/summarization.py:60-64 | when no summarizer call fails, no running prompt and no stored summary lacks the content of a row |
| WatermarkOrder.StoreMovesAboveItsLoad | api/chat.go:466-470 | for any overlap of sends, only storing a captured summary moves the watermark, to a row above what that send had loaded; strictly forward exactly when the captured row is above the stored one, and so when nothing newer was stored since |
| WatermarkOrder.WatermarkNeverMovesBackIff | api/chat.go:466-470 | for any overlap of sends the stored watermark never decreases over a whole run if and only if no statement stores a captured row below the stored watermark |
| WatermarkOrder.StoreAfterQuietMovesForward | api/chat.go:334-342 | if nothing was stored since a point before a send's load, its store moves the watermark strictly forward, however many other sends ran meanwhile |
| WatermarkOrder.WatermarkNeverMovesBack | api/chat.go:466-470 | when every store finds nothing newer than what its send had loaded, the watermark never decreases over a whole run |
| WatermarkOrder.SequentialWatermarkIncreases | api/chat.go:466-470 | without overlapping sends, storing a captured summary moves the watermark strictly forward and nothing else moves it |
| WatermarkOrder.SequentialWatermarkNeverMovesBack | api/chat.go:466-470 | without overlapping sends the stored watermark never decreases over a whole run |
| WatermarkOrder.HarmlessStaleStore | api/chat.go:466-470 | a run in which a send stores after a newer store than its load, and still moves the watermark forward |
| WatermarkOrder.OverlapMovesWatermarkBack | api/chat.go:466-470 | a run of two overlapping sends after which the stored watermark is lower than before |
| RunEvents.Translator.Handle | agent/src/events.py:22-48 | the frames and the new state for each event, for the methods as they update the open tools, the started nodes, the token counts and the root run |
| RunEvents.TranslateRun | agent/src/server.py:94-101 | a run through one translator yields the specified log, frame by frame |
| RunEvents.LogIsWellFormed | agent/src/events.py:50-107 | every log has distinct node ids, parents before children, and only non-empty text for announced nodes |
| RunEvents.NodeTextIsOwnChunks | agent/src/events.py:56-88 | for any interleaving of runs, the text sent for a node is the in-order concatenation of its own run's chunks |
| RunEvents.CountsAreTotals | agent/src/events.py:117-123 | each token counter is the total over all finished model calls |
| RunEvents.RootIsFirst | agent/src/events.py:22-26 | the root run is that of the first event without enclosing runs |
| Sse.ParseFrame | web/src/lib/api.ts:259-268 | the loop over lines returns the specified frame, or none without an event name |
| Sse.LastLineCounts | web/src/lib/api.ts:262-265 | a frame's name and data are the trimmed rest of its last line of that kind |
| Sse.TrimIs | web/src/lib/api.ts:263-264 | trimming takes all white space off both ends and nothing else |
| Sse.SplitLinesIs | web/src/lib/api.ts:262 | splitting gives single lines that joined with newlines are the text |
| Sse.ParseSSE | web/src/lib/api.ts:270-281 | the loop returns the specified events and a rest without a delimiter |
| Sse.FeedIsParse | web/src/lib/api.ts:310-319 | splitting a stream at any points, also inside a delimiter, gives the events and the rest of parsing it whole |
| Sse.ReadLoop | web/src/lib/api.ts:310-342 | the read loop delivers the events of the whole stream and keeps its unparsed rest |
| Sse.Run | api/agent.go:103-118 | the scan loop dispatches the specified frames and ends as specified: finished, run error, or line too long |
| Sse.ScanOtherLine | api/agent.go:108-117 | a line that is neither an event nor a data line is passed over, and the event name stays |
| Sse.ScanIgnoresCR | api/agent.go:104-108 | a carriage return before the newline makes no difference |
| Sse.ScanInvertsPrint | agent/src/server.py:58-59 | scanning what the agent printed gives back the frames before the first that is an error or has a line beyond the limit, and that outcome |
| Sse.ParseInvertsPrint | api/chat.go:590-593 | parsing what the API printed gives back the same frames and an empty rest |
| Sse.PipelineDelivers | api/agent.go:103-168 | over both hops and any chunking the browser sees exactly the node, delta and node-end frames before the first error or overlong line, in order, and then the API's own closing: an error if the run, the reading or the save failed, else done and, on a first message, a title |
| Sse.BrowserSeesEveryFrame | api/agent.go:121-168 | what the browser sees is every node, delta and node-end frame before the first error or overlong line, each once and in order, and nothing else; then an error frame after a failure, else done and a title where there is one |
| EndToEnd.FramesReachTheBrowser | web/src/lib/api.ts:310-342 | for any one-line payload coding and any chunking, the browser reads back exactly the translator's frames up to the first error or overlong line, then the closing, and nothing is left unparsed |
| EndToEnd.BrowserShowsTheRun | web/src/lib/messages-context.tsx:133-154 | for a run read to its end, the nodes on screen are those its events announce, and a reload shows the same |
| TraceRecorder.Recorder.OnDelta | api/chat.go:404-413 | text goes to the latest node under its id, and to the reply exactly when that node is a top-level answer |
| TraceRecorder.Recorder.OnNodeEnd | api/chat.go:414-431 | the output goes to the latest node under its id, and a compaction that names a row replaces the captured pair |
| TraceRecorder.RecordRun | api/chat.go:389-433 | the handlers' node list, index, reply and captured pair equal the specified log of the whole stream |
| TraceRecorder.NonTrivialLoop | api/chat.go:90-97 | a trace is stored exactly when some node is not top-level answer text |
| TraceRecorder.StoredTextIsDeltaText | api/chat.go:404-413 | in a well-formed log each stored node's text is all the text sent for its id |
| TraceNodes.TraceIsWhatHappened | agent/src/events.py:22-115 | for every run the stored nodes are exactly those its events announce, in order; each has its own event's name and input, the innermost enclosing tool that was open then as its parent, all its run's chunks of its kind as its text, and what was reported last for it as its output |
| TraceNodes.SourcesAreAll | agent/src/events.py:56-106 | the announcements are every tool start, and for every run the first non-empty chunk of each kind |
| TraceNodes.SourcesInOrder | agent/src/events.py:70-88 | announcements come in the order of their events |
| TraceNodes.ToolCallIsRecorded | agent/src/events.py:90-115 | a started tool has a stored node with that start's name and input under the innermost enclosing open tool; its output is that of its last end event since, and absent before one |
| LiveNodes.LiveEqualsReload | web/src/lib/messages-context.tsx:133-154 | for distinct ids the browser's nodes equal the stored ones, field for field, after every frame |
| LiveNodes.AgreementNeedsDistinctIds | web/src/lib/messages-context.tsx:133-154 | the two agree now and after every continuation without new nodes if and only if node ids are distinct |
| LiveNodes.AgreesUnlessOnlyEmpty | web/src/lib/messages-context.tsx:144-154 | for distinct ids live and reload agree if and only if no node was sent nothing but empty pieces of text since it was announced |
| LiveNodes.EmptyDeltaDiverges | web/src/lib/messages-context.tsx:25-27 | an instance: an empty delta is shown as an empty text and reloaded as no text |
| LiveNodes.TranslatedRunsReload | web/src/lib/messages-context.tsx:25-27 | every run's log reloads as it was shown |
| TraceNodes.LiveTraceIsWhatHappened | web/src/lib/messages-context.tsx:133-154 | and the browser shows exactly those nodes while the run streams |
| LiveNodes.ReplyIsAllTextIffInOrder | api/chat.go:404-413 | when no trace is stored, the stored reply is the concatenation of the nodes' texts for every choice of non-empty pieces of text if and only if the pieces reach the nodes in order |
| LiveNodes.ReplyIsAllText | api/chat.go:404-413 | when no trace is stored and pieces reach the nodes in order, the stored reply is the concatenation of the nodes' texts |
| LiveNodes.NonOverlappingIsInOrder | api/chat.go:404-413 | model calls that do not overlap reach the nodes in order |
| LiveNodes.OverlapBreaksReplyOrder | agent/src/events.py:70-88 | a translated run of two alternating top-level calls whose stored reply is not that concatenation |
| RunReply.ReplyIsTopLevelText | api/chat.go:404-413 | the saved reply is the text of the top-level runs in arrival order, whatever subagents stream in between |
| RunReply.ReplyFromTopStreamAlone | agent/src/events.py:50-88 | dropping every tool and subagent event leaves the same saved reply |
| RunReply.StoredTextIsOwnChunks | agent/src/events.py:56-88 | a stored node's text is its own run's chunks, in order |
| RunTree.BuildTree | web/src/lib/run-log.ts:6-16 | the linked objects are one per node, each child list and the root list in log order, and walking the tree from the roots meets exactly the objects of the flattened forest, in its order |
| RunTree.ParentIsLastNamed | web/src/lib/run-log.ts:10-14 | a node hangs under exactly the last node whose non-empty id it names as its parent |
| Forest.ForestHoldsEveryNodeOnce | web/src/lib/run-log.ts:6-16 | for every choice of parents, in any order of the list, the forest holds each node exactly once and nothing else if and only if no node is its own ancestor |
| Forest.ForestHoldsGroundedNodes | web/src/lib/run-log.ts:6-16 | the forest holds a node once if its chain of parents ends at a root, and not at all otherwise |
| Forest.GroundedUnlessCyclic | web/src/lib/run-log.ts:10-14 | a chain of parents never ends exactly when it runs into a node that is its own ancestor |
| RunTree.NoNodeLost | web/src/lib/run-log.ts:6-16 | for every run the forest holds each node exactly once, under the parent its frame announced |
| RunTree.SelfParentIsLost | web/src/lib/run-log.ts:10-14 | an instance: a lone node that is its own parent leaves an empty forest |
| RunTree.ChildFirstIsKept | web/src/lib/run-log.ts:8-14 | a child listed before its parent is still kept under it |
| RefreshTokens.Auth.Refresh | api/auth_handlers.go:29-60 | a claimable token is consumed but stays on file, exactly the expired rows go, every other row is untouched and one row in its family comes; a revoked one takes down its family; any other changes nothing; whatever the outcome the presented token is no longer claimable |
| RefreshTokens.Auth.IssueTokens | api/auth_handlers.go:122-142 | a session is answered exactly when its row was stored |
| RefreshTokens.Auth.Logout | api/auth_handlers.go:67-74 | exactly the presented token's row goes, every other row stays |
| RefreshTokens.Store.RevokeFamily | api/auth_handlers.go:50-51 | exactly the rows of the family become revoked, and no other row changes |
| RefreshTokens.RotationInvariant | api/auth_handlers.go:37-60 | after any interleaving of statements a family's unrevoked rows and rotations in flight number at most one, and its rows name one user |
| RefreshTokens.NoTokenHonouredTwice | api/auth_handlers.go:37-43 | no token is honoured twice over a whole run |
| RefreshTokens.TheftResponseIsFinal | api/auth_handlers.go:44-54 | after the revoking statement no token of the family is honoured in any continuation, if and only if no rotation of it was in flight |
| RefreshTokens.TheftResponseSparesOthers | api/auth_handlers.go:50-51 | the revocation changes no row of another family and no other request |
| RefreshTokens.RotationRunAlone | api/auth_handlers.go:57-60 | the statements of an undisturbed rotation have the effect the handler method promises |
| RefreshTokens.ReplayRunAlone | api/auth_handlers.go:44-52 | so do the statements of an undisturbed replay |
| SessionLife.TokenLives | api/auth_handlers.go:37-64 | over any interleaving, a token handed out can be claimed if and only if its thirty days are not over and it was not presented, logged out or revoked with its family since |
| SessionLife.SpentTokenStaysOnFile | api/auth_handlers.go:37-64 | an honoured token stays on file as revoked exactly until its own logout or the first purge after its own expiry |
| SessionLife.ReplayIsNoticed | api/auth_handlers.go:44-52 | a refused token that had been honoured is found a replay of its family if and only if it is still on file |
| SessionLife.ReplayInTimeIsNoticed | api/auth_handlers.go:44-52 | before its own expiry, and unless logged out, reuse of a spent token is always found |
| SessionLife.LogoutIsFinal | api/auth_handlers.go:67-74 | a logged-out token is neither honoured nor taken for a replay in any continuation |
| Browser.SingleFlightNeverLooksLikeTheft | web/src/lib/api.ts:34-63 | one tab with single-flight refresh never presents a revoked token and never triggers a family revocation, for any requests, logins, logouts and other clients, when every claimed rotation completes and its response arrives |
| Browser.QuietExactlyForOneTab | web/src/lib/api.ts:34-41 | all runs of a set of tabs sharing one jar are free of that if and only if there is at most one tab |
| Browser.QuietAfterLossIff | web/src/lib/api.ts:50-63 | after a lost response, every continuation is free of it if and only if the refresh had claimed nothing or the jar holds no token on file as revoked |
| Browser.TwoTabsLookLikeTheft | web/src/lib/api.ts:34-41 | for any two tabs, a run with no response lost that triggers a family revocation |
| Browser.LostResponseLooksLikeTheft | web/src/lib/api.ts:50-63 | for any tab, a run whose claimed rotation loses its response and that then triggers a family revocation |
| Browser.RefreshRenewsSession | web/src/lib/api.ts:34-63 | an undisturbed refresh leaves the jar with a new claimable token of the same family and user, good for thirty days, and the old one on file as spent |
| Browser.LogoutSignsOut | api/auth_handlers.go:67-74 | a logout that was served and answered leaves the jar empty and its token, and only it, off the table |
| RateLimit.Limiter.Allow | api/ratelimit.go:47-65 | the answer and the new table; a denied reservation leaves nothing but the refill |
| RateLimit.Limiter.Serve | api/ratelimit.go:88-104 | a request is let through exactly when admitted, else turned away with the cut wait |
| RateLimit.Limiter.Evict | api/ratelimit.go:76-85 | exactly the entries idle for longer than the limit are dropped |
| RateLimit.EvictionIsTransparent | api/ratelimit.go:67-85 | when an idle period refills a bucket, sweeping at any times gives every call the answer it would get without sweeps |
| RateEviction.UnnoticedIff | api/ratelimit.go:67-85 | sweeping at any times leaves every answer as it is if and only if even the deepest debt is refilled when its entry may be dropped |
| RateEviction.SweepIsNoticed | api/ratelimit.go:76-85 | otherwise a run of calls and one sweep that is answered differently without the sweep |
| RateEviction.ServiceSweepsAreUnnoticed | api/main.go:171-183 | on the chat, export and magic-link limiters sweeps change no answer |
| RateEviction.ShortIdleIsNoticed | api/ratelimit.go:67-85 | an instance: the chat limiter with an idle period of ten seconds |
| RateLimit.ServiceLimiters | api/main.go:171-183 | the chat, export and magic-link limiters qualify for every theorem here, the exact window bound included |
| RateLimit.DeniedCallsCostNothing | api/ratelimit.go:59-63 | all later answers are as if a denied call had not been made |
| RateLimit.WindowBound | api/ratelimit.go:47-65 | after any history, a window of length T admits less than burst + rate × T plus one nanosecond's refill on a key |
| RateLimit.ExactWindowBoundIff | api/ratelimit.go:33-45 | burst + rate × T bounds every window after every history if and only if a nanosecond's refill divides a token |
| RateLimit.WaitIsExact | api/ratelimit.go:59-63 | with no other admission on the key, a later call is admitted if and only if the returned wait has passed |
| RateLimit.RetryAfterSuffices | api/ratelimit.go:93-97 | Retry-After plus a second exceeds the wait; Retry-After alone reaches it if and only if the wait is at most a second or whole |
| RateLimit.RetryAfterAlone | api/ratelimit.go:88-104 | a turned-away client that returns after exactly Retry-After seconds is admitted if and only if its wait was at most a second or whole |
| RateLimit.RetryAfterTooEarly | api/ratelimit.go:88-104 | a reachable case on the chat limiter where the client returns as told and is turned away again |
| RateLimit.RetryAfterOneMoreSecond | api/ratelimit.go:88-104 | a turned-away client that comes back a second after the announced time is admitted |
| RunBudget.UsageMarks.CountMarks | api/usage.go:37-43 | the count of a subject's marks newer than a time |
| RunBudget.UsageMarks.RecordMark | api/usage.go:46-55 | every count over the window grows by exactly the new mark, no other subject's count changes, and no stale mark of the subject is left |
| RunBudget.UsageMarks.Admit | api/chat.go:312-324 | a run starts exactly when it is the owner's or the window's budget is not used up |
| RunBudget.StartGoesThroughIff | api/chat.go:312-324 | after any runs, reports and prunings a start goes through if and only if it is the owner's, or fewer than the budget of this subject's completed runs fall into the last 24 hours |
| RunBudget.PruningIsInvisible | api/usage.go:51-53 | pruning at any times never changes a count that a later start or usage report sees |
| RunBudget.RollingBudget | api/chat.go:312-324 | if at most k runs of a non-owner subject are ever in flight, every 24-hour window holds at most budget + k − 1 of its marks, and none where budget or k leaves no room |
| RunBudget.RollingBudgetIsReached | api/chat.go:475-477 | for every budget and k some such run fills a window to exactly that number |

## Left out

- HTTP, the database engine, the agent framework and all external services: tables are sequences and maps, calls are parameters or events.
- JSON: payloads are single-line strings without surrounding white space; `EndToEnd` takes any such coding that can be read back, the same on both hops.
- UTF-8 decoding and the scanner's buffer growth: `Sse` works on characters, and one line limit stands for the scanner's byte limit.
- Floating point inside the rate library: the bucket is modelled in exact integers, with the library's rounding of waits to whole nanoseconds kept.
- `agent/src/events.py` `_serialize_output`, the usage and meta frames, and the `end` frame: a node's output is opaque, and the frames that only the API reads are not relayed.
- RunEvents.Translator.Handle: token counts of an event are four integers given with it; reading them out of message metadata is not modelled.
- RunTree.BuildTree: two tree objects never share a node object, as each is wrapped afresh; the caller's node objects themselves are values here.
- RefreshTokens.TheftResponseIsFinal: a replay is judged at its revoking statement, not at its claim, because the family's live token can still be claimed between the two.
- The browser's `accessToken` and `refreshing` variables are state of the composed machine, not of a class, because their promises interleave with other requests.
- Browser.SingleFlightNeverLooksLikeTheft: the access token, its expiry and the retry after a 401 are any `Refresh` action at any time; other clients present only tokens that were issued to them.
- Conversation.EveryPromptCoversItsLoad: deleting messages or conversations while a send runs is not modelled.
- RunBudget.RollingBudget: windows are open at their start and closed at their end, as the strict comparison in the count makes them.
- `load`, `stop` and `sendNew` of the messages context, React rendering, titles, feedback, export, todo plans, e-mail canonicalisation, configuration: no protocol of their own, or one-branch facts.
- JWT signing, hashing and random generation: tokens, hashes and families are distinct identities.
