# sekai_meeting_agent: the orchestration core in Dafny

This project models the workflow engine of the meeting agent. A user request runs through a
LangGraph state machine. A **supervisor** node asks a language model which task node to run
next: `zoom` (find a transcript), `debrief` (summary, todo list and feedback) or `notion`
(publish). Each task node hands control back to the supervisor. When the supervisor chooses
`end`, the run goes to a `log_summary` node and then to `END`.

Nodes return dictionaries that are merged into a shared `AgentState`. `step_summary` is
merged by concatenation (the `operator.add` reducer). Every other key is overwritten.

The project also models:

- the pure routines around the engine: WEBVTT transcript cleaning, meeting and file selection,
  and the access-token cache of the Zoom tools;
- how the debrief tools turn a model reply into a record;
- the server-sent-event stream of the query endpoint, with `json.dumps` string escaping;
- the page that reads that stream;
- the older `graph.py` workflow, where a router runs once and handlers route directly to each
  other.

Anything that comes from outside the code is a parameter:

- the models' answers (a script of structured replies, consumed in order);
- `JSON.parse` and `json.loads`;
- the file system (a map from path to text);
- the clock;
- the HTTP results (the meeting listing, the token grant).

A run of the graph is a `Trace`: the node executions in order, each with its return value and
the merged state after it. The trace ends with an outcome:

- `Completed`: the run reached `END`;
- `Stalled`: the script ran out first. LangGraph itself stops a run that exceeds its recursion
  limit (25 super-steps unless configured) by raising `GraphRecursionError`; that limit is not
  modelled, so a long script may run further here than the library would let it.

The modules, in dependency order:

- `Wrappers`, `Text`, `JsonText`: helpers, and Python and JavaScript string behaviour.
- `State`, `SupervisorAgent`, `ZoomAgent`, `DebriefAgent`, `NotionAgent`: the nodes.
- `Graph` and `GraphRuns`: the graph, and properties of every run.
- `ZoomTools` and `DebriefTools`: the tools.
- `ApiStream` and `SseClient`: the endpoint and the page.
- `LegacyGraph`: the older workflow.

Where the code departs from what its own names, comments and prompts suggest, the model follows
the code:

- **`route` written by a handler.** The notion node writes `route = "end"`
  (src/agents/notion_agent.py:61), although `route` is meant to belong to the supervisor.
  `GraphRuns.NotionRouteIsOverwritten` shows that the write is dead: notion's only successor is
  the supervisor, which never reads `route` and overwrites it.
- **Log length.** For the "retrieve, debrief, terminate" scenario one might expect a report of
  three steps, one per task. In the code, every supervisor call and every handler call adds one
  entry, so the report lists five (`GraphRuns.ZoomThenDebrief`).
- **The log after `log_summary`.** `log_summary` returns the whole log as its fragment. The
  concatenating reducer therefore doubles it: ten entries in that scenario, `2n` in general.
  The comment at src/graph.py:66 says the log is "kept".
- **No transcript found.** A failed search does not leave `transcript_path` unset. The zoom node instead falls back to the previous path or to `/tmp/placeholder.txt`,
  so the path is always set (`ZoomAgent.ResolveTranscriptPath`).
- **Debrief without a transcript.** The debrief node works on the text
  "No transcript provided" rather than reporting an unmet precondition
  (`DebriefAgent.TranscriptText`).
- **Handler to handler.** In the legacy `graph.py`, handlers do route directly to one another
  (`LegacyGraph.ZoomThenDebriefDirectly`). An unknown label there makes LangGraph's
  lookup in `targets` raise, which ends the run; `app.py` catches the exception
  (`LegacyGraph.UnknownChoiceStops`). In `src/graph.py` the supervisor's route is one of four
  literals by construction, so dispatch is total.

## Model

| member | source | states |
|---|---|---|
| State.RouteLabel | src/agents/supervisor_agent.py:15 | every route is one of the four literals `zoom`, `debrief`, `notion`, `end` |
| State.Merge | src/graph.py:27-38 | the merged `step_summary` is the old log followed by the fragment, so the old log is a prefix of the new one |
| State.MergeSpread | src/graph.py:37 | merging a `{**state, ...}` return value overwrites every declared key with the returned value; only `step_summary` accumulates |
| State.MergeUnchanged | src/graph.py:37 | handing the state back with an empty log fragment changes nothing |
| State.MergeDropsFinalSummary | src/graph.py:27-38 | `final_summary` is not a declared key and never reaches the state |
| State.MergeKeepsUnwritten | src/graph.py:27-38 | a return value that copies the state outside some keys leaves the merged state unchanged outside them |
| SupervisorAgent.YesNo | src/agents/supervisor_agent.py:57-61 | the status word is `Yes` exactly when the condition holds |
| SupervisorAgent.NumberFrom | src/agents/supervisor_agent.py:65 | one history line per log entry, numbered consecutively in list order |
| SupervisorAgent.BuildContext | src/agents/supervisor_agent.py:41-65 | the instruction is the user message, `""` when absent and `None` when it holds `None`; each reported status is `Yes` exactly when the matching keys are truthy, and `No` otherwise; a missing or `None` meeting name reads "Not specified"; the history is the numbered log |
| SupervisorAgent.SupervisorUpdate | src/agents/supervisor_agent.py:117-123 | writes exactly `route` and `next_step`, contributes the one structured log entry, and passes every other key through |
| SupervisorAgent.ReasoningIsDropped | src/agents/supervisor_agent.py:111-123 | the model's `reasoning` has no effect on the update |
| SupervisorAgent.ContextIgnoresRouteAndNextStep | src/agents/supervisor_agent.py:41-86 | neither the current `route` nor `next_step` reaches the routing prompt |
| SupervisorAgent.SparseStateAccepted | src/agents/supervisor_agent.py:41-50 | a state with no keys is read with every default and no error |
| SupervisorAgent.HistoryOfTwoSteps | src/agents/supervisor_agent.py:65 | a two-entry log renders as `1. a`, a newline, then `2. b` |
| ZoomAgent.ResolveTranscriptPath | src/agents/zoom_agent.py:94 | the path is the reported one, else the existing non-empty path, else the placeholder; it is never empty |
| ZoomAgent.ZoomRequest | src/agents/zoom_agent.py:69-71 | the inner agent receives the user message, or `None` when it is absent or `None` |
| ZoomAgent.RequestReadsOnlyUserMessage | src/agents/zoom_agent.py:69-71 | the request depends on `last_user_message` alone |
| ZoomAgent.ZoomUpdate | src/agents/zoom_agent.py:99-104 | writes a truthy `transcript_path` and `next_step`, adds one log entry, and passes every other key through |
| DebriefAgent.LoadTranscript | utils/get_transcript.py:9-17 | the file's text, or the "Transcript unavailable" marker naming the path, as given, when the file is missing |
| DebriefAgent.TranscriptText | src/agents/debrief_agent.py:51-52 | the loaded file when `transcript_path` is truthy, else "No transcript provided" |
| DebriefAgent.DebriefRequest | src/agents/debrief_agent.py:74-78 | the request starts with the current task (empty when absent, `None` when it holds `None`) and ends with the transcript text |
| DebriefAgent.DebriefUpdate | src/agents/debrief_agent.py:92-98 | writes `summary`, `todo` and `feedback`, adds one log entry, and passes every other key through |
| NotionAgent.NotionRequest | src/agents/notion_agent.py:45-49 | the request starts with the user request and the current step, contains the summary followed by the todo list, and ends with the feedback; absent and `None` values show as `None` |
| NotionAgent.NotionUpdate | src/agents/notion_agent.py:57-64 | writes `notion_parent_id` and `next_step`, forces `route` to `end`, adds one log entry, and keeps summary, todo, feedback and transcript path |
| Graph.Target | src/graph.py:80-85 | each task route leads to the node of the same name; `end` leads to `log_summary` and to nothing else |
| Graph.TargetOnto | src/graph.py:80-91 | every task node and `log_summary` is the target of some route |
| Graph.Topology | src/graph.py:77-98 | only the supervisor dispatches to a task node; every task node returns to the supervisor; no task→task edge exists; `END` is reached only from `log_summary` |
| Graph.ReportLinesAppend | src/graph.py:60-61 | adding an entry to the log adds its numbered line at the end of the report |
| Graph.ReportLinesAreHistory | src/graph.py:60-61 | the report's lines are the supervisor's history lines, each followed by a newline |
| Graph.FinalSummaryMatchesHistory | src/graph.py:59-61 | `final_summary` is the header with the entry count, followed by the same numbered history the supervisor shows |
| Graph.RenderFinalSummary | src/graph.py:59-61 | the line-by-line loop builds the report with the header and one numbered line per entry, in order |
| Graph.LogSummaryUpdate | src/graph.py:42-67 | the report is the final summary of the log; under the reducer the merged log is the log twice, of length `2n`; no other key changes |
| Graph.HandlerStep | src/graph.py:80-95 | the routed task node runs on its next scripted answer, changes only its own keys and adds one entry; no answer left means no step |
| Graph.Run | src/graph.py:69-101 | a run of the compiled graph starts at the supervisor, takes at most two steps per routing decision (one supervisor step and the node its route targets), and is empty only when there is no decision; shape, edges, fold, log growth and completion are stated by `GraphRuns.RunShape`, `RunFollowsEdges`, `RunIsFold`, `RunLogGrowth` and `RunCompletion` |
| GraphRuns.RunShape | src/graph.py:77-98 | every trace is `supervisor (task supervisor)*`, optionally ending in a task; a completed trace ends `supervisor log_summary` |
| GraphRuns.ShapedPrepend | src/graph.py:87-95 | a supervisor–task pair in front of a well-shaped trace keeps it well shaped |
| GraphRuns.ShapedFollowsEdges | src/graph.py:77-98 | a well-shaped trace starts at `START`'s successor, moves only along declared edges, and a completed one ends at `END`'s predecessor |
| GraphRuns.RunFollowsEdges | src/graph.py:77-98 | every run walks the declared graph from `START`, and a completed run arrives at `END` |
| GraphRuns.RunChained | src/graph.py:87-98 | every step of a run is a correct step from the state before it |
| GraphRuns.ChainedPair | src/graph.py:89-98 | a supervisor step and the task step it dispatched, both taken correctly, ahead of a correct run keep the run correct |
| GraphRuns.ChainedAt | src/graph.py:87-98 | the correct-step facts hold at each index of a chained trace |
| GraphRuns.RunIsFold | src/graph.py:37 | every step's state is the merge of the node's return value into the state before it |
| GraphRuns.RunDispatch | src/graph.py:87-91 | the node after each supervisor step is the `targets` entry of the route that step wrote |
| GraphRuns.RunRespectsOwnership | src/graph.py:37 | no step changes a declared key outside the keys its node writes; `log_summary` changes none |
| GraphRuns.RunLogGrowth | src/graph.py:37 | before `log_summary`, the log after step `i` is the initial log plus exactly `i + 1` entries |
| GraphRuns.StepAddsOne | src/graph.py:37 | every step other than `log_summary` extends the log it starts from by exactly one entry |
| GraphRuns.LogSummaryIsLast | src/graph.py:87-98 | `log_summary` only ever runs as the last step |
| GraphRuns.StepExtendsLog | src/graph.py:37 | each step's log extends the log of the step before it |
| GraphRuns.LogOnlyGrows | src/graph.py:37 | every earlier log is a prefix of every later one: nothing is dropped or reordered |
| GraphRuns.RunCompletion | src/graph.py:42-67 | a completed run has at least two steps, reports the log as it stood before `log_summary` (the initial log plus one entry per supervisor and task call), and its final log is that log twice |
| GraphRuns.CompletesPrepend | src/graph.py:87-95 | a supervisor–task pair that adds two log entries in front of a run that completes correctly keeps it correct |
| GraphRuns.RunBounded | src/graph.py:87-95 | a run has at most two steps per routing decision; without an `end` decision it never reaches `END` |
| GraphRuns.NotionRouteIsOverwritten | src/graph.py:95 | notion's only successor is the supervisor, which neither reads nor keeps the `route` notion wrote |
| GraphRuns.Nodes | src/graph.py:71-75 | the node sequence of a trace, one node per step in order |
| GraphRuns.ZoomThenDebrief | src/graph.py:77-98 | zoom, then debrief, then end visits supervisor, zoom, supervisor, debrief, supervisor, `log_summary`; the report lists 5 entries and the final log holds 10 |
| GraphRuns.ZoomPhase | src/graph.py:87-93 | a supervisor step choosing `zoom` is followed by the zoom step; the rest of the run continues from there with two more log entries |
| GraphRuns.DebriefPhase | src/graph.py:87-94 | a supervisor step choosing `debrief` is followed by the debrief step; the rest of the run continues from there with two more log entries |
| GraphRuns.EndPhase | src/graph.py:42-67 | a supervisor step choosing `end` is followed by `log_summary`, which reports the log and doubles it, and the run completes |
| GraphRuns.RunThroughHandler | src/graph.py:87-95 | a supervisor step routing to a task that answers is followed by that task's step, then the run from its state |
| GraphRuns.RunToEnd | src/graph.py:88-98 | a supervisor step routing to `end` is followed by `log_summary` alone, and the run completes |
| ZoomTools.SourceLines | tools/zoom_tools.py:64-65 | a file's lines: at least one, none containing a line break |
| ZoomTools.KeptLine | tools/zoom_tools.py:66-76 | one line contributes at most one line, its stripped form, and only when that passes the filter |
| ZoomTools.GatherLength | tools/zoom_tools.py:65-76 | a per-line step that yields at most one line never yields more lines than it reads |
| ZoomTools.GatherAppend | tools/zoom_tools.py:65-76 | one more source line appends exactly what that line contributes |
| ZoomTools.GatherMembers | tools/zoom_tools.py:65-76 | a line is in the output exactly when some source line contributes it |
| ZoomTools.GatherFixed | tools/zoom_tools.py:65-76 | lines that each contribute themselves come out unchanged |
| ZoomTools.Kept | tools/zoom_tools.py:63-76 | the filter never produces more lines than it reads |
| ZoomTools.KeptClean | tools/zoom_tools.py:66-76 | every kept line is stripped, non-empty, not a `WEBVTT` header, not a cue number and not a timing line |
| ZoomTools.KeptAppend | tools/zoom_tools.py:65-76 | the filter over one more line appends that line, stripped, exactly when it passes |
| ZoomTools.KeptMembers | tools/zoom_tools.py:65-76 | a line is kept exactly when it passes the filter and is the stripped form of some source line |
| ZoomTools.KeptFree | tools/zoom_tools.py:66 | lines free of some characters stay free of them after stripping and filtering |
| ZoomTools.KeptFixed | tools/zoom_tools.py:66-76 | lines that are already stripped and pass the filter all survive it, in order |
| ZoomTools.CleanTranscript | tools/zoom_tools.py:59-82 | the loop writes the kept lines joined by single newlines |
| ZoomTools.KeptPrefix | tools/zoom_tools.py:65-76 | each loop iteration extends the kept lines by the current line when it passes |
| ZoomTools.CleanLines | tools/zoom_tools.py:80 | the cleaned text splits back into exactly the kept lines |
| ZoomTools.CleanIdempotent | tools/zoom_tools.py:59-82 | cleaning a cleaned transcript changes nothing |
| ZoomTools.KeptStable | tools/zoom_tools.py:65-76 | the kept lines pass the filter again unchanged |
| ZoomTools.EmptyCleanText | tools/zoom_tools.py:59-82 | an empty file cleans to an empty file |
| ZoomTools.NextMeeting | tools/zoom_tools.py:108-136 | passing every file of a meeting passes the whole meeting in the search order |
| ZoomTools.CleanPath | tools/zoom_tools.py:79-138 | the cleaned file sits in `zoom_transcripts/`, ends in `.txt`, and otherwise equals the download path |
| ZoomTools.FindTranscript | tools/zoom_tools.py:107-154 | the first qualifying file of the first matching meeting, in listing order; the not-found error exactly when there is no such file |
| ZoomTools.GetAccessToken | tools/zoom_tools.py:31-44 | the cached token while it is reusable; otherwise the request's outcome, cached with an expiry sixty seconds short of its lifetime; a failed request is an error |
| ZoomTools.ReuseWindow | tools/zoom_tools.py:33-43 | after a fetch, a later call is answered from the cache exactly when the token is non-empty and inside the lifetime less sixty seconds |
| ZoomTools.ShortGrantNeverReused | tools/zoom_tools.py:34-43 | a token granted for sixty seconds or less is never reused |
| ZoomTools.FirstCallRequests | tools/zoom_tools.py:19-34 | the first call always makes a request |
| DebriefTools.FirstIndex | src/tools/debrief_tools.py:83 | the leftmost position of a character, or none when it does not occur |
| DebriefTools.LastIndex | src/tools/debrief_tools.py:83 | the rightmost position of a character, or none when it does not occur |
| DebriefTools.JsonSpan | src/tools/debrief_tools.py:83 | `\{.*\}` with DOTALL matches exactly when some `}` follows some `{`, and then spans from the first `{` to the last `}` |
| DebriefTools.Interpret | src/tools/debrief_tools.py:73-106 | a dictionary reply is returned as is; a text reply yields its span's decoded object whenever the span exists and decodes, and the fallback record built from the text otherwise |
| DebriefTools.CreateRecord | src/tools/debrief_tools.py:107-109 | a failed model call is raised again with its message; otherwise the reply is interpreted |
| DebriefTools.Strings | src/tools/debrief_tools.py:90-91 | a list of strings as a JSON array, item for item |
| DebriefTools.SummaryFallback | src/tools/debrief_tools.py:88-93 | the summary fallback has exactly the four keys, with the reply text as `summary` |
| DebriefTools.FeedbackFallback | src/tools/debrief_tools.py:182-191 | the feedback fallback has exactly the five keys, rating 5, and the reply text inside the one suggestion |
| DebriefTools.TodoFallback | src/tools/debrief_tools.py:295-307 | the todo fallback has exactly the four keys, one action item carrying the reply text as context, and no follow-ups or dependencies |
| DebriefTools.WrappedObjectFound | src/tools/debrief_tools.py:83-85 | an object wrapped in prose with no `{` before it and no `}` after it is found exactly, and a reply of that shape yields the decoded object |
| DebriefTools.NoSpanFallsBack | src/tools/debrief_tools.py:86-93 | a text with no `}` after a `{` gets the fallback record, which keeps the text |
| DebriefTools.TwoObjectsFormOneSpan | src/tools/debrief_tools.py:83 | the match is greedy: two objects in one reply form a single span, with the prose between them |
| JsonText.HexDigitValue | src/api/routes.py:27-28 | each lower-case hexadecimal digit reads back as its value |
| JsonText.Hex4RoundTrip | src/api/routes.py:27-28 | four hexadecimal digits read back as the code unit they encode |
| JsonText.EscapeChar | src/api/routes.py:27-28 | each escaped character is written in printable ASCII |
| JsonText.Escape | src/api/routes.py:27-28 | `json.dumps` with `ensure_ascii` writes only printable ASCII |
| JsonText.Quote | src/api/routes.py:27-28 | a dumped string is quoted and printable |
| JsonText.Combine | src/api/routes.py:27-28 | a surrogate pair denotes the code point above the Basic Multilingual Plane it encodes |
| JsonText.UnescapeChar | src/api/routes.py:27-28 | decoding an escaped character gives that character back, ahead of the rest |
| JsonText.UnescapeShort | src/api/routes.py:27-28 | a two-character escape such as `\n` or `\"` reads back as its character |
| JsonText.UnescapeUnit | src/api/routes.py:27-28 | a `\uXXXX` escape of a control or non-ASCII character in the Basic Multilingual Plane reads back as that character |
| JsonText.UnescapePair | src/api/routes.py:27-28 | the surrogate pair of escapes written for a character above the Basic Multilingual Plane reads back as that character |
| JsonText.SurrogatesCombine | src/api/routes.py:27-28 | the high and low halves written for such a character lie in the surrogate ranges and combine back into it |
| JsonText.EscapeRoundTrip | src/api/routes.py:27-28 | decoding what `json.dumps` wrote gives back the original string, for every string |
| ApiStream.InitialState | src/api/routes.py:15-19 | the run starts from the query and an empty log, and every key the context carries wins over both, `null` included |
| ApiStream.InstructionFromRequest | src/api/routes.py:15-19 | the supervisor is told the query when the context leaves `last_user_message` out, the context's string when it sends one, and `None` when it sends `null` |
| ApiStream.NoContextStart | src/api/routes.py:15-19 | without a context, the run starts from the query and an empty log alone |
| ApiStream.Frame | src/api/routes.py:25 | a frame is `data: `, the JSON, and a blank line; the JSON sits exactly between them |
| ApiStream.ErrorJson | src/api/routes.py:27-28 | the error object is printable ASCII |
| ApiStream.RunEvents | src/api/routes.py:20-25 | one event per node update, in stream order, each naming its node |
| ApiStream.Frames | src/api/routes.py:13-28 | one frame per event in order; when the run raised, exactly one error frame, after all the others |
| ApiStream.ErrorFrameIsOneLine | src/api/routes.py:26-28 | the error frame is one line: no exception message can break the framing |
| ApiStream.ErrorMessageRecoverable | src/api/routes.py:27-28 | the message inside the error frame decodes back to the exception text |
| SseClient.LastAfter | nextjs-app/pages/index.js:14-20 | a field value is absent exactly when no line carries that field |
| SseClient.LastAfterIsLast | nextjs-app/pages/index.js:14-20 | a found field value comes from the last line that carries the field |
| SseClient.ParseMessage | nextjs-app/pages/index.js:8-38 | with `d` the value of the last `data: ` line (`""` when there is none), an event is produced exactly when `d` is non-empty and parses, and it carries `JSON.parse(d)`; its type is the last `event: ` value, default `message` |
| SseClient.LastAfterStep | nextjs-app/pages/index.js:14-20 | one more line overrides the value exactly when it carries the field |
| SseClient.ParseSseMessage | nextjs-app/pages/index.js:8-38 | the loop over lines computes the last-value-wins parse |
| SseClient.NonBlank | nextjs-app/pages/index.js:88 | the messages kept are no more than the pieces, and none is blank once trimmed |
| SseClient.NonBlankMembers | nextjs-app/pages/index.js:88 | a piece is kept exactly when it is not blank once trimmed |
| SseClient.NonBlankAppend | nextjs-app/pages/index.js:88 | filtering keeps the order of the pieces: the filter of two runs is the filter of each in turn |
| SseClient.Collect | nextjs-app/pages/index.js:91-98 | no more events than messages: a message yields at most one event |
| SseClient.SendQuery | nextjs-app/pages/index.js:50-117 | the list shows every event of every chunk in arrival order, then, when the request failed, one client `error` event last |
| SseClient.SendQueryResets | nextjs-app/pages/index.js:52 | each query starts from an empty list, whatever was shown before |
| SseClient.ReadEventsAppend | nextjs-app/pages/index.js:79-98 | reading chunks in turn appends their events in turn |
| SseClient.DataLineParses | nextjs-app/pages/index.js:10-30 | a one-line `data: J` message yields a `message` event carrying `JSON.parse(J)` |
| SseClient.NoDataNoEvent | nextjs-app/pages/index.js:22-37 | a one-line message without a `data: ` line yields no event |
| SseClient.MessageThenRest | nextjs-app/pages/index.js:88 | a one-line non-blank piece ahead of a blank line is the first message of its chunk |
| SseClient.FrameMessage | src/api/routes.py:25 | a server frame with a one-line payload is read as exactly one message |
| SseClient.BodyRoundTrip | src/api/routes.py:13-25 | a stream body read as one chunk yields one `message` event per frame, in order, carrying the parsed payload |
| SseClient.ServerErrorArrivesAsMessage | src/api/routes.py:26-28 | a failed run reaches the page as an ordinary `message` event after the earlier steps' events, not as an `error` event |
| SseClient.SplitFrameIsLost | nextjs-app/pages/index.js:86-88 | a frame cut by a chunk boundary inside its `data: ` prefix is lost: neither half yields an event |
| SseClient.CutInsidePayloadIsLost | nextjs-app/pages/index.js:86-88 | a frame cut inside its payload is lost when the parser rejects the part before the cut and the part after it does not start with `data: ` |
| SseClient.CutHeadIsLost | nextjs-app/pages/index.js:86-88 | the part of a frame before a cut inside its payload yields no event when the parser rejects the payload's prefix |
| SseClient.CutTailIsLost | nextjs-app/pages/index.js:86-88 | the part of a frame after a cut inside its payload yields no event unless it starts with `data: ` |
| SseClient.CutBeforeBlankLineKeepsEvent | nextjs-app/pages/index.js:86-88 | a frame cut just before its closing blank line is not lost: the first half yields the frame's event and the second nothing |
| SseClient.UnparsedDataLineLost | nextjs-app/pages/index.js:24-37 | a chunk holding one `data: ` line whose value does not parse yields no event |
| SseClient.OneLineTailLost | nextjs-app/pages/index.js:86-88 | a one-line chunk ending in a blank line yields nothing unless the line is a `data: ` line |
| SseClient.OneLineChunk | nextjs-app/pages/index.js:86-88 | a chunk that is one non-blank line is one message, whose event, if any, is all the chunk yields |
| SseClient.HeadIsLost | nextjs-app/pages/index.js:86-88 | the first half of a cut frame yields no event |
| SseClient.TailIsLost | nextjs-app/pages/index.js:86-88 | the second half of a cut frame yields no event |
| SseClient.LastDataWins | nextjs-app/pages/index.js:14-20 | with two data lines the page keeps only the second value, where the joined data buffer would hold both |
| SseClient.TwoDataLines | nextjs-app/pages/index.js:14-20 | of the lines `data: a` and `data: b`, the second value wins |
| SseClient.RunReachesPage | src/api/routes.py:13-25 | a completed run's body shows one `message` event per node execution, in the order the nodes ran |
| SseClient.StepsReachPage | src/api/routes.py:20-25 | the same for any sequence of steps |
| LegacyGraph.NormalForm | graph.py:124 | a normalised decision has no capitals and no whitespace at either end |
| LegacyGraph.NormaliseIdempotent | graph.py:124 | normalising a decision again changes nothing |
| LegacyGraph.NormaliseNormal | graph.py:124 | a reply already in normal form is its own decision |
| LegacyGraph.Targets | graph.py:138-143 | the table holds exactly the four labels; only `end` leads to `END`, and no label leads back to the router |
| LegacyGraph.RouterNode | graph.py:102-126 | the router sets `route` to the normalised reply and keeps every other key |
| LegacyGraph.RoutingFunction | graph.py:36-100 | the label returned is already normal; only a label is returned, and no state is written |
| LegacyGraph.LegacyRun | graph.py:128-135 | every run starts with exactly the router's step |
| LegacyGraph.ContinueShape | graph.py:145-153 | after the router, every step is a handler, one per reply at most plus one; an invalid stop names a label outside the table; running out of replies means one handler per reply plus one |
| LegacyGraph.ContinueEffects | graph.py:145-153 | after the router, every step is its handler's effect on the state the step before it left |
| LegacyGraph.RouterRunsOnceFirst | graph.py:135-153 | the router runs exactly once, first; each later handler follows the one before it directly |
| LegacyGraph.RouteKeepsFirstDecision | graph.py:145-153 | when handlers leave `route` alone, every later state keeps the routed value: routing calls write no state |
| LegacyGraph.RunKeepsRouterDecision | graph.py:126-153 | the same over a whole run: every state holds the router's normalised reply |
| LegacyGraph.HandlerThen | graph.py:151-153 | a handler choice with a reply left runs the handler, and the normalised reply picks what follows |
| LegacyGraph.ZoomThenDebriefDirectly | graph.py:145-153 | a router reply that normalises to `zoom`, then `debrief`, then `end` runs zoom and debrief back to back and reaches `END` with no node between them |
| LegacyGraph.DebriefThenEnd | graph.py:142-152 | from `debrief` with the reply `end`: debrief runs, then `END` |
| LegacyGraph.PaddedEndNormalises | graph.py:124 | a padded capitalised `END` normalises to `end` |
| LegacyGraph.PaddedEndFinishes | graph.py:124-149 | a padded capitalised `END` from the router goes straight to `END` |
| LegacyGraph.UnknownChoiceStops | graph.py:138-149 | a reply outside the table, such as `zoom.`, raises after the router, ending the run |
| LegacyGraph.InvalidChoiceStops | graph.py:138-149 | any router reply whose normal form is not in the table raises after the router, ending the run with that form named |
| Text.ContainsIffOccurs | tools/zoom_tools.py:114 | Python's `in` on strings holds exactly when the substring occurs at some position |
| Text.SplitAny | nextjs-app/pages/index.js:10 | splitting gives at least one piece, and no piece contains a separator |
| Text.SplitThenJoin | nextjs-app/pages/index.js:10 | joining the pieces of a split with the separator gives back the text |
| Text.JoinThenSplit | tools/zoom_tools.py:80 | splitting lines joined by a separator gives back those lines |
| Text.SplitOnThenJoin | nextjs-app/pages/index.js:88 | joining the pieces of a split on a string with that string gives back the text |
| Text.SplitOnFirstPiece | nextjs-app/pages/index.js:88 | a piece free of the separator's first character, followed by the separator, is the first piece |
| Text.Strip | tools/zoom_tools.py:66 | `strip()` yields text that neither starts nor ends with whitespace and sits in its input at the offset of the leading whitespace, with only whitespace before and after it |
| Text.StripIsSlice | tools/zoom_tools.py:66 | what `strip()` yields is a contiguous piece of the input with only whitespace before and after it: nothing else is removed |
| Text.StripIdempotent | tools/zoom_tools.py:66 | stripping twice strips nothing more |
| Text.Lower | graph.py:124 | ASCII `lower()` keeps the length and lowers each character |
| Text.NatToStringRoundTrip | src/graph.py:59-61 | the decimal rendering of a count reads back as the count |

## Left out

- DebriefAgent.LoadTranscript: a path that exists but cannot be read raises in the source. A
  directory raises `IsADirectoryError` and a file that is not UTF-8 raises `UnicodeDecodeError`
  (utils/get_transcript.py:11-15). The run then ends through the error frame. The model knows
  only readable files and answers such a path with the marker. The marker also shows the path as
  given, where the source prints the normalised `Path`: repeated slashes and `.` segments
  collapse and a trailing slash goes. The file system is an input here, and path normalisation is
  not modelled.
- JsonText.Json: JSON numbers are integers here. A fractional number in a model reply, such as
  `"overall_rating": 7.5`, has no value in this model.
- The language-model calls and their prompts. Each node's structured answer, the router's reply
  and the routing calls' replies are inputs. The prompts' routing "rules" are instructions to a
  model, not code, so no deterministic policy is derived from them.
- HTTP, OAuth and the file system. The token grant, the meeting listing with each meeting's
  recording files, and the readable files are inputs.
- `download_file` and the writing of files are not modelled. The cleaned text is the value
  `process_transcript` would write.
- The percent-encoding of a meeting's `uuid` is not modelled. It only builds a URL.
- The `page_size=30` limit of the listing is not modelled: the listing is whatever the server
  returned.
- Async execution, cancellation and the page's abort handling are not modelled. An aborted
  request shows no error event; the model only covers failures other than an abort.
- A `step_summary` of `null` in the request context is not modelled: the log is a list. A
  `route` of `null` and a missing `route` are one value, since no node reads `route` before the
  supervisor has written it.
- ZoomTools.FindTranscript: the source raises where the model answers `Ok` or `Err`. A `null` topic
  makes `.strip()` fail (tools/zoom_tools.py:109). A matching meeting with a missing or `null`
  `uuid` makes `urllib.parse.quote` fail (line 118). A `null` `meetings` or `recording_files`
  list cannot be iterated (lines 107 and 127). The model has no `null` for these fields and no
  uuid, so it covers only listings where they are present. A missing topic reads as `""`, as
  `.get("topic", "")` gives. For `id`, `file_type` and `download_url`, a missing key and `null`
  are one value, since the source only renders or tests them.
- A meeting `id` is a string here. The listing gives a number, which the f-string renders the
  same way.
- Python's `\d` and `str.lower()` are Unicode-aware; here they are ASCII digits and ASCII
  capitals.
- `time.time()` is a float; here the clock is an integer number of seconds.
- A topic containing `/` would put the download in a subdirectory; file paths are plain text
  here.
- Serialising a node's payload (`model_dump_json`) is a parameter, and so is the order of keys
  in JSON objects. The `{"error": ...}` frame is serialised exactly, through `json.dumps`
  string escaping.
- LangGraph's `updates` stream is taken to report each node's return value as that node's
  payload. The library itself is not part of this model.
- LangGraph's own recursion limit (`GraphRecursionError` after 25 super-steps by default) is
  not modelled; a run is bounded by the length of its script.
- The request `context` may carry keys outside `AgentState`; only the declared keys are modelled.
- The page calls the query endpoint with GET and a query parameter, while the route accepts
  POST with a JSON body. The model joins the two at the response body, and does not model the
  request.
- The UI rendering of the page and the other front ends are not modelled.
- The Notion tools and the settings module are not modelled.
- A model reply whose content is a list, which LangChain allows, is not modelled: content is a
  dictionary or a text.
- `routing_function` in `graph.py` prints and prompts, but its only output is the label.
  Returning a label, never a state, is a fact about types, and the lemmas about the route field
  state it.
- LegacyGraph.LegacyRun: the handler nodes of `graph.py` come from modules that are not part of
  this model. Their effect on the state is a parameter.
- ZoomTools.Kept: its own contract bounds only the length. Its contents are stated by
  `KeptClean`, `KeptMembers` and `KeptFixed`.
- SseClient.CutInsidePayloadIsLost: holds only under its two hypotheses. A parser that accepts a
  proper prefix of the payload, or a payload whose remainder after the cut starts with `data: `,
  makes a half yield an event. A cut between the two closing line feeds is not stated.
- SseClient.Collect: its own contract bounds only the length. The events a frame yields are
  stated by `DataLineParses`, `NoDataNoEvent` and `BodyRoundTrip`.
