/**
 The query endpoint of `src/api/routes.py`: the state a run starts from, and
 the body it streams, one `data: …` frame per node update followed, when the
 run raises, by one error frame. Serialising a node's payload is a parameter;
 the error message is serialised as `json.dumps` does it.
 */
module ApiStream {
  import opened Wrappers
  import opened Text
  import opened State
  import opened Graph
  import opened JsonText
  import opened SupervisorAgent

  /**
   The optional `context` of a request: for each text key, whether the
   dictionary leaves it out, sends `null`, or sends a string. A `route` of
   `null` and a missing one are the same state value; a `step_summary` of
   `null` is not modelled.
   */
  datatype RequestContext = RequestContext(
    lastUserMessage: Field,
    meetingName: Field,
    transcriptPath: Field,
    transcript: Field,
    summary: Field,
    todo: Field,
    feedback: Field,
    notionParentId: Field,
    route: Option<Route>,
    stepSummary: Option<seq<string>>,
    nextStep: Field)

  /** A request without `context` (or with an empty one). */
  const NoContext := RequestContext(Absent, Absent, Absent, Absent, Absent, Absent, Absent, Absent, None, None, Absent)

  /**
   `{"last_user_message": query, "step_summary": [], **context}`: the query and
   an empty log, then every key the context carries, which wins over both,
   even when it carries `null`.
   */
  function InitialState(query: string, ctx: RequestContext): (s: AgentState)
    ensures ctx.lastUserMessage.Absent? ==> s.lastUserMessage == Str(query)
    ensures !ctx.lastUserMessage.Absent? ==> s.lastUserMessage == ctx.lastUserMessage
    ensures !s.lastUserMessage.Absent?
    ensures s.stepSummary == ctx.stepSummary.GetOr([])
    ensures s.meetingName == ctx.meetingName && s.transcriptPath == ctx.transcriptPath
    ensures s.transcript == ctx.transcript && s.summary == ctx.summary && s.todo == ctx.todo
    ensures s.feedback == ctx.feedback && s.notionParentId == ctx.notionParentId
    ensures s.route == ctx.route && s.nextStep == ctx.nextStep
  {
    AgentState(
      if ctx.lastUserMessage.Absent? then Str(query) else ctx.lastUserMessage,
      ctx.meetingName, ctx.transcriptPath, ctx.transcript, ctx.summary, ctx.todo, ctx.feedback,
      ctx.notionParentId, ctx.route, ctx.stepSummary.GetOr([]), ctx.nextStep)
  }

  /** Without a context a run starts from the query and an empty log alone. */
  lemma NoContextStart(query: string)
    ensures InitialState(query, NoContext) == EmptyState.(lastUserMessage := Str(query))
    ensures InitialState(query, NoContext).stepSummary == []
  {
  }

  /**
   What the supervisor is told the user asked: the query when the context
   leaves `last_user_message` out, the context's string when it sends one, and
   the word `None` when it sends `null`.
   */
  lemma InstructionFromRequest(query: string, ctx: RequestContext)
    ensures var shown := BuildContext(InitialState(query, ctx)).instruction;
      && (ctx.lastUserMessage.Absent? ==> shown == query)
      && (ctx.lastUserMessage.Null? ==> shown == "None")
      && (ctx.lastUserMessage.Str? ==> shown == ctx.lastUserMessage.value)
  {
  }

  /** One server-sent frame: a single `data: ` field and a blank line. */
  function Frame(json: string): (frame: string)
    ensures StartsWith(frame, "data: ") && EndsWith(frame, "\n\n")
    ensures |frame| == |json| + 8 && frame[6..|frame| - 2] == json
  {
    var frame := "data: " + json + "\n\n";
    assert frame[..6] == "data: ";
    assert frame[|frame| - 2..] == "\n\n";
    frame
  }

  /** `model_dump_json()` of `QueryResponse(node=…, payload=…)`, the payload already serialised. */
  function EventJson(node: string, payload: string): string {
    "{\"node\":\"" + node + "\",\"payload\":" + payload + "}"
  }

  /** `json.dumps({"error": message})`. */
  function ErrorJson(message: string): (json: string)
    ensures forall i :: 0 <= i < |json| ==> Printable(json[i])
  {
    "{\"error\": " + Quote(message) + "}"
  }

  /** One event per step of the run, in stream order, each naming its node. */
  function RunEvents(steps: seq<Step>, dump: Update -> string): (events: seq<string>)
    ensures |events| == |steps|
    ensures forall k :: 0 <= k < |steps| ==> events[k] == EventJson(NodeName(steps[k].node), dump(steps[k].update))
  {
    seq(|steps|, k requires 0 <= k < |steps| => EventJson(NodeName(steps[k].node), dump(steps[k].update)))
  }

  /**
   The frames of `generate_stream`: one per event, in order, and when the run
   raised, exactly one error frame, after all the others.
   */
  function Frames(events: seq<string>, failure: Option<string>): (frames: seq<string>)
    ensures |frames| == |events| + (if failure.Some? then 1 else 0)
    ensures forall k :: 0 <= k < |events| ==> frames[k] == Frame(events[k])
    ensures failure.Some? ==> frames[|frames| - 1] == Frame(ErrorJson(failure.value))
  {
    seq(|events|, k requires 0 <= k < |events| => Frame(events[k]))
      + (if failure.Some? then [Frame(ErrorJson(failure.value))] else [])
  }

  /** The response body: the frames back to back. */
  function Body(events: seq<string>, failure: Option<string>): string {
    Concat(Frames(events, failure))
  }

  /** The error frame is one line of printable ASCII: the message cannot break the framing. */
  lemma ErrorFrameIsOneLine(message: string)
    ensures var f := Frame(ErrorJson(message));
      f == "data: " + ErrorJson(message) + "\n\n" && Free(ErrorJson(message), {'\n', '\r'})
  {
  }

  /** The message in the error frame decodes back to the exception text. */
  lemma ErrorMessageRecoverable(message: string)
    ensures var j := ErrorJson(message);
      StartsWith(j, "{\"error\": \"") && EndsWith(j, "\"}")
      && Unescape(j[|"{\"error\": \""|..|j| - 2]) == Some(message)
  {
    var j := ErrorJson(message);
    var e := Escape(message);
    assert j == "{\"error\": \"" + e + "\"}";
    assert j[..|"{\"error\": \""|] == "{\"error\": \"";
    assert j[|j| - 2..] == "\"}";
    assert j[|"{\"error\": \""|..|j| - 2] == e;
    EscapeRoundTrip(message);
  }
}
