/**
 The orchestration graph of `src/graph.py`: the nodes and edges it declares,
 the `log_summary` finaliser, and a run of the compiled graph as a fold of the
 node updates over the state.

 The language model behind each node is replaced by a script of its structured
 answers, consumed in order. Every visit to the supervisor consumes one routing
 decision, so a run ends when the supervisor routes to `end` or when the script
 runs out (`Stalled`). LangGraph's recursion limit is not modelled; a run is
 bounded by its script.
 */
module Graph {
  import opened Wrappers
  import opened Text
  import opened State
  import opened SupervisorAgent
  import opened ZoomAgent
  import opened DebriefAgent
  import opened NotionAgent

  /** The graph's nodes, with LangGraph's `START` and `END`. */
  datatype Node = Start | SupervisorNode | ZoomNode | DebriefNode | NotionNode | LogSummaryNode | Finish

  /** The three task nodes. */
  predicate IsHandler(n: Node) {
    n == ZoomNode || n == DebriefNode || n == NotionNode
  }

  /** The name each node is registered under (and reported by in the event stream). */
  function NodeName(n: Node): string {
    match n
    case Start => "__start__"
    case SupervisorNode => "supervisor"
    case ZoomNode => "zoom"
    case DebriefNode => "debrief"
    case NotionNode => "notion"
    case LogSummaryNode => "log_summary"
    case Finish => "__end__"
  }

  /**
   The `targets` table of the supervisor's conditional edge: each task route
   leads to the task node of the same name, and `end` leads to `log_summary`,
   never straight to `END`.
   */
  function Target(r: Route): (n: Node)
    ensures r == End <==> n == LogSummaryNode
    ensures r != End ==> IsHandler(n) && NodeName(n) == RouteLabel(r)
  {
    match r
    case Zoom => ZoomNode
    case Debrief => DebriefNode
    case Notion => NotionNode
    case End => LogSummaryNode
  }

  /** Every node the table can name is named by some route. */
  lemma TargetOnto(n: Node)
    requires IsHandler(n) || n == LogSummaryNode
    ensures exists r: Route :: Target(r) == n
  {
    match n
    case ZoomNode => assert Target(Zoom) == n;
    case DebriefNode => assert Target(Debrief) == n;
    case NotionNode => assert Target(Notion) == n;
    case LogSummaryNode => assert Target(End) == n;
  }

  /** The edges the graph declares, the supervisor's conditional edge included. */
  predicate Edge(a: Node, b: Node) {
    || (a == Start && b == SupervisorNode)
    || (a == SupervisorNode && exists r: Route :: Target(r) == b)
    || (IsHandler(a) && b == SupervisorNode)
    || (a == LogSummaryNode && b == Finish)
  }

  /**
   The shape of the graph: only the supervisor dispatches to a task node, every
   task node returns to the supervisor (so no task node leads to another), and
   `END` is reached from `log_summary` alone.
   */
  lemma {:induction false} Topology(a: Node, b: Node)
    ensures IsHandler(b) ==> (Edge(a, b) <==> a == SupervisorNode)
    ensures IsHandler(a) ==> (Edge(a, b) <==> b == SupervisorNode)
    ensures IsHandler(a) && IsHandler(b) ==> !Edge(a, b)
    ensures Edge(a, Finish) <==> a == LogSummaryNode
    ensures Edge(a, b) ==> b != Start
  {
    if a == SupervisorNode && (IsHandler(b) || b == LogSummaryNode) {
      TargetOnto(b);
    }
  }

  /** The lines of the final report after its header: `"i. s_i\n"` for each entry, counting from `k`. */
  function ReportLines(log: seq<string>, k: nat): string {
    if |log| == 0 then "" else HistoryLine(k, log[0]) + "\n" + ReportLines(log[1..], k + 1)
  }

  function ReportHeader(n: nat): string {
    "Pipeline completed with " + NatToString(n) + " steps:\n"
  }

  /** `summary_text` of `log_final_summary`: a header giving the number of entries, then one numbered line each. */
  function FinalSummaryText(log: seq<string>): string {
    ReportHeader(|log|) + ReportLines(log, 1)
  }

  lemma {:induction false} ReportLinesAppend(log: seq<string>, x: string, k: nat)
    ensures ReportLines(log + [x], k) == ReportLines(log, k) + HistoryLine(k + |log|, x) + "\n"
    decreases |log|
  {
    if |log| > 0 {
      assert (log + [x])[1..] == log[1..] + [x];
      ReportLinesAppend(log[1..], x, k + 1);
    }
  }

  lemma {:induction false} ReportLinesAreHistory(log: seq<string>, k: nat)
    requires |log| > 0
    ensures ReportLines(log, k) == Join(NumberFrom(log, k), "\n") + "\n"
    decreases |log|
  {
    var lines := NumberFrom(log, k);
    assert lines[0] == HistoryLine(k, log[0]);
    if |log| > 1 {
      ReportLinesAreHistory(log[1..], k + 1);
      assert lines[1..] == NumberFrom(log[1..], k + 1);
    }
  }

  /**
   The final report numbers the entries exactly as the supervisor's history
   block does, one line per entry with a newline after each.
   */
  lemma FinalSummaryMatchesHistory(log: seq<string>)
    ensures |log| == 0 ==> FinalSummaryText(log) == ReportHeader(0)
    ensures |log| > 0 ==> FinalSummaryText(log) == ReportHeader(|log|) + HistoryText(log) + "\n"
  {
    if |log| > 0 {
      ReportLinesAreHistory(log, 1);
    }
  }

  /** The report built line by line, as `log_final_summary` builds it. */
  method RenderFinalSummary(log: seq<string>) returns (text: string)
    ensures text == FinalSummaryText(log)
  {
    text := ReportHeader(|log|);
    var i := 0;
    while i < |log|
      invariant 0 <= i <= |log|
      invariant text == ReportHeader(|log|) + ReportLines(log[..i], 1)
    {
      ReportLinesAppend(log[..i], log[i], 1);
      assert log[..i + 1] == log[..i] + [log[i]];
      text := text + HistoryLine(i + 1, log[i]) + "\n";
      i := i + 1;
    }
    assert log[..i] == log;
  }

  /**
   The return value of `log_final_summary`: the whole state, its entire log
   as the `step_summary` fragment, and the report as `final_summary`. Under the
   concatenating reducer the log is appended to itself rather than kept, so
   the merged log has twice as many entries; nothing else changes.
   */
  function LogSummaryUpdate(s: AgentState): (u: Update)
    ensures u.finalSummary == Some(FinalSummaryText(s.stepSummary))
    ensures Merge(s, u).stepSummary == s.stepSummary + s.stepSummary
    ensures |Merge(s, u).stepSummary| == 2 * |s.stepSummary|
    ensures SameOutside(Merge(s, u), s, {})
  {
    Update(s, Some(FinalSummaryText(s.stepSummary)))
  }

  /** The scripted structured answers of each node's model, consumed in order. */
  datatype Script = Script(
    decisions: seq<SupervisorOutput>,
    zoom: seq<ZoomOutput>,
    debrief: seq<DebriefOutput>,
    notion: seq<NotionOutput>)

  /** `Completed`: the run reached `END`. `Stalled`: the script ran out first. */
  datatype Outcome = Completed | Stalled

  /** One node execution: the node, what it returned, and the state after the merge. */
  datatype Step = Step(node: Node, update: Update, after: AgentState)

  datatype Trace = Trace(steps: seq<Step>, outcome: Outcome)

  function Prepend(first: Step, second: Step, rest: Trace): Trace {
    Trace([first, second] + rest.steps, rest.outcome)
  }

  /** The keys each node writes; every other declared key passes through it. */
  function Owned(n: Node): set<Key> {
    match n
    case SupervisorNode => {RouteKey, NextStep}
    case ZoomNode => {TranscriptPath, NextStep}
    case DebriefNode => {Summary, Todo, Feedback}
    case NotionNode => {NotionParentId, NextStep, RouteKey}
    case _ => {}
  }

  /**
   The task node the supervisor routed to runs on its next scripted answer;
   `None` when the script holds no answer for it. The step writes only the
   node's own keys and contributes exactly one log entry.
   */
  function HandlerStep(s: AgentState, route: Route, sc: Script): (r: Option<(Step, Script)>)
    requires route != End
    ensures r.Some? ==> var (h, rest) := r.value;
      && h.node == Target(route)
      && h.after == Merge(s, h.update)
      && |h.update.values.stepSummary| == 1
      && SameOutside(h.update.values, s, Owned(h.node))
      && Spreads(h.update.values, s)
      && h.update.finalSummary == None
      && rest.decisions == sc.decisions
    ensures r.None? <==> (route == Zoom && |sc.zoom| == 0) || (route == Debrief && |sc.debrief| == 0)
                         || (route == Notion && |sc.notion| == 0)
  {
    match route
    case Zoom =>
      if |sc.zoom| == 0 then None
      else
        var u := ZoomUpdate(s, sc.zoom[0]);
        Some((Step(ZoomNode, u, Merge(s, u)), sc.(zoom := sc.zoom[1..])))
    case Debrief =>
      if |sc.debrief| == 0 then None
      else
        var u := DebriefUpdate(s, sc.debrief[0]);
        Some((Step(DebriefNode, u, Merge(s, u)), sc.(debrief := sc.debrief[1..])))
    case Notion =>
      if |sc.notion| == 0 then None
      else
        var u := NotionUpdate(s, sc.notion[0]);
        Some((Step(NotionNode, u, Merge(s, u)), sc.(notion := sc.notion[1..])))
  }

  /**
   A run from the supervisor: the supervisor writes `route`, the run follows
   the `targets` entry for it, and every task node hands back to the
   supervisor; `end` runs `log_summary` and stops.
   */
  function Run(s: AgentState, sc: Script): (t: Trace)
    ensures |t.steps| <= 2 * |sc.decisions|
    ensures |t.steps| > 0 <==> |sc.decisions| > 0
    ensures |t.steps| > 0 ==> t.steps[0].node == SupervisorNode
    decreases |sc.decisions|
  {
    if |sc.decisions| == 0 then Trace([], Stalled)
    else
      var u := SupervisorUpdate(s, sc.decisions[0]);
      var s1 := Merge(s, u);
      var routed := Step(SupervisorNode, u, s1);
      var route := s1.route.value;
      if route == End then
        var u2 := LogSummaryUpdate(s1);
        Trace([routed, Step(Target(route), u2, Merge(s1, u2))], Completed)
      else
        match HandlerStep(s1, route, sc.(decisions := sc.decisions[1..]))
        case None => Trace([routed], Stalled)
        case Some((h, rest)) => Prepend(routed, h, Run(h.after, rest))
  }
}
