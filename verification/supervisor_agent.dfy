/**
 The supervisor node (`src/agents/supervisor_agent.py`): the workflow facts it
 puts in front of the routing model, and the update it returns once the model
 has answered. The model's structured answer is a parameter.
 */
module SupervisorAgent {
  import opened Wrappers
  import opened Text
  import opened State

  /** The structured answer `SupervisorAgentOutput`; `route` is one of the four literals by construction. */
  datatype SupervisorOutput = SupervisorOutput(route: Route, nextStep: string, reasoning: string, stepSummary: string)

  function YesNo(b: bool): (word: string)
    ensures word in {"Yes", "No"}
    ensures word == "Yes" <==> b
  {
    if b then "Yes" else "No"
  }

  /** The workflow facts the supervisor's prompt reports, each as the text the prompt shows. */
  datatype Context = Context(
    instruction: string,
    meetingName: string,
    transcriptAvailable: string,
    summaryGenerated: string,
    todoGenerated: string,
    feedbackGenerated: string,
    notionPageCreated: string,
    history: string)

  /** The numbered history line for the `k`-th step. */
  function HistoryLine(k: nat, step: string): string {
    NatToString(k) + ". " + step
  }

  /** The steps of `log`, numbered consecutively from `k` in list order. */
  function NumberFrom(log: seq<string>, k: nat): (lines: seq<string>)
    ensures |lines| == |log|
    ensures forall i :: 0 <= i < |log| ==> lines[i] == HistoryLine(k + i, log[i])
  {
    if |log| == 0 then [] else [HistoryLine(k, log[0])] + NumberFrom(log[1..], k + 1)
  }

  /** The "Step Summary History" block: one line `"k. step"` per entry, counting from 1, joined by newlines. */
  function HistoryText(log: seq<string>): string {
    Join(NumberFrom(log, 1), "\n")
  }

  /**
   What the prompt says about the state. Missing keys read as `""` (or `[]`),
   so any sparse state is accepted; a key holding `None` is shown as `None`.
   */
  function BuildContext(s: AgentState): (c: Context)
    ensures c.instruction == TextOf(s.lastUserMessage)
    ensures c.meetingName == (if Truthy(s.meetingName) then s.meetingName.value else "Not specified")
    ensures c.transcriptAvailable == "Yes" <==> Truthy(s.transcriptPath) || Truthy(s.transcript)
    ensures c.summaryGenerated == "Yes" <==> Truthy(s.summary)
    ensures c.todoGenerated == "Yes" <==> Truthy(s.todo)
    ensures c.feedbackGenerated == "Yes" <==> Truthy(s.feedback)
    ensures c.notionPageCreated == "Yes" <==> Truthy(s.notionParentId)
    ensures c.history == HistoryText(s.stepSummary)
    ensures c.transcriptAvailable in {"Yes", "No"} && c.summaryGenerated in {"Yes", "No"} && c.todoGenerated in {"Yes", "No"}
    ensures c.feedbackGenerated in {"Yes", "No"} && c.notionPageCreated in {"Yes", "No"}
  {
    Context(
      TextOf(s.lastUserMessage),
      if Truthy(s.meetingName) then s.meetingName.value else "Not specified",
      YesNo(Truthy(s.transcriptPath) || Truthy(s.transcript)),
      YesNo(Truthy(s.summary)),
      YesNo(Truthy(s.todo)),
      YesNo(Truthy(s.feedback)),
      YesNo(Truthy(s.notionParentId)),
      HistoryText(s.stepSummary))
  }

  /**
   The supervisor's return value `{**state, route, next_step, step_summary}`:
   exactly `route` and `next_step` are written, the log fragment is the one
   structured `step_summary`, and every other key passes through.
   */
  function SupervisorUpdate(s: AgentState, out: SupervisorOutput): (u: Update)
    ensures u.values.route == Some(out.route)
    ensures u.values.nextStep == Str(out.nextStep)
    ensures u.values.stepSummary == [out.stepSummary]
    ensures SameOutside(u.values, s, {RouteKey, NextStep})
    ensures Spreads(u.values, s)
    ensures u.finalSummary == None
  {
    Update(s.(route := Some(out.route), nextStep := Str(out.nextStep), stepSummary := [out.stepSummary]), None)
  }

  /** The routing model's `reasoning` is read and then dropped. */
  lemma ReasoningIsDropped(s: AgentState, out: SupervisorOutput, other: string)
    ensures SupervisorUpdate(s, out) == SupervisorUpdate(s, out.(reasoning := other))
  {
  }

  /**
   Neither the current `route` nor `next_step` reaches the prompt: the
   supervisor decides from the other keys and the log alone.
   */
  lemma ContextIgnoresRouteAndNextStep(s: AgentState, route: Option<Route>, nextStep: Field)
    ensures BuildContext(s.(route := route, nextStep := nextStep)) == BuildContext(s)
  {
  }

  /** The state with no keys at all is read without error. */
  lemma SparseStateAccepted()
    ensures BuildContext(EmptyState) == Context("", "Not specified", "No", "No", "No", "No", "No", "")
  {
  }

  /** The history of a two-step log, spelled out. */
  lemma HistoryOfTwoSteps(a: string, b: string)
    ensures HistoryText([a, b]) == "1. " + a + "\n2. " + b
  {
    assert NatToString(1) == "1" && NatToString(2) == "2";
    assert HistoryLine(1, a) == "1. " + a;
    assert HistoryLine(2, b) == "2. " + b;
    var lines := NumberFrom([a, b], 1);
    assert lines[1..] == [lines[1]];
    assert Join(lines[1..], "\n") == lines[1];
    assert HistoryText([a, b]) == lines[0] + "\n" + lines[1];
  }
}
