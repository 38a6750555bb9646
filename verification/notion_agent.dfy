/**
 The publishing node (`src/agents/notion_agent.py`): the request it sends and
 the update it returns, including the `route` it forces to `end`. The inner
 agent's structured answer is a parameter; the Notion tools are not modelled.
 */
module NotionAgent {
  import opened Wrappers
  import opened Text
  import opened State

  /** The structured answer `NotionAgentOutput`. */
  datatype NotionOutput = NotionOutput(notionParentId: string, nextStep: string, stepSummary: string)

  /**
   The one message the inner agent receives. Each value is rendered with an
   f-string, so a missing value shows as the word `None`.
   */
  function NotionRequest(s: AgentState): (message: string)
    ensures StartsWith(message, "User request:" + Render(s.lastUserMessage) + ",Current step: " + Render(s.nextStep))
    ensures Contains(message, ",summary: " + Render(s.summary) + ",todo: " + Render(s.todo))
    ensures EndsWith(message, ",feedback: " + Render(s.feedback))
  {
    var head := "User request:" + Render(s.lastUserMessage) + ",Current step: " + Render(s.nextStep);
    var middle := ",summary: " + Render(s.summary) + ",todo: " + Render(s.todo);
    var tail := ",feedback: " + Render(s.feedback);
    var message := head + middle + tail;
    assert message[..|head|] == head;
    assert message[|head + middle|..] == tail;
    assert OccursAt(message, middle, |head|) by {
      assert message[|head|..|head| + |middle|] == middle;
    }
    ContainsIffOccurs(message, middle);
    message
  }

  /**
   The node's return value: `notion_parent_id` and `next_step` are written,
   `route` is set to `end` whatever the answer, exactly one log entry is
   contributed, and `summary`, `todo`, `feedback` and `transcript_path` pass
   through.
   */
  function NotionUpdate(s: AgentState, out: NotionOutput): (u: Update)
    ensures u.values.notionParentId == Str(out.notionParentId)
    ensures u.values.nextStep == Str(out.nextStep)
    ensures u.values.route == Some(End)
    ensures u.values.stepSummary == [out.stepSummary]
    ensures SameOutside(u.values, s, {NotionParentId, NextStep, RouteKey})
    ensures Spreads(u.values, s)
    ensures u.finalSummary == None
  {
    Update(s.(notionParentId := Str(out.notionParentId), nextStep := Str(out.nextStep), route := Some(End),
              stepSummary := [out.stepSummary]), None)
  }
}
