/**
 The transcript-retrieval node (`src/agents/zoom_agent.py`): the request it
 hands to its inner agent and the fallback chain for `transcript_path`. The
 inner agent's structured answer is a parameter.
 */
module ZoomAgent {
  import opened Wrappers
  import opened State

  /** The structured answer `ZoomAgentOutput`. */
  datatype ZoomOutput = ZoomOutput(transcriptPath: string, nextStep: string, stepSummary: string)

  const PlaceholderPath: string := "/tmp/placeholder.txt"

  /**
   `transcript_url or state.get("transcript_path") or "/tmp/placeholder.txt"`:
   the first non-empty of the reported path, the existing path and the
   placeholder. The result is never empty, and an existing non-empty path is
   never traded for the placeholder.
   */
  function ResolveTranscriptPath(reported: string, existing: Field): (path: string)
    ensures path != ""
    ensures reported != "" ==> path == reported
    ensures reported == "" && Truthy(existing) ==> path == existing.value
    ensures reported == "" && !Truthy(existing) ==> path == PlaceholderPath
    ensures path == PlaceholderPath ==> reported == PlaceholderPath || !Truthy(existing) || existing.value == PlaceholderPath
  {
    if reported != "" then reported
    else if Truthy(existing) then existing.value
    else PlaceholderPath
  }

  /**
   The one message the inner agent receives, `f"{state.get('last_user_message')}"`:
   the user's message, or the word `None` when it is absent or `None`.
   */
  function ZoomRequest(s: AgentState): (message: string)
    ensures s.lastUserMessage.Str? ==> message == s.lastUserMessage.value
    ensures !s.lastUserMessage.Str? ==> message == "None"
  {
    Render(s.lastUserMessage)
  }

  /** The request depends on `last_user_message` only; `next_step` in particular is not passed on. */
  lemma RequestReadsOnlyUserMessage(s: AgentState, t: AgentState)
    requires s.lastUserMessage == t.lastUserMessage
    ensures ZoomRequest(s) == ZoomRequest(t)
  {
  }

  /**
   The node's return value: `transcript_path` and `next_step` are written,
   exactly one log entry is contributed, and everything else (`route` and the
   debrief fields included) passes through.
   */
  function ZoomUpdate(s: AgentState, out: ZoomOutput): (u: Update)
    ensures u.values.transcriptPath == Str(ResolveTranscriptPath(out.transcriptPath, s.transcriptPath))
    ensures Truthy(u.values.transcriptPath)
    ensures u.values.nextStep == Str(out.nextStep)
    ensures u.values.stepSummary == [out.stepSummary]
    ensures SameOutside(u.values, s, {TranscriptPath, NextStep})
    ensures Spreads(u.values, s)
    ensures u.finalSummary == None
  {
    var path := ResolveTranscriptPath(out.transcriptPath, s.transcriptPath);
    Update(s.(transcriptPath := Str(path), nextStep := Str(out.nextStep), stepSummary := [out.stepSummary]), None)
  }
}
