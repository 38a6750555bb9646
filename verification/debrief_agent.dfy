/**
 The debrief node (`src/agents/debrief_agent.py`): which transcript text it
 loads, the request it sends, and the update it returns. The model's parsed
 answer is a parameter; the file system is a map from path to file contents.
 */
module DebriefAgent {
  import opened Wrappers
  import opened Text
  import opened State

  /** The structured answer `DebriefAgentOutput`. */
  datatype DebriefOutput = DebriefOutput(summary: string, todo: string, feedback: string, stepSummary: string)

  /** The readable files, by path. */
  type Files = map<string, string>

  /**
   `load_transcript` (`utils/get_transcript.py`): the file's text, or a marker
   naming the path when there is no such file. A path that exists but cannot
   be read is not represented: `files` holds only the readable files.
   */
  function LoadTranscript(files: Files, path: string): (text: string)
    ensures path in files ==> text == files[path]
    ensures path !in files ==> text == "[Transcript unavailable: " + path + "]"
  {
    if path in files then files[path] else "[Transcript unavailable: " + path + "]"
  }

  /**
   The transcript text the node works from: the loaded file when
   `transcript_path` is set and non-empty, otherwise a fixed notice. The node
   never refuses to run for lack of a transcript.
   */
  function TranscriptText(s: AgentState, files: Files): (text: string)
    ensures Truthy(s.transcriptPath) ==> text == LoadTranscript(files, s.transcriptPath.value)
    ensures !Truthy(s.transcriptPath) ==> text == "No transcript provided"
  {
    if Truthy(s.transcriptPath) then LoadTranscript(files, s.transcriptPath.value) else "No transcript provided"
  }

  /** The user message of the request: the task is `next_step` (`""` when absent, `None` when it holds `None`), followed by the transcript. */
  function DebriefRequest(s: AgentState, files: Files): (message: string)
    ensures StartsWith(message, "Current task: " + TextOf(s.nextStep) + "\n")
    ensures EndsWith(message, "Transcript:\n" + TranscriptText(s, files))
  {
    var task := "Current task: " + TextOf(s.nextStep) + "\n";
    var body := "Transcript:\n" + TranscriptText(s, files);
    assert (task + "\n\n " + body)[..|task|] == task;
    assert (task + "\n\n " + body)[|task + "\n\n "|..] == body;
    task + "\n\n " + body
  }

  /**
   The node's return value: `summary`, `todo` and `feedback` are written,
   exactly one log entry is contributed, and `transcript_path`, `route`,
   `notion_parent_id` and the rest pass through.
   */
  function DebriefUpdate(s: AgentState, out: DebriefOutput): (u: Update)
    ensures u.values.summary == Str(out.summary)
    ensures u.values.todo == Str(out.todo)
    ensures u.values.feedback == Str(out.feedback)
    ensures u.values.stepSummary == [out.stepSummary]
    ensures SameOutside(u.values, s, {Summary, Todo, Feedback})
    ensures Spreads(u.values, s)
    ensures u.finalSummary == None
  {
    Update(s.(summary := Str(out.summary), todo := Str(out.todo), feedback := Str(out.feedback),
              stepSummary := [out.stepSummary]), None)
  }
}
