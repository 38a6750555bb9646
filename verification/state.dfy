/**
 The shared workflow state of the orchestrator (`AgentState` in `src/graph.py`)
 and the rule by which a node's returned dictionary is merged into it.

 Every key of the Python `TypedDict` is optional (`total=False`). A text key
 is absent, present and `None`, or present with a string: `.get(key, "")`
 tells the first two apart. `route` is absent-or-`None` as one value, since
 no node reads it before the supervisor has written it. `step_summary`
 carries the reducer `operator.add`, so it is a plain sequence whose default
 is `[]`.
 */
module State {
  import opened Wrappers

  /** The four values of the `route` literal. */
  datatype Route = Zoom | Debrief | Notion | End

  /** The literal each route is written as. */
  function RouteLabel(r: Route): (literal: string)
    ensures literal in {"zoom", "debrief", "notion", "end"}
  {
    match r
    case Zoom => "zoom"
    case Debrief => "debrief"
    case Notion => "notion"
    case End => "end"
  }

  /** A text key of the state: not in the dictionary, present and `None`, or present with a string. */
  datatype Field = Absent | Null | Str(value: string)

  /** The declared keys of `AgentState`. */
  datatype AgentState = AgentState(
    lastUserMessage: Field,
    meetingName: Field,
    transcriptPath: Field,
    transcript: Field,
    summary: Field,
    todo: Field,
    feedback: Field,
    notionParentId: Field,
    route: Option<Route>,
    stepSummary: seq<string>,
    nextStep: Field)

  /** The state with no key set. */
  const EmptyState := AgentState(Absent, Absent, Absent, Absent, Absent, Absent, Absent, Absent, None, [], Absent)

  /** Python truthiness of a text key: present, not `None` and not empty. */
  predicate Truthy(f: Field) {
    f.Str? && f.value != ""
  }

  /** `f"{state.get(key, '')}"`: an absent key reads as `""`, a `None` one is rendered as the word `None`. */
  function TextOf(f: Field): (text: string)
    ensures f.Absent? ==> text == ""
    ensures f.Null? ==> text == "None"
    ensures f.Str? ==> text == f.value
  {
    match f
    case Absent => ""
    case Null => "None"
    case Str(t) => t
  }

  /** `f"{state.get(key)}"`: absent and `None` alike are rendered as the word `None`. */
  function Render(f: Field): (text: string)
    ensures !f.Str? ==> text == "None"
    ensures f.Str? ==> text == f.value
  {
    if f.Str? then f.value else "None"
  }

  /**
   What a node returns. `values` holds the declared keys it writes (`None` for
   a key it does not write; its `stepSummary` is the fragment handed to the
   reducer). `finalSummary` is the one key a node returns that `AgentState`
   does not declare.
   */
  datatype Update = Update(values: AgentState, finalSummary: Option<string>)

  /** A written key replaces the current value; an unwritten key keeps it. */
  function Overwrite<T>(incoming: Option<T>, current: Option<T>): Option<T> {
    if incoming.Some? then incoming else current
  }

  /** The same for a text key: a key written as `None` is written too. */
  function OverwriteField(incoming: Field, current: Field): (r: Field)
    ensures incoming.Absent? ==> r == current
    ensures !incoming.Absent? ==> r == incoming
  {
    if incoming.Absent? then current else incoming
  }

  /**
   The state after a node's update: `step_summary` is extended by the fragment
   (`operator.add`), every other declared key takes the written value, and the
   undeclared `final_summary` is not kept.
   */
  function Merge(s: AgentState, u: Update): (r: AgentState)
    ensures r.stepSummary == s.stepSummary + u.values.stepSummary
    ensures s.stepSummary <= r.stepSummary
  {
    var v := u.values;
    AgentState(
      OverwriteField(v.lastUserMessage, s.lastUserMessage),
      OverwriteField(v.meetingName, s.meetingName),
      OverwriteField(v.transcriptPath, s.transcriptPath),
      OverwriteField(v.transcript, s.transcript),
      OverwriteField(v.summary, s.summary),
      OverwriteField(v.todo, s.todo),
      OverwriteField(v.feedback, s.feedback),
      OverwriteField(v.notionParentId, s.notionParentId),
      Overwrite(v.route, s.route),
      s.stepSummary + v.stepSummary,
      OverwriteField(v.nextStep, s.nextStep))
  }

  /**
   Every key present in `s` is present in `v`: the shape of a node's
   `{**state, ...}` return value.
   */
  predicate Spreads(v: AgentState, s: AgentState) {
    && (!s.lastUserMessage.Absent? ==> !v.lastUserMessage.Absent?)
    && (!s.meetingName.Absent? ==> !v.meetingName.Absent?)
    && (!s.transcriptPath.Absent? ==> !v.transcriptPath.Absent?)
    && (!s.transcript.Absent? ==> !v.transcript.Absent?)
    && (!s.summary.Absent? ==> !v.summary.Absent?)
    && (!s.todo.Absent? ==> !v.todo.Absent?)
    && (!s.feedback.Absent? ==> !v.feedback.Absent?)
    && (!s.notionParentId.Absent? ==> !v.notionParentId.Absent?)
    && (s.route.Some? ==> v.route.Some?)
    && (!s.nextStep.Absent? ==> !v.nextStep.Absent?)
  }

  /**
   Merging a full-state return value: every declared key takes the returned
   value and only `step_summary` accumulates.
   */
  lemma MergeSpread(s: AgentState, u: Update)
    requires Spreads(u.values, s)
    ensures Merge(s, u) == u.values.(stepSummary := s.stepSummary + u.values.stepSummary)
  {
  }

  /** Handing the state back with an empty log fragment changes nothing. */
  lemma MergeUnchanged(s: AgentState, finalSummary: Option<string>)
    ensures Merge(s, Update(s.(stepSummary := []), finalSummary)) == s
  {
    assert s.stepSummary + [] == s.stepSummary;
  }

  /** `final_summary` never reaches the state: it is not a declared key. */
  lemma MergeDropsFinalSummary(s: AgentState, u: Update)
    ensures Merge(s, u) == Merge(s, u.(finalSummary := None))
  {
  }

  /** The declared keys other than `step_summary`, which only ever accumulates. */
  datatype Key =
    | LastUserMessage | MeetingName | TranscriptPath | Transcript | Summary
    | Todo | Feedback | NotionParentId | RouteKey | NextStep

  /** `a` and `b` hold the same value for key `k`. */
  predicate SameAt(a: AgentState, b: AgentState, k: Key) {
    match k
    case LastUserMessage => a.lastUserMessage == b.lastUserMessage
    case MeetingName => a.meetingName == b.meetingName
    case TranscriptPath => a.transcriptPath == b.transcriptPath
    case Transcript => a.transcript == b.transcript
    case Summary => a.summary == b.summary
    case Todo => a.todo == b.todo
    case Feedback => a.feedback == b.feedback
    case NotionParentId => a.notionParentId == b.notionParentId
    case RouteKey => a.route == b.route
    case NextStep => a.nextStep == b.nextStep
  }

  /** `a` and `b` agree on every key outside `written`. */
  predicate SameOutside(a: AgentState, b: AgentState, written: set<Key>) {
    forall k: Key :: k !in written ==> SameAt(a, b, k)
  }

  /**
   A return value that copies the state outside its written keys, and writes
   those keys, leaves the merged state equal to the old one outside them.
   */
  lemma {:induction false} MergeKeepsUnwritten(s: AgentState, u: Update, written: set<Key>)
    requires SameOutside(u.values, s, written)
    ensures SameOutside(Merge(s, u), s, written)
  {
    forall k: Key | k !in written ensures SameAt(Merge(s, u), s, k) {
      assert SameAt(u.values, s, k);
    }
  }
}
