/**
 The analysis tools of `src/tools/debrief_tools.py` after the model has
 answered: how a reply is turned into a record. A reply that is already a
 dictionary is returned as it is; a text reply is searched with the regular
 expression `\{.*\}` (dot matching newlines) and the span found is decoded as
 JSON; a text without such a span, or whose span does not decode, yields a
 fixed fallback record that carries the text. A failed model call is raised
 again. JSON decoding itself is a parameter.
 */
module DebriefTools {
  import opened Wrappers
  import opened Text
  import opened JsonText

  /** A JSON object: what every tool returns. */
  type Record = map<string, Json>

  /** The content of the model's reply: a dictionary, or text. */
  datatype Content = Structured(fields: Record) | Text(text: string)

  /** `json.loads` on a span that starts with `{` and ends with `}`: an object, or nothing when it raises. */
  type Decoder = string -> Option<Record>

  /** The first index of `c` in `s`. */
  function FirstIndex(s: string, c: char): (r: Option<nat>)
    ensures r.Some? ==> r.value < |s| && s[r.value] == c && forall k :: 0 <= k < r.value ==> s[k] != c
    ensures r.None? ==> forall k :: 0 <= k < |s| ==> s[k] != c
  {
    if |s| == 0 then None
    else if s[0] == c then Some(0)
    else
      match FirstIndex(s[1..], c)
      case None => None
      case Some(k) => Some(k + 1)
  }

  /** The last index of `c` in `s`. */
  function LastIndex(s: string, c: char): (r: Option<nat>)
    ensures r.Some? ==> r.value < |s| && s[r.value] == c && forall k :: r.value < k < |s| ==> s[k] != c
    ensures r.None? ==> forall k :: 0 <= k < |s| ==> s[k] != c
  {
    if |s| == 0 then None
    else if s[|s| - 1] == c then Some(|s| - 1)
    else LastIndex(s[..|s| - 1], c)
  }

  /** `s[i..j+1]` is a candidate match of `\{.*\}`: it opens with `{` and closes with `}`. */
  predicate Candidate(s: string, i: int, j: int) {
    0 <= i < j < |s| && s[i] == '{' && s[j] == '}'
  }

  /**
   The match a backtracking search returns: among the candidates, the one
   starting leftmost, and for that start the longest.
   */
  ghost predicate LeftmostLongest(s: string, i: int, j: int) {
    && Candidate(s, i, j)
    && (forall a, b :: 0 <= a < i ==> !Candidate(s, a, b))
    && (forall b :: j < b ==> !Candidate(s, i, b))
  }

  /**
   `re.search(r'\{.*\}', text, re.DOTALL)`: the span from the first `{` to the
   last `}`, present exactly when some `}` follows some `{`.
   */
  function JsonSpan(s: string): (r: Option<string>)
    ensures r.None? <==> forall i, j :: !Candidate(s, i, j)
    ensures r.Some? ==> exists i, j :: LeftmostLongest(s, i, j) && r.value == s[i..j + 1]
  {
    match FirstIndex(s, '{')
    case None => None
    case Some(i) =>
      match LastIndex(s, '}')
      case None => None
      case Some(j) =>
        if i < j then
          assert LeftmostLongest(s, i, j);
          Some(s[i..j + 1])
        else
          assert forall a, b :: !Candidate(s, a, b);
          None
  }

  /**
   How a tool turns a reply into its record: a dictionary as it is, otherwise
   the decoded span when there is one that decodes, otherwise the fallback
   built from the text.
   */
  function Interpret(content: Content, decode: Decoder, fallback: string -> Record): (r: Record)
    ensures content.Structured? ==> r == content.fields
    ensures content.Text? ==>
      (r == fallback(content.text) || (JsonSpan(content.text).Some? && decode(JsonSpan(content.text).value) == Some(r)))
    ensures content.Text? && JsonSpan(content.text).Some? && decode(JsonSpan(content.text).value).Some? ==>
      r == decode(JsonSpan(content.text).value).value
    ensures content.Text? && (JsonSpan(content.text).None? || decode(JsonSpan(content.text).value).None?) ==>
      r == fallback(content.text)
  {
    match content
    case Structured(fields) => fields
    case Text(text) =>
      match JsonSpan(text)
      case None => fallback(text)
      case Some(span) =>
        match decode(span)
        case Some(record) => record
        case None => fallback(text)
  }

  /** A failed model call is raised again; otherwise the reply is interpreted. */
  function CreateRecord(reply: Result<Content>, decode: Decoder, fallback: string -> Record): (r: Result<Record>)
    ensures r.Err? <==> reply.Err?
    ensures reply.Err? ==> r.message == reply.message
    ensures reply.Ok? ==> r.value == Interpret(reply.value, decode, fallback)
  {
    match reply
    case Err(message) => Err(message)
    case Ok(content) => Ok(Interpret(content, decode, fallback))
  }

  function Strings(items: seq<string>): (r: Json)
    ensures r.JArr? && |r.items| == |items|
    ensures forall k :: 0 <= k < |items| ==> r.items[k] == JStr(items[k])
  {
    JArr(seq(|items|, k requires 0 <= k < |items| => JStr(items[k])))
  }

  /** `create_summary`'s fallback: the reply text as the summary, with placeholder fields. */
  function SummaryFallback(text: string): (r: Record)
    ensures r.Keys == {"summary", "key_points", "participants", "duration_estimate"}
    ensures r["summary"] == JStr(text)
  {
    map[
      "summary" := JStr(text),
      "key_points" := Strings(["Summary provided as plain text"]),
      "participants" := Strings(["Unknown"]),
      "duration_estimate" := JStr("Unknown")]
  }

  /** `create_feedback`'s fallback: a middling rating, and the reply text inside the one suggestion. */
  function FeedbackFallback(text: string): (r: Record)
    ensures r.Keys == {"overall_rating", "positive_points", "areas_for_improvement", "specific_suggestions", "engagement_metrics"}
    ensures r["overall_rating"] == JNum(5)
    ensures r["specific_suggestions"] == JArr([JStr("Review the feedback text: " + text)])
  {
    map[
      "overall_rating" := JNum(5),
      "positive_points" := Strings(["Feedback provided as plain text"]),
      "areas_for_improvement" := Strings(["Unable to parse structured feedback"]),
      "specific_suggestions" := Strings(["Review the feedback text: " + text]),
      "engagement_metrics" := JObj(map["participation_balance" := JNum(5), "discussion_flow" := JNum(5)])]
  }

  /** The single action item of `create_todo`'s fallback, whose context is the reply text. */
  function FallbackItem(text: string): Json {
    JObj(map[
      "task" := JStr("Review unstructured todo list"),
      "assignee" := JStr("Team"),
      "due_date" := JStr("ASAP"),
      "priority" := JStr("medium"),
      "status" := JStr("pending"),
      "context" := JStr(text)])
  }

  /** `create_todo`'s fallback: one action item to review the text, and nothing else to do. */
  function TodoFallback(text: string): (r: Record)
    ensures r.Keys == {"action_items", "follow_ups", "decisions", "dependencies"}
    ensures r["follow_ups"] == JArr([]) && r["dependencies"] == JObj(map[])
    ensures r["action_items"].JArr? && |r["action_items"].items| == 1
    ensures r["action_items"].items[0].JObj? && "context" in r["action_items"].items[0].fields && r["action_items"].items[0].fields["context"] == JStr(text)
  {
    map[
      "action_items" := JArr([FallbackItem(text)]),
      "follow_ups" := JArr([]),
      "decisions" := Strings(["Todo list was provided in unstructured format"]),
      "dependencies" := JObj(map[])]
  }

  function CreateSummary(reply: Result<Content>, decode: Decoder): Result<Record> {
    CreateRecord(reply, decode, SummaryFallback)
  }

  function CreateFeedback(reply: Result<Content>, decode: Decoder): Result<Record> {
    CreateRecord(reply, decode, FeedbackFallback)
  }

  function CreateTodo(reply: Result<Content>, decode: Decoder): Result<Record> {
    CreateRecord(reply, decode, TodoFallback)
  }

  /**
   An object wrapped in prose is found: when the text before it has no `{`
   and the text after it no `}`, the span is exactly the object's text, and a
   reply of that shape yields the decoded object.
   */
  lemma {:induction false} WrappedObjectFound(before: string, obj: string, after: string, decode: Decoder,
                                              fallback: string -> Record)
    requires |obj| >= 2 && obj[0] == '{' && obj[|obj| - 1] == '}'
    requires Free(before, {'{'}) && Free(after, {'}'})
    ensures JsonSpan(before + obj + after) == Some(obj)
    ensures decode(obj).Some? ==> Interpret(Text(before + obj + after), decode, fallback) == decode(obj).value
  {
    var s := before + obj + after;
    var i := |before|;
    var j := |before| + |obj| - 1;
    assert s[i] == '{' && s[j] == '}';
    forall k | 0 <= k < i ensures s[k] != '{' {
      assert s[k] == before[k];
    }
    forall k | j < k < |s| ensures s[k] != '}' {
      assert s[k] == after[k - j - 1];
    }
    assert FirstIndex(s, '{') == Some(i);
    assert LastIndex(s, '}') == Some(j);
    assert s[i..j + 1] == obj;
  }

  /**
   Text with no `}` after its first `{` gets the fallback record, whatever the
   decoder would make of it: the reply text is kept, never dropped.
   */
  lemma NoSpanFallsBack(text: string, decode: Decoder)
    requires forall i, j :: !Candidate(text, i, j)
    ensures Interpret(Text(text), decode, SummaryFallback)["summary"] == JStr(text)
    ensures Interpret(Text(text), decode, FeedbackFallback) == FeedbackFallback(text)
    ensures Interpret(Text(text), decode, TodoFallback) == TodoFallback(text)
  {
  }

  /**
   The match is greedy: two objects in one reply form a single span running
   from the first `{` to the last `}`, prose between them included, so it is
   that whole span that is handed to the decoder.
   */
  lemma {:induction false} TwoObjectsFormOneSpan(a: string, middle: string, b: string)
    requires |a| >= 2 && a[0] == '{' && a[|a| - 1] == '}'
    requires |b| >= 2 && b[0] == '{' && b[|b| - 1] == '}'
    ensures JsonSpan(a + middle + b) == Some(a + middle + b)
  {
    var s := a + middle + b;
    assert s[0] == '{' && s[|s| - 1] == '}';
    assert FirstIndex(s, '{') == Some(0);
    assert LastIndex(s, '}') == Some(|s| - 1);
    assert s[0..|s|] == s;
  }
}
