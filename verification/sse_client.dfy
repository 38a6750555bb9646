/**
 The browser side of the stream (`nextjs-app/pages/index.js`): each chunk read
 from the response is split on blank lines, each non-blank message is parsed
 by `parseSSEMessage`, and the events it yields are appended to the list the
 page shows. `JSON.parse` is a parameter.

 The parser keeps only the last `data: ` line of a message, where section
 9.2.6 ("Interpreting an event stream") of the WHATWG HTML Living Standard
 joins all data lines with line feeds; and a message cut in two by a chunk
 boundary is lost, since chunks are parsed independently.
 */
module SseClient {
  import opened Wrappers
  import opened Text
  import opened State
  import opened Graph
  import opened JsonText
  import opened ApiStream

  /** `JSON.parse`: a value, or nothing when it throws. */
  type Parser = string -> Option<Json>

  /** What `parseSSEMessage` returns when it succeeds. */
  datatype SseEvent = SseEvent(event: string, data: Json)

  /** The text after `prefix` on the last line that starts with it. */
  function LastAfter(lines: seq<string>, prefix: string): (r: Option<string>)
    ensures r.None? <==> forall k :: 0 <= k < |lines| ==> !StartsWith(lines[k], prefix)
    decreases |lines|
  {
    if |lines| == 0 then None
    else if StartsWith(lines[|lines| - 1], prefix) then Some(lines[|lines| - 1][|prefix|..])
    else LastAfter(lines[..|lines| - 1], prefix)
  }

  /** What `LastAfter` finds is the text after the prefix on the last line that has it. */
  lemma {:induction false} LastAfterIsLast(lines: seq<string>, prefix: string)
    requires LastAfter(lines, prefix).Some?
    ensures exists k :: LastWith(lines, prefix, k) && LastAfter(lines, prefix).value == lines[k][|prefix|..]
    decreases |lines|
  {
    var n := |lines| - 1;
    if StartsWith(lines[n], prefix) {
      assert LastWith(lines, prefix, n);
    } else {
      var init := lines[..n];
      LastAfterIsLast(init, prefix);
      var k :| LastWith(init, prefix, k) && LastAfter(init, prefix).value == init[k][|prefix|..];
      assert init[k] == lines[k];
      assert LastWith(lines, prefix, k);
    }
  }

  /** Line `k` is the last line of `lines` starting with `prefix`. */
  ghost predicate LastWith(lines: seq<string>, prefix: string, k: int) {
    && 0 <= k < |lines|
    && StartsWith(lines[k], prefix)
    && forall m :: k < m < |lines| ==> !StartsWith(lines[m], prefix)
  }

  /**
   `parseSSEMessage`: the type from the last `event: ` line (default
   `message`), the data from the last `data: ` line; `null` when that data is
   empty or does not parse.
   */
  function ParseMessage(message: string, parse: Parser): (r: Option<SseEvent>)
    ensures var d := LastAfter(SplitAny(message, {'\n'}), "data: ").GetOr("");
      && (r.Some? <==> d != "" && parse(d).Some?)
      && (r.Some? ==> r.value.data == parse(d).value)
    ensures r.Some? ==> LastAfter(SplitAny(message, {'\n'}), "data: ").Some?
    ensures r.Some? ==> r.value.event == LastAfter(SplitAny(message, {'\n'}), "event: ").GetOr("message")
  {
    var lines := SplitAny(message, {'\n'});
    var eventType := LastAfter(lines, "event: ").GetOr("message");
    var data := LastAfter(lines, "data: ").GetOr("");
    if data == "" then None
    else
      match parse(data)
      case None => None
      case Some(v) => Some(SseEvent(eventType, v))
  }

  lemma LastAfterStep(lines: seq<string>, prefix: string, i: nat)
    requires i < |lines|
    ensures LastAfter(lines[..i + 1], prefix) ==
      if StartsWith(lines[i], prefix) then Some(lines[i][|prefix|..]) else LastAfter(lines[..i], prefix)
  {
    assert lines[..i + 1][..i] == lines[..i];
  }

  /** `parseSSEMessage` as written: one pass over the lines, later lines overriding earlier ones. */
  method ParseSseMessage(message: string, parse: Parser) returns (r: Option<SseEvent>)
    ensures r == ParseMessage(message, parse)
  {
    var lines := SplitAny(message, {'\n'});
    var eventType := "message";
    var data := "";
    var i := 0;
    while i < |lines|
      invariant 0 <= i <= |lines|
      invariant eventType == LastAfter(lines[..i], "event: ").GetOr("message")
      invariant data == LastAfter(lines[..i], "data: ").GetOr("")
    {
      LastAfterStep(lines, "event: ", i);
      LastAfterStep(lines, "data: ", i);
      var line := lines[i];
      if StartsWith(line, "event: ") {
        assert line[0] == 'e';
        eventType := line[7..];
      } else if StartsWith(line, "data: ") {
        data := line[6..];
      }
      i := i + 1;
    }
    assert lines[..i] == lines;
    if data == "" {
      r := None;
    } else {
      var v := parse(data);
      if v.Some? {
        r := Some(SseEvent(eventType, v.value));
      } else {
        r := None;
      }
    }
  }

  /** The pieces that are not blank once trimmed, in order. */
  function NonBlank(pieces: seq<string>): (kept: seq<string>)
    ensures |kept| <= |pieces|
    ensures forall k :: 0 <= k < |kept| ==> !IsBlankJs(kept[k])
  {
    if |pieces| == 0 then []
    else if IsBlankJs(pieces[0]) then NonBlank(pieces[1..])
    else [pieces[0]] + NonBlank(pieces[1..])
  }

  /** Exactly the blank pieces are dropped: a piece is kept if and only if it is not blank. */
  lemma {:induction false} NonBlankMembers(pieces: seq<string>, p: string)
    ensures p in NonBlank(pieces) <==> p in pieces && !IsBlankJs(p)
    decreases |pieces|
  {
    if |pieces| > 0 {
      NonBlankMembers(pieces[1..], p);
      assert pieces == [pieces[0]] + pieces[1..];
    }
  }

  /** Filtering pieces in two runs filters each run in turn: the order of the kept pieces is the order of the pieces. */
  lemma {:induction false} NonBlankAppend(a: seq<string>, b: seq<string>)
    ensures NonBlank(a + b) == NonBlank(a) + NonBlank(b)
    decreases |a|
  {
    if |a| > 0 {
      assert (a + b)[1..] == a[1..] + b;
      NonBlankAppend(a[1..], b);
    } else {
      assert a + b == b;
    }
  }

  /** `chunk.split('\n\n').filter(msg => msg.trim())`. */
  function ChunkMessages(chunk: string): seq<string> {
    NonBlank(SplitOn(chunk, "\n\n"))
  }

  /** The events parsed from some messages, in order, the `null` results dropped. */
  function Collect(messages: seq<string>, parse: Parser): (events: seq<SseEvent>)
    ensures |events| <= |messages|
  {
    if |messages| == 0 then []
    else
      match ParseMessage(messages[0], parse)
      case None => Collect(messages[1..], parse)
      case Some(e) => [e] + Collect(messages[1..], parse)
  }

  /** The events one chunk adds. */
  function ChunkEvents(chunk: string, parse: Parser): seq<SseEvent> {
    Collect(ChunkMessages(chunk), parse)
  }

  /** The events of several chunks read in turn. */
  function ReadEvents(chunks: seq<string>, parse: Parser): seq<SseEvent>
  {
    if |chunks| == 0 then [] else ChunkEvents(chunks[0], parse) + ReadEvents(chunks[1..], parse)
  }

  /**
   The event list after `handleSendQuery`: reset to empty, then every event of
   every chunk in arrival order (`addEvent` appends), then the client's own
   `error` event when the request failed other than by being aborted.
   */
  function SendQuery(previous: seq<SseEvent>, chunks: seq<string>, parse: Parser, failure: Option<Json>): (shown: seq<SseEvent>)
    ensures |shown| == |ReadEvents(chunks, parse)| + (if failure.Some? then 1 else 0)
    ensures shown[..|ReadEvents(chunks, parse)|] == ReadEvents(chunks, parse)
    ensures failure.Some? ==> shown[|shown| - 1] == SseEvent("error", failure.value)
  {
    var shown: seq<SseEvent> := [];
    var shown := shown + ReadEvents(chunks, parse);
    if failure.Some? then shown + [SseEvent("error", failure.value)] else shown
  }

  /** Each query starts from an empty list: what was shown before has no effect. */
  lemma SendQueryResets(a: seq<SseEvent>, b: seq<SseEvent>, chunks: seq<string>, parse: Parser, failure: Option<Json>)
    ensures SendQuery(a, chunks, parse, failure) == SendQuery(b, chunks, parse, failure)
  {
  }

  /** Reading chunks in turn appends their events in turn. */
  lemma {:induction false} ReadEventsAppend(c1: seq<string>, c2: seq<string>, parse: Parser)
    ensures ReadEvents(c1 + c2, parse) == ReadEvents(c1, parse) + ReadEvents(c2, parse)
    decreases |c1|
  {
    if |c1| > 0 {
      assert (c1 + c2)[1..] == c1[1..] + c2;
      ReadEventsAppend(c1[1..], c2, parse);
    } else {
      assert c1 + c2 == c2;
    }
  }

  /** A line-feed-free text behind a line-feed-free prefix stays free of line feeds. */
  lemma PrefixedFree(prefix: string, t: string)
    requires Free(prefix, {'\n'}) && Free(t, {'\n'})
    ensures Free(prefix + t, {'\n'})
  {
    var m := prefix + t;
    forall i | 0 <= i < |m| ensures m[i] !in {'\n'} {
      if i < |prefix| {
        assert m[i] == prefix[i];
      } else {
        assert m[i] == t[i - |prefix|];
      }
    }
  }

  /** A one-line message without a `data: ` line yields no event. */
  lemma NoDataNoEvent(m: string, parse: Parser)
    requires Free(m, {'\n'}) && !StartsWith(m, "data: ")
    ensures ParseMessage(m, parse) == None
  {
    SplitFreePiece(m, {'\n'});
  }

  /** A one-line `data: J` message parses to a `message` event carrying `JSON.parse(J)`. */
  lemma DataLineParses(json: string, parse: Parser)
    requires Free(json, {'\n'})
    ensures var lines := SplitAny("data: " + json, {'\n'});
      && lines == ["data: " + json]
      && LastAfter(lines, "event: ") == None
      && LastAfter(lines, "data: ") == Some(json)
    ensures json != "" ==>
      ParseMessage("data: " + json, parse) == (if parse(json).Some? then Some(SseEvent("message", parse(json).value)) else None)
  {
    var m := "data: " + json;
    PrefixedFree("data: ", json);
    SplitFreePiece(m, {'\n'});
    assert m[..6] == "data: " && m[6..] == json;
    assert m[0] == 'd';
    FirstCharMismatch(m, "event: ");
    LastAfterOne(m, "data: ");
    LastAfterOne(m, "event: ");
  }

  /** A text whose first character differs from the prefix's does not start with it. */
  lemma FirstCharMismatch(s: string, prefix: string)
    requires |s| > 0 && |prefix| > 0 && s[0] != prefix[0]
    ensures !StartsWith(s, prefix)
  {
    assert |prefix| <= |s| ==> s[..|prefix|][0] == s[0];
  }

  /** A single line: what follows the prefix, if it starts with it. */
  lemma LastAfterOne(line: string, prefix: string)
    ensures LastAfter([line], prefix) == if StartsWith(line, prefix) then Some(line[|prefix|..]) else None
  {
    var one: seq<string> := [line];
    assert one[..0] == [];
  }

  /** A one-line, non-blank piece ahead of a blank line is the first message of its chunk. */
  lemma MessageThenRest(m: string, t: string)
    requires Free(m, {'\n'}) && !IsBlankJs(m)
    ensures ChunkMessages(m + "\n\n" + t) == [m] + ChunkMessages(t)
  {
    SplitOnFirstPiece(m, "\n\n", t);
    var pieces := [m] + SplitOn(t, "\n\n");
    assert pieces[1..] == SplitOn(t, "\n\n");
  }

  /** A frame with a one-line payload at the head of a chunk is its first message. */
  lemma FrameMessage(e: string, t: string)
    requires Free(e, {'\n'})
    ensures ChunkMessages(Frame(e) + t) == ["data: " + e] + ChunkMessages(t)
  {
    var m := "data: " + e;
    PrefixedFree("data: ", e);
    assert Frame(e) + t == m + "\n\n" + t;
    assert !IsBlankJs(m) by {
      assert m[0] == 'd';
    }
    MessageThenRest(m, t);
  }

  /** The empty chunk holds no message. */
  lemma EmptyChunk()
    ensures ChunkMessages("") == []
  {
    assert SplitOn("", "\n\n") == [""];
    assert IsBlankJs("");
  }

  /** A message that parses contributes its event ahead of the rest. */
  lemma CollectCons(m: string, ms: seq<string>, parse: Parser, e: SseEvent)
    requires ParseMessage(m, parse) == Some(e)
    ensures Collect([m] + ms, parse) == [e] + Collect(ms, parse)
  {
    assert ([m] + ms)[1..] == ms;
  }

  /** A frame whose payload parses, at the head of a chunk, yields its event ahead of the rest. */
  lemma FrameThenRest(e: string, t: string, parse: Parser)
    requires e != "" && Free(e, {'\n'}) && parse(e).Some?
    ensures ChunkEvents(Frame(e) + t, parse) == [SseEvent("message", parse(e).value)] + ChunkEvents(t, parse)
  {
    FrameMessage(e, t);
    DataLineParses(e, parse);
    CollectCons("data: " + e, ChunkMessages(t), parse, SseEvent("message", parse(e).value));
  }

  /** The first frame of a body yields its event ahead of the events of the remaining frames. */
  lemma BodyStep(events: seq<string>, parse: Parser)
    requires |events| > 0 && events[0] != "" && Free(events[0], {'\n'}) && parse(events[0]).Some?
    ensures ChunkEvents(Body(events, None), parse) ==
      [SseEvent("message", parse(events[0]).value)] + ChunkEvents(Body(events[1..], None), parse)
  {
    var e := events[0];
    var rest := events[1..];
    assert Frames(events, None) == [Frame(e)] + Frames(rest, None);
    assert Body(events, None) == Frame(e) + Body(rest, None);
    FrameThenRest(e, Body(rest, None), parse);
  }

  /**
   The round trip of the stream: a body of frames whose payloads are
   non-empty, single-line and parseable, read as one chunk, yields one
   `message` event per frame, in order, carrying the parsed payload.
   */
  lemma {:induction false} BodyRoundTrip(events: seq<string>, parse: Parser)
    requires forall k :: 0 <= k < |events| ==> events[k] != "" && Free(events[k], {'\n'}) && parse(events[k]).Some?
    ensures ChunkEvents(Body(events, None), parse) ==
      seq(|events|, k requires 0 <= k < |events| => SseEvent("message", parse(events[k]).value))
    decreases |events|
  {
    var expected := seq(|events|, k requires 0 <= k < |events| => SseEvent("message", parse(events[k]).value));
    if |events| == 0 {
      assert Frames(events, None) == [];
      EmptyChunk();
    } else {
      var e := events[0];
      BodyStep(events, parse);
      var rest := events[1..];
      BodyRoundTrip(rest, parse);
      var later := seq(|rest|, k requires 0 <= k < |rest| => SseEvent("message", parse(rest[k]).value));
      assert expected[0] == SseEvent("message", parse(e).value);
      assert expected[1..] == later;
      assert expected == [expected[0]] + expected[1..];
    }
  }

  /** A piece made by `SplitAny` on a character is free of it. */
  lemma SplitFreeIsFree(m: string)
    requires SplitAny(m, {'\n'}) == [m]
    ensures Free(m, {'\n'})
  {
    assert Free(SplitAny(m, {'\n'})[0], {'\n'});
  }

  /**
   A failed run reaches the page as an ordinary `message` event whose data is
   the `{"error": …}` object, after the events of the steps before it; the
   page's own `error` events come only from failures of the request itself.
   */
  lemma ServerErrorArrivesAsMessage(events: seq<string>, message: string, parse: Parser)
    requires forall k :: 0 <= k < |events| ==> events[k] != "" && Free(events[k], {'\n'}) && parse(events[k]).Some?
    requires parse(ErrorJson(message)).Some?
    ensures var shown := ChunkEvents(Body(events, Some(message)), parse);
      && |shown| == |events| + 1
      && shown[|events|] == SseEvent("message", parse(ErrorJson(message)).value)
      && forall k :: 0 <= k < |events| ==> shown[k] == SseEvent("message", parse(events[k]).value)
  {
    var all := events + [ErrorJson(message)];
    assert Frames(events, Some(message)) == Frames(all, None);
    ErrorFrameIsOneLine(message);
    assert Free(ErrorJson(message), {'\n'}) by {
      var j := ErrorJson(message);
      forall i | 0 <= i < |j| ensures j[i] !in {'\n'} {
        assert j[i] !in {'\n', '\r'};
      }
    }
    assert ErrorJson(message) != "";
    forall k | 0 <= k < |all|
      ensures all[k] != "" && Free(all[k], {'\n'}) && parse(all[k]).Some?
    {
      if k < |events| {
        assert all[k] == events[k];
      }
    }
    BodyRoundTrip(all, parse);
  }

  /**
   A frame cut by a chunk boundary inside its `data: ` prefix is lost: neither
   half yields an event.
   */
  lemma SplitFrameIsLost(json: string, k: nat, parse: Parser)
    requires Free(json, {'\n'}) && 1 <= k <= 5
    ensures ChunkEvents(Frame(json)[..k], parse) == []
    ensures ChunkEvents(Frame(json)[k..], parse) == []
  {
    HeadIsLost(json, k, parse);
    TailIsLost(json, k, parse);
  }

  /** The first part of a cut frame is a bare piece of `data: `. */
  lemma HeadIsLost(json: string, k: nat, parse: Parser)
    requires 1 <= k <= 5
    ensures ChunkEvents(Frame(json)[..k], parse) == []
  {
    var head := Frame(json)[..k];
    assert head == "data: "[..k];
    SplitOnWhole(head, "\n\n");
    NoDataNoEvent(head, parse);
    assert NonBlank([head]) == [head] by {
      assert head[0] == 'd';
    }
    var one: seq<string> := [head];
    assert one[1..] == [];
  }

  /** The second part of a cut frame no longer starts with `data: `. */
  lemma TailIsLost(json: string, k: nat, parse: Parser)
    requires Free(json, {'\n'}) && 1 <= k <= 5
    ensures ChunkEvents(Frame(json)[k..], parse) == []
  {
    var rest := "data: "[k..];
    var body := rest + json;
    assert Frame(json)[k..] == body + "\n\n";
    PrefixedFree(rest, json);
    assert body[0] == "data: "[k] != 'd';
    FirstCharMismatch(body, "data: ");
    OneLineTailLost(body, parse);
  }

  /** A chunk that is one line ahead of a blank line holds that line as its only message. */
  lemma OneLineChunk(m: string, parse: Parser)
    requires Free(m, {'\n'}) && m != "" && !IsBlankJs(m)
    ensures ChunkEvents(m, parse) == if ParseMessage(m, parse).Some? then [ParseMessage(m, parse).value] else []
  {
    SplitOnWhole(m, "\n\n");
    var one: seq<string> := [m];
    assert one[1..] == [];
    assert NonBlank(one) == one;
  }

  /** A chunk that is a single `data: ` line whose value does not parse yields nothing. */
  lemma UnparsedDataLineLost(part: string, parse: Parser)
    requires Free(part, {'\n'}) && parse(part).None?
    ensures ChunkEvents("data: " + part, parse) == []
  {
    var head := "data: " + part;
    PrefixedFree("data: ", part);
    DataLineParses(part, parse);
    assert !IsBlankJs(head) by {
      assert head[0] == 'd';
    }
    OneLineChunk(head, parse);
  }

  /** A one-line chunk ending in a blank line yields nothing unless that line is a `data: ` line. */
  lemma OneLineTailLost(body: string, parse: Parser)
    requires Free(body, {'\n'}) && !StartsWith(body, "data: ")
    ensures ChunkEvents(body + "\n\n", parse) == []
  {
    assert body + "\n\n" == body + "\n\n" + "";
    SplitOnFirstPiece(body, "\n\n", "");
    assert SplitOn("", "\n\n") == [""];
    var pieces := [body] + [""];
    assert pieces[1..] == [""];
    assert NonBlank([""]) == [] by {
      assert IsBlankJs("");
      var blank: seq<string> := [""];
      assert blank[1..] == [];
    }
    if !IsBlankJs(body) {
      NoDataNoEvent(body, parse);
      var one: seq<string> := [body];
      assert one[1..] == [];
    }
  }

  /**
   A cut is not always fatal: cut just before the closing blank line, the
   first chunk is the whole `data: J` line and yields the frame's event, and
   the second, a bare blank line, yields nothing.
   */
  lemma CutBeforeBlankLineKeepsEvent(json: string, parse: Parser)
    requires Free(json, {'\n'}) && json != "" && parse(json).Some?
    ensures ChunkEvents(Frame(json)[..|json| + 6], parse) == [SseEvent("message", parse(json).value)]
    ensures ChunkEvents(Frame(json)[|json| + 6..], parse) == []
  {
    var head := "data: " + json;
    assert Frame(json)[..|json| + 6] == head;
    assert Frame(json)[|json| + 6..] == "\n\n";
    PrefixedFree("data: ", json);
    DataLineParses(json, parse);
    assert !IsBlankJs(head) by {
      assert head[0] == 'd';
    }
    OneLineChunk(head, parse);
    SplitOnFirstPiece("", "\n\n", "");
    assert "" + "\n\n" + "" == "\n\n";
    assert SplitOn("", "\n\n") == [""];
    var blanks: seq<string> := ["", ""];
    assert IsBlankJs("");
    assert blanks[1..] == [""];
    var blank: seq<string> := [""];
    assert blank[1..] == [];
  }

  /**
   A cut inside the payload `J` loses the frame whenever the parser rejects
   the part of `J` before the cut and the part after it does not happen to
   start with `data: `: the first chunk's data does not parse, and the second
   chunk has no data line.
   */
  lemma CutInsidePayloadIsLost(json: string, k: nat, parse: Parser)
    requires Free(json, {'\n'}) && 6 <= k < 6 + |json|
    requires parse(json[..k - 6]).None?
    requires !StartsWith(json[k - 6..], "data: ")
    ensures ChunkEvents(Frame(json)[..k], parse) == []
    ensures ChunkEvents(Frame(json)[k..], parse) == []
  {
    CutHeadIsLost(json, k, parse);
    CutTailIsLost(json, k, parse);
  }

  lemma CutHeadIsLost(json: string, k: nat, parse: Parser)
    requires Free(json, {'\n'}) && 6 <= k < 6 + |json|
    requires parse(json[..k - 6]).None?
    ensures ChunkEvents(Frame(json)[..k], parse) == []
  {
    var part := json[..k - 6];
    assert Frame(json)[..k] == "data: " + part;
    assert Free(part, {'\n'}) by {
      forall i | 0 <= i < |part| ensures part[i] !in {'\n'} {
        assert part[i] == json[i];
      }
    }
    UnparsedDataLineLost(part, parse);
  }

  lemma CutTailIsLost(json: string, k: nat, parse: Parser)
    requires Free(json, {'\n'}) && 6 <= k < 6 + |json|
    requires !StartsWith(json[k - 6..], "data: ")
    ensures ChunkEvents(Frame(json)[k..], parse) == []
  {
    var rest := json[k - 6..];
    assert Frame(json)[k..] == rest + "\n\n";
    assert Free(rest, {'\n'}) by {
      forall i | 0 <= i < |rest| ensures rest[i] !in {'\n'} {
        assert rest[i] == json[k - 6 + i];
      }
    }
    OneLineTailLost(rest, parse);
  }

  /** The data values of the `data: ` lines, in order. */
  function DataValues(lines: seq<string>): seq<string> {
    if |lines| == 0 then []
    else if StartsWith(lines[0], "data: ") then [lines[0][6..]] + DataValues(lines[1..])
    else DataValues(lines[1..])
  }

  /**
   Two data lines: the page takes the second value alone, where a conforming
   parser's data buffer holds both joined by a line feed.
   */
  lemma LastDataWins(a: string, b: string)
    requires Free(a, {'\n'}) && Free(b, {'\n'})
    ensures var lines := SplitAny("data: " + a + "\ndata: " + b, {'\n'});
      && LastAfter(lines, "data: ") == Some(b)
      && Join(DataValues(lines), "\n") == a + "\n" + b
  {
    var first := "data: " + a;
    var second := "data: " + b;
    PrefixedFree("data: ", a);
    PrefixedFree("data: ", b);
    assert "data: " + a + "\ndata: " + b == first + ['\n'] + second;
    SplitAtSeparator(first, '\n', second, {'\n'});
    SplitFreePiece(second, {'\n'});
    TwoDataLines(a, b);
  }

  /** The two lines `data: a` and `data: b`, read as lines. */
  lemma TwoDataLines(a: string, b: string)
    ensures LastAfter(["data: " + a, "data: " + b], "data: ") == Some(b)
    ensures DataValues(["data: " + a, "data: " + b]) == [a, b]
  {
    var first := "data: " + a;
    var second := "data: " + b;
    var lines := [first, second];
    assert first[..6] == "data: " && first[6..] == a;
    assert second[..6] == "data: " && second[6..] == b;
    var one: seq<string> := [second];
    assert lines[1..] == one;
    assert one[1..] == [];
    assert DataValues(one) == [b] + DataValues([]);
    assert DataValues(lines) == [a] + DataValues(one);
  }

  /**
   From run to page: when every step's payload serialises to one non-empty
   line that the page can parse, a completed run's body read as one chunk
   shows one `message` event per node execution, in the order the nodes ran.
   */
  lemma RunReachesPage(s: AgentState, sc: Script, dump: Update -> string, parse: Parser, events: seq<string>)
    requires events == RunEvents(Run(s, sc).steps, dump)
    requires forall k :: 0 <= k < |events| ==> Free(events[k], {'\n'}) && parse(events[k]).Some?
    ensures var shown := ChunkEvents(Body(events, None), parse);
      && |shown| == |Run(s, sc).steps|
      && forall k :: 0 <= k < |shown| ==> shown[k] == SseEvent("message", parse(events[k]).value)
  {
    var steps := Run(s, sc).steps;
    StepsReachPage(steps, dump, parse, events);
  }

  /** The same for any sequence of steps. */
  lemma StepsReachPage(steps: seq<Step>, dump: Update -> string, parse: Parser, events: seq<string>)
    requires events == RunEvents(steps, dump)
    requires forall k :: 0 <= k < |events| ==> Free(events[k], {'\n'}) && parse(events[k]).Some?
    ensures var shown := ChunkEvents(Body(events, None), parse);
      && |shown| == |steps|
      && forall k :: 0 <= k < |shown| ==> shown[k] == SseEvent("message", parse(events[k]).value)
  {
    forall k | 0 <= k < |events| ensures events[k] != "" {
      assert events[k][0] == '{';
    }
    BodyRoundTrip(events, parse);
  }
}
