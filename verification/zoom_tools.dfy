/**
 The Zoom helpers of `tools/zoom_tools.py`: the cleaning of a WEBVTT transcript
 into its spoken lines, the choice of meeting and recording file, the file
 names used for the download and the cleaned copy, and the access-token cache.
 The HTTP calls are replaced by their results: the meeting listing (with each
 meeting's recording files) and the outcome of the token request.
 */
module ZoomTools {
  import opened Wrappers
  import opened Text

  /**
   Truthiness of a value read with `.get` from a JSON object or the token
   cache, where a missing key and `null` both give `None`.
   */
  predicate Truthy(o: Option<string>) {
    o.Some? && o.value != ""
  }

  /** That value in an f-string: `None` when missing. */
  function Render(o: Option<string>): string {
    o.GetOr("None")
  }

  /**
   The characters that end a line when the file is read in text mode:
   universal newlines turn `"\r\n"` and a lone `"\r"` into `"\n"`.
   */
  const LineBreaks: set<char> := {'\n', '\r'}

  /** A stripped line worth keeping: not blank, not the header, not a cue number, not a timing line. */
  predicate KeepLine(line: string) {
    && |line| > 0
    && !StartsWith(line, "WEBVTT")
    && !AllDigits(line)
    && !Contains(line, "-->")
  }

  /** The lines of a file's text. A `"\r\n"` pair yields an extra empty piece, which is blank and dropped. */
  function SourceLines(text: string): (lines: seq<string>)
    ensures |lines| >= 1
    ensures forall k :: 0 <= k < |lines| ==> Free(lines[k], LineBreaks)
  {
    SplitAny(text, LineBreaks)
  }

  /** What one source line contributes: its stripped form when that is worth keeping, else nothing. */
  function KeptLine(line: string): (out: seq<string>)
    ensures |out| <= 1
    ensures forall y :: y in out <==> y == Strip(line) && KeepLine(y)
  {
    var stripped := Strip(line);
    if KeepLine(stripped) then [stripped] else []
  }

  /** The pieces `f` makes of each line, concatenated in line order. */
  function Gather(lines: seq<string>, f: string -> seq<string>): seq<string> {
    if |lines| == 0 then [] else f(lines[0]) + Gather(lines[1..], f)
  }

  lemma {:induction false} GatherLength(lines: seq<string>, f: string -> seq<string>)
    requires forall line :: |f(line)| <= 1
    ensures |Gather(lines, f)| <= |lines|
    decreases |lines|
  {
    if |lines| > 0 {
      GatherLength(lines[1..], f);
    }
  }

  lemma {:induction false} GatherAppend(lines: seq<string>, x: string, f: string -> seq<string>)
    ensures Gather(lines + [x], f) == Gather(lines, f) + f(x)
    decreases |lines|
  {
    if |lines| > 0 {
      assert (lines + [x])[1..] == lines[1..] + [x];
      GatherAppend(lines[1..], x, f);
    } else {
      var one: seq<string> := [x];
      assert one[1..] == [];
    }
  }

  lemma {:induction false} GatherMembers(lines: seq<string>, y: string, f: string -> seq<string>)
    ensures y in Gather(lines, f) <==> exists j :: 0 <= j < |lines| && y in f(lines[j])
    decreases |lines|
  {
    if |lines| > 0 {
      var tail := lines[1..];
      GatherMembers(tail, y, f);
      if y in Gather(tail, f) {
        var j :| 0 <= j < |tail| && y in f(tail[j]);
        assert lines[j + 1] == tail[j];
      }
      if exists j :: 0 <= j < |lines| && y in f(lines[j]) {
        var j :| 0 <= j < |lines| && y in f(lines[j]);
        if j > 0 {
          assert tail[j - 1] == lines[j];
        }
      }
    }
  }

  lemma {:induction false} GatherFixed(lines: seq<string>, f: string -> seq<string>)
    requires forall k :: 0 <= k < |lines| ==> f(lines[k]) == [lines[k]]
    ensures Gather(lines, f) == lines
    decreases |lines|
  {
    if |lines| > 0 {
      assert f(lines[0]) == [lines[0]];
      GatherFixed(lines[1..], f);
    }
  }

  /** The stripped lines worth keeping, in their original order. */
  function Kept(lines: seq<string>): (out: seq<string>)
    ensures |out| <= |lines|
  {
    GatherLength(lines, KeptLine);
    Gather(lines, KeptLine)
  }

  /** Every kept line is stripped already and passes the filter. */
  lemma KeptClean(lines: seq<string>)
    ensures forall k :: 0 <= k < |Kept(lines)| ==> KeepLine(Kept(lines)[k]) && Strip(Kept(lines)[k]) == Kept(lines)[k]
  {
    var out := Kept(lines);
    forall k | 0 <= k < |out| ensures KeepLine(out[k]) && Strip(out[k]) == out[k] {
      GatherMembers(lines, out[k], KeptLine);
      var j :| 0 <= j < |lines| && out[k] in KeptLine(lines[j]);
      StripIdempotent(lines[j]);
    }
  }

  lemma KeptAppend(lines: seq<string>, x: string)
    ensures Kept(lines + [x]) == Kept(lines) + (if KeepLine(Strip(x)) then [Strip(x)] else [])
  {
    GatherAppend(lines, x, KeptLine);
  }

  /**
   A line is kept exactly when it is the stripped form of some source line and
   passes the filter: nothing is invented and nothing that passes is lost.
   */
  lemma KeptMembers(lines: seq<string>, x: string)
    ensures x in Kept(lines) <==> KeepLine(x) && exists j :: 0 <= j < |lines| && Strip(lines[j]) == x
  {
    GatherMembers(lines, x, KeptLine);
    if KeepLine(x) && exists j :: 0 <= j < |lines| && Strip(lines[j]) == x {
      var j :| 0 <= j < |lines| && Strip(lines[j]) == x;
      assert x in KeptLine(lines[j]);
    }
  }

  /** Lines free of some characters stay free of them once filtered. */
  lemma KeptFree(lines: seq<string>, chars: set<char>)
    requires forall k :: 0 <= k < |lines| ==> Free(lines[k], chars)
    ensures forall k :: 0 <= k < |Kept(lines)| ==> Free(Kept(lines)[k], chars)
  {
    var out := Kept(lines);
    forall k | 0 <= k < |out| ensures Free(out[k], chars) {
      GatherMembers(lines, out[k], KeptLine);
      var j :| 0 <= j < |lines| && out[k] in KeptLine(lines[j]);
      StripKeepsFree(lines[j], chars);
    }
  }

  /** Lines that are already stripped and worth keeping all survive the filter. */
  lemma KeptFixed(lines: seq<string>)
    requires forall k :: 0 <= k < |lines| ==> KeepLine(lines[k]) && Strip(lines[k]) == lines[k]
    ensures Kept(lines) == lines
  {
    forall k | 0 <= k < |lines| ensures KeptLine(lines[k]) == [lines[k]] {
    }
    GatherFixed(lines, KeptLine);
  }

  /** The text `process_transcript` writes: the kept lines joined by single newlines. */
  function CleanText(text: string): string {
    Join(Kept(SourceLines(text)), "\n")
  }

  /** `process_transcript`, line by line, as the source loops over the file. */
  method CleanTranscript(text: string) returns (clean: string)
    ensures clean == CleanText(text)
  {
    var lines := SourceLines(text);
    var out: seq<string> := [];
    var i := 0;
    while i < |lines|
      invariant 0 <= i <= |lines|
      invariant out == Kept(lines[..i])
    {
      var line := Strip(lines[i]);
      KeptPrefix(lines, i);
      out := out + (if KeepLine(line) then [line] else []);
      i := i + 1;
    }
    assert lines[..i] == lines;
    clean := Join(out, "\n");
  }

  /** The filter over one more line. */
  lemma KeptPrefix(lines: seq<string>, i: nat)
    requires i < |lines|
    ensures Kept(lines[..i + 1]) == Kept(lines[..i]) + (if KeepLine(Strip(lines[i])) then [Strip(lines[i])] else [])
  {
    assert lines[..i + 1] == lines[..i] + [lines[i]];
    KeptAppend(lines[..i], lines[i]);
  }

  /**
   The cleaned text splits back into exactly the kept lines (when there is at
   least one), each of them stripped, non-blank, and neither a header, a cue
   number nor a timing line.
   */
  lemma CleanLines(text: string)
    ensures var kept := Kept(SourceLines(text));
      |kept| > 0 ==> SourceLines(CleanText(text)) == kept
  {
    var kept := Kept(SourceLines(text));
    if |kept| > 0 {
      KeptFree(SourceLines(text), LineBreaks);
      JoinThenSplit(kept, '\n', LineBreaks);
    }
  }

  /** Cleaning a cleaned transcript changes nothing. */
  lemma CleanIdempotent(text: string)
    ensures CleanText(CleanText(text)) == CleanText(text)
  {
    var kept := Kept(SourceLines(text));
    if |kept| > 0 {
      CleanLines(text);
      KeptStable(SourceLines(text));
    } else {
      EmptyCleanText();
    }
  }

  /** The kept lines pass the filter again unchanged. */
  lemma KeptStable(lines: seq<string>)
    ensures Kept(Kept(lines)) == Kept(lines)
  {
    KeptClean(lines);
    KeptFixed(Kept(lines));
  }

  /** An empty file cleans to an empty file. */
  lemma EmptyCleanText()
    ensures CleanText("") == ""
  {
    EmptySourceLines();
    BlankLineDropped();
  }

  lemma EmptySourceLines()
    ensures SourceLines("") == [""]
  {
  }

  lemma BlankLineDropped()
    ensures Kept([""]) == []
  {
    var blank: seq<string> := [""];
    assert KeptLine("") == [];
    assert blank[1..] == [];
  }

  /** One entry of a meeting's `recording_files`. */
  datatype RecordingFile = RecordingFile(fileType: Option<string>, downloadUrl: Option<string>)

  /** One meeting of the recordings listing, with the recording files fetched for it. */
  datatype Meeting = Meeting(topic: Option<string>, id: Option<string>, files: seq<RecordingFile>)

  /** The meeting's topic, stripped; a missing topic reads as `""`. */
  function TopicOf(m: Meeting): string {
    Strip(m.topic.GetOr(""))
  }

  /** The requested name occurs in the topic (so the empty name matches every meeting). */
  predicate Matches(name: string, m: Meeting) {
    Contains(TopicOf(m), name)
  }

  /** A file worth downloading: it has a non-empty download URL and is a transcript. */
  predicate Qualifies(f: RecordingFile) {
    Truthy(f.downloadUrl) && f.fileType in {Some("TRANSCRIPT"), Some("VTT")}
  }

  /** Meeting `i` matches and its file `j` qualifies. */
  predicate Hit(name: string, meetings: seq<Meeting>, i: int, j: int) {
    0 <= i < |meetings| && 0 <= j < |meetings[i].files| && Matches(name, meetings[i]) && Qualifies(meetings[i].files[j])
  }

  /** No hit comes before meeting `i`, file `j`, in listing order. */
  ghost predicate NoEarlierHit(name: string, meetings: seq<Meeting>, i: int, j: int) {
    && (forall a, b :: 0 <= a < i ==> !Hit(name, meetings, a, b))
    && (forall b :: 0 <= b < j ==> !Hit(name, meetings, i, b))
  }

  /** Having passed every file of meeting `i`, the search has passed the whole meeting. */
  lemma NextMeeting(name: string, meetings: seq<Meeting>, i: nat)
    requires i < |meetings| && NoEarlierHit(name, meetings, i, |meetings[i].files|)
    ensures NoEarlierHit(name, meetings, i + 1, 0)
  {
    forall a, b | 0 <= a < i + 1 ensures !Hit(name, meetings, a, b) {
      if a == i && 0 <= b < |meetings[i].files| {
        assert !Hit(name, meetings, i, b);
      }
    }
  }

  const DownloadDir := "zoom_transcripts"

  /** `{meeting_id}_{safe_topic}_{file_type}`: spaces of the topic become underscores. */
  function Stem(m: Meeting, fileType: string): string {
    Render(m.id) + "_" + ReplaceChar(TopicOf(m), ' ', '_') + "_" + fileType
  }

  /** Where the transcript is downloaded. */
  function DownloadPath(m: Meeting, fileType: string): string {
    DownloadDir + "/" + Stem(m, fileType) + ".vtt"
  }

  /** Where the cleaned copy is written: the download path with its suffix `.vtt` replaced by `.txt`. */
  function CleanPath(m: Meeting, fileType: string): (path: string)
    ensures StartsWith(path, DownloadDir + "/") && EndsWith(path, ".txt")
    ensures var d := DownloadPath(m, fileType);
      EndsWith(d, ".vtt") && path[..|path| - 4] == d[..|d| - 4]
  {
    var base := DownloadDir + "/" + Stem(m, fileType);
    var path := base + ".txt";
    assert path[..|DownloadDir + "/"|] == DownloadDir + "/";
    assert path[..|path| - 4] == base;
    assert (base + ".vtt")[..|base|] == base;
    path
  }

  /** What the tool reports on success. */
  datatype Found = Found(meetingId: Option<string>, topic: string, transcriptPath: string)

  function NotFoundMessage(name: string): string {
    "No transcript found for meeting '" + name + "'"
  }

  /**
   `zoom_find_transcript` after the listing: the first qualifying file of the
   first matching meeting that has one, in listing order. A matching meeting
   without a qualifying file is passed over, not reported. `i` and `j` say
   which meeting and file were chosen.
   */
  method FindTranscript(name: string, meetings: seq<Meeting>) returns (r: Result<Found>, i: nat, j: nat)
    ensures r.Ok? ==> Hit(name, meetings, i, j) && NoEarlierHit(name, meetings, i, j)
    ensures r.Ok? ==> r.value == Found(meetings[i].id, TopicOf(meetings[i]),
                                       CleanPath(meetings[i], meetings[i].files[j].fileType.value))
    ensures r.Err? <==> forall a, b :: !Hit(name, meetings, a, b)
    ensures r.Err? ==> r.message == NotFoundMessage(name)
  {
    i := 0;
    while i < |meetings|
      invariant 0 <= i <= |meetings|
      invariant NoEarlierHit(name, meetings, i, 0)
    {
      var m := meetings[i];
      j := 0;
      if Matches(name, m) {
        while j < |m.files|
          invariant 0 <= j <= |m.files|
          invariant NoEarlierHit(name, meetings, i, j)
        {
          var f := m.files[j];
          if Truthy(f.downloadUrl) && f.fileType in {Some("TRANSCRIPT"), Some("VTT")} {
            assert Hit(name, meetings, i, j);
            r := Ok(Found(m.id, TopicOf(m), CleanPath(m, f.fileType.value)));
            return;
          }
          assert !Hit(name, meetings, i, j);
          j := j + 1;
        }
      } else {
        forall b ensures !Hit(name, meetings, i, b) {
        }
        j := |m.files|;
      }
      NextMeeting(name, meetings, i);
      i := i + 1;
    }
    r := Err(NotFoundMessage(name));
    j := 0;
  }

  /** The module-level token cache: the token and the time it stops being reused. */
  datatype TokenCache = TokenCache(token: Option<string>, expiry: int)

  /** The cache before the first request. */
  const InitialCache := TokenCache(None, 0)

  /** The answer of the token endpoint: the token and its lifetime in seconds. */
  datatype Grant = Grant(accessToken: string, expiresIn: int)

  /** A cached token is reused while it is non-empty and the clock is before the recorded expiry. */
  predicate Reusable(cache: TokenCache, now: int) {
    Truthy(cache.token) && now < cache.expiry
  }

  /**
   `get_access_token` at time `now`: the cached token while it is reusable;
   otherwise the outcome of a new request, whose token is cached with an
   expiry one minute before the lifetime it was granted for. A failed request
   is an error and leaves the cache as it was.
   */
  function GetAccessToken(cache: TokenCache, now: int, grant: Result<Grant>): (r: Result<(string, TokenCache)>)
    ensures Reusable(cache, now) ==> r == Ok((cache.token.value, cache))
    ensures !Reusable(cache, now) ==> (r.Ok? <==> grant.Ok?)
    ensures !Reusable(cache, now) && grant.Ok? ==>
      r.value.0 == grant.value.accessToken && r.value.1.token == Some(grant.value.accessToken)
      && r.value.1.expiry - now == grant.value.expiresIn - 60
  {
    if Reusable(cache, now) then Ok((cache.token.value, cache))
    else if grant.Err? then Err(grant.message)
    else Ok((grant.value.accessToken, TokenCache(Some(grant.value.accessToken), now + grant.value.expiresIn - 60)))
  }

  /**
   The reuse window: after a token is fetched at `t0`, a later call at `t1`
   is answered from the cache, without a request, exactly when the token is
   non-empty and `t1` falls within the lifetime less sixty seconds; whatever
   the endpoint would answer at `t1` is then ignored.
   */
  lemma ReuseWindow(cache: TokenCache, t0: int, g: Grant, t1: int, later: Result<Grant>)
    requires !Reusable(cache, t0)
    ensures var refreshed := GetAccessToken(cache, t0, Ok(g)).value.1;
      && (Reusable(refreshed, t1) <==> g.accessToken != "" && t1 < t0 + g.expiresIn - 60)
      && (Reusable(refreshed, t1) ==> GetAccessToken(refreshed, t1, later) == Ok((g.accessToken, refreshed)))
  {
  }

  /** A token granted for sixty seconds or less is never reused: every later call makes a new request. */
  lemma ShortGrantNeverReused(cache: TokenCache, t0: int, g: Grant, t1: int)
    requires !Reusable(cache, t0) && g.expiresIn <= 60 && t0 <= t1
    ensures !Reusable(GetAccessToken(cache, t0, Ok(g)).value.1, t1)
  {
  }

  /** The first call always makes a request, at any time. */
  lemma FirstCallRequests(now: int, grant: Result<Grant>)
    ensures GetAccessToken(InitialCache, now, grant).Ok? <==> grant.Ok?
    ensures grant.Ok? ==> GetAccessToken(InitialCache, now, grant).value.0 == grant.value.accessToken
  {
  }
}
