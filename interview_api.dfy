/** The client of the text-generation service: the prompt templates, the
    reader of the server-sent-event stream, and the call that concatenates
    the streamed text. The stream format is a simplified subset of the
    event-stream format of section 9.2 (Server-sent events) of the WHATWG HTML
    Living Standard: lines end at LF only, a payload line starts with the
    literal `data: `, and every payload line is one event. */
module InterviewApi {
  import opened Wrappers
  import opened Text
  import opened InterviewTypes

  // ---------------------------------------------------------------------
  // Prompt templates
  // ---------------------------------------------------------------------

  const InitialIntro: string :=
    "You are an expert AI interviewer combining perspectives from senior HR, technical leadership, "
    + "behavioral psychology, and career coaching. You are conducting a "

  const InitialTasks: string :=
    "\n\nYour task:\n"
    + "1. Start with a professional greeting and brief explanation of the interview structure\n"
    + "2. Ask ONE question at a time covering:\n"
    + "   - Core technical skills (if technical/comprehensive mode)\n"
    + "   - Problem-solving and analytical thinking\n"
    + "   - Behavioral competencies (teamwork, leadership, adaptability)\n"
    + "   - Situational judgment and real-world scenarios\n"
    + "   - Cultural fit and communication skills\n"
    + "3. Adjust difficulty based on candidate responses\n"
    + "4. Ask intelligent follow-up questions for deeper probing\n"
    + "5. Provide constructive feedback after each answer including:\n"
    + "   - Strengths in the response\n"
    + "   - Areas for improvement\n"
    + "   - Score (1-10) for the answer\n"
    + "   - Suggestions for better responses\n"
    + "\nKeep a professional, welcoming tone. Make the interview feel realistic and engaging.\n"
    + "\nBegin the interview now with your greeting and first question."

  /** The prompt sent after every answer; it embeds nothing from the session. */
  const FollowUpPrompt: string :=
    "Based on the candidate's previous answer, provide immediate feedback and then ask the next "
    + "appropriate question. Remember to adjust difficulty based on their performance."

  /** The pieces of the opening prompt, with the configuration interpolated. */
  function InitialPromptParts(c: InterviewConfig): seq<string> {
    var mode := ModeName(c.mode);
    var level := ExperienceLevelName(c.experienceLevel);
    [InitialIntro, mode, " interview for a ", level, " level ", c.desiredRole,
     " position in the ", c.jobDomain, " domain.\n\nCandidate Profile:\n- Name: ", c.name,
     "\n- Experience Level: ", level, "\n- Skills: ", Join(c.skills, ", "),
     "\n- Desired Role: ", c.desiredRole, "\n- Job Domain: ", c.jobDomain, InitialTasks]
  }

  /** `generateInterviewPrompt(config, isInitial)`: the opening prompt with
      the configuration interpolated, or the one fixed follow-up text. */
  function GenerateInterviewPrompt(c: InterviewConfig, isInitial: bool): string {
    if isInitial then Join(InitialPromptParts(c), "") else FollowUpPrompt
  }

  /** The opening prompt carries the candidate's name, role, domain, mode,
      level and every skill verbatim. */
  lemma InitialPromptCarriesProfile(c: InterviewConfig)
    ensures var r := GenerateInterviewPrompt(c, true);
            && Contains(r, c.name) && Contains(r, c.desiredRole)
            && Contains(r, c.jobDomain) && Contains(r, ModeName(c.mode))
            && Contains(r, ExperienceLevelName(c.experienceLevel))
            && Contains(r, Join(c.skills, ", "))
            && forall k :: 0 <= k < |c.skills| ==> Contains(r, c.skills[k])
  {
    var parts := InitialPromptParts(c);
    var r := Join(parts, "");
    JoinContains(parts, "", 1);
    JoinContains(parts, "", 3);
    JoinContains(parts, "", 5);
    JoinContains(parts, "", 7);
    JoinContains(parts, "", 9);
    JoinContains(parts, "", 13);
    forall k | 0 <= k < |c.skills| ensures Contains(r, c.skills[k]) {
      JoinContains(c.skills, ", ", k);
      ContainsTransitive(r, parts[13], c.skills[k]);
    }
  }

  /** Every prompt after the first is the same text, whatever the configuration. */
  lemma FollowUpPromptIsFixed(c: InterviewConfig, d: InterviewConfig)
    ensures GenerateInterviewPrompt(c, false) == GenerateInterviewPrompt(d, false) == FollowUpPrompt
  {
  }

  /** The keys the final-evaluation prompt asks the model to fill in. */
  const EvaluationKeys: seq<string> := [
    "technicalScore", "behavioralScore", "situationalScore", "communicationScore",
    "overallScore", "strengths", "weaknesses", "improvementPlan", "resources", "advice"]

  /** The placeholder shown for each key, in the same order. */
  const EvaluationPlaceholders: seq<string> := [
    "<number 1-10>", "<number 1-10>", "<number 1-10>", "<number 1-10>", "<number 1-10>",
    "[\"strength 1\", \"strength 2\", \"strength 3\"]",
    "[\"weakness 1\", \"weakness 2\"]",
    "[\"action 1\", \"action 2\", \"action 3\"]",
    "[\"resource 1\", \"resource 2\", \"resource 3\"]",
    "\"Detailed advice for real interviews\""]

  function Quoted(key: string): string {
    "\"" + key + "\""
  }

  /** One `  "key": placeholder` line of the JSON template. */
  function KeyLine(key: string, placeholder: string): (r: string)
    ensures Contains(r, Quoted(key))
  {
    JoinContains(["  ", Quoted(key), ": ", placeholder], "", 1);
    Join(["  ", Quoted(key), ": ", placeholder], "")
  }

  function KeyLines(): (r: seq<string>)
    ensures |r| == |EvaluationKeys|
    ensures forall k :: 0 <= k < |r| ==> Contains(r[k], Quoted(EvaluationKeys[k]))
  {
    seq(|EvaluationKeys|, k requires 0 <= k < |EvaluationKeys| =>
      KeyLine(EvaluationKeys[k], EvaluationPlaceholders[k]))
  }

  /** `generateFinalEvaluationPrompt()`: a fixed request for one JSON object. */
  function GenerateFinalEvaluationPrompt(): string {
    EvaluationHead + Join(KeyLines(), ",\n") + EvaluationFoot
  }

  const EvaluationHead: string :=
    "Based on the entire interview conversation, provide a comprehensive final evaluation "
    + "in the following JSON format:\n\n{\n"
  const EvaluationFoot: string := "\n}\n\nProvide only the JSON object, no additional text."

  /** The evaluation prompt names every key of the evaluation, quoted. */
  lemma EvaluationPromptNamesKeys()
    ensures forall k :: 0 <= k < |EvaluationKeys| ==> Contains(GenerateFinalEvaluationPrompt(), Quoted(EvaluationKeys[k]))
  {
    var body := Join(KeyLines(), ",\n");
    forall k | 0 <= k < |EvaluationKeys| ensures Contains(GenerateFinalEvaluationPrompt(), Quoted(EvaluationKeys[k])) {
      JoinContains(KeyLines(), ",\n", k);
      ContainsTransitive(body, KeyLines()[k], Quoted(EvaluationKeys[k]));
      ContainsInfix(EvaluationHead, body, EvaluationFoot);
      ContainsTransitive(EvaluationHead + body + EvaluationFoot, body, Quoted(EvaluationKeys[k]));
    }
  }

  // ---------------------------------------------------------------------
  // The event stream
  // ---------------------------------------------------------------------

  /** One item the stream generator yields. */
  datatype StreamChunk = StreamChunk(text: string, isComplete: bool)

  const Completion: StreamChunk := StreamChunk("", true)

  /** The HTTP response as the reader sees it: whether the status is a success,
      the status and the error text, and the body as the decoded text chunks
      the reader delivers before it reports done (`None`: no readable body). */
  datatype Response = Response(ok: bool, status: nat, errorText: string, body: Option<seq<string>>)

  datatype StreamError = RequestFailed(status: nat, errorText: string) | BodyNotReadable

  /** The message of the error the stream throws: a failed request's message
      opens with a fixed text and ends with the server's error text. */
  function ErrorMessage(e: StreamError): (r: string)
    ensures e.RequestFailed? ==> && StartsWith(r, "API request failed: ")
                                 && |e.errorText| <= |r| && r[|r| - |e.errorText|..] == e.errorText
                                 && 23 + |e.errorText| <= |r|
                                 && r[20..|r| - |e.errorText| - 3] == NatToString(e.status)
                                 && r[|r| - |e.errorText| - 3..|r| - |e.errorText|] == " - "
    ensures e.BodyNotReadable? ==> r == "Response body is not readable"
  {
    match e
    case RequestFailed(status, text) => "API request failed: " + NatToString(status) + " - " + text
    case BodyNotReadable => "Response body is not readable"
  }

  const Newline: set<char> := {'\n'}
  const DataPrefix: string := "data: "
  const DoneMarker: string := "[DONE]"

  /** What one complete line of the stream amounts to. `parse` stands for
      `JSON.parse` followed by the lookup of `candidates[0].content.parts[0].text`;
      `None` means the parse threw or the field is missing. */
  datatype LineKind = Ignored | Done | Delta(text: string)

  function Classify(line: string, parse: string -> Option<string>): (k: LineKind)
    ensures k.Done? <==> StartsWith(line, DataPrefix) && line[6..] == DoneMarker
    ensures k.Delta? <==> && StartsWith(line, DataPrefix) && line[6..] != DoneMarker
                          && parse(line[6..]).Some? && parse(line[6..]).value != ""
    ensures k.Delta? ==> k.text == parse(line[6..]).value
  {
    if StartsWith(line, DataPrefix) then
      var data := line[6..];
      if data == DoneMarker then Done
      else
        match parse(data)
        case Some(text) => if text != "" then Delta(text) else Ignored
        case None => Ignored
    else Ignored
  }

  predicate NoDone(lines: seq<string>) {
    forall k :: 0 <= k < |lines| ==> !(StartsWith(lines[k], DataPrefix) && lines[k][6..] == DoneMarker)
  }

  /** The text chunks the complete lines produce, up to the first done line:
      each is incomplete and has non-empty text. */
  function Deltas(lines: seq<string>, parse: string -> Option<string>): (r: seq<StreamChunk>)
    ensures forall k :: 0 <= k < |r| ==> !r[k].isComplete && r[k].text != ""
  {
    if lines == [] then []
    else
      match Classify(lines[0], parse)
      case Done => []
      case Ignored => Deltas(lines[1..], parse)
      case Delta(text) => [StreamChunk(text, false)] + Deltas(lines[1..], parse)
  }

  lemma {:induction false} DeltasAppend(a: seq<string>, b: seq<string>, parse: string -> Option<string>)
    requires NoDone(a)
    ensures Deltas(a + b, parse) == Deltas(a, parse) + Deltas(b, parse)
  {
    if a == [] {
      assert a + b == b;
    } else {
      assert (a + b)[0] == a[0];
      assert (a + b)[1..] == a[1..] + b;
      assert NoDone(a[1..]) by {
        forall k | 0 <= k < |a[1..]| ensures !(StartsWith(a[1..][k], DataPrefix) && a[1..][k][6..] == DoneMarker) {
          assert a[1..][k] == a[k + 1];
        }
      }
      assert !(StartsWith(a[0], DataPrefix) && a[0][6..] == DoneMarker);
      DeltasAppend(a[1..], b, parse);
      match Classify(a[0], parse)
      case Ignored =>
      case Delta(text) =>
        assert Deltas(a + b, parse) == [StreamChunk(text, false)] + Deltas(a[1..] + b, parse);
    }
  }

  /** A done line ends the stream: no line after it is looked at. */
  lemma DeltasStopAtDone(a: seq<string>, line: string, b: seq<string>, parse: string -> Option<string>)
    requires NoDone(a) && StartsWith(line, DataPrefix) && line[6..] == DoneMarker
    ensures Deltas(a + [line] + b, parse) == Deltas(a, parse)
  {
    assert a + [line] + b == a + ([line] + b);
    DeltasAppend(a, [line] + b, parse);
    assert ([line] + b)[0] == line;
    assert Deltas(a, parse) + [] == Deltas(a, parse);
  }

  /** What the stream yields for the whole text the reader delivered: the text
      of every complete line up to the first done line, then one completion. */
  function StreamOutput(text: string, parse: string -> Option<string>): (r: seq<StreamChunk>)
    ensures |r| >= 1 && r[|r| - 1] == Completion
    ensures forall k :: 0 <= k < |r| - 1 ==> !r[k].isComplete && r[k].text != ""
  {
    Deltas(Closed(Split(text, Newline)), parse) + [Completion]
  }

  /** The concatenation of the chunks the reader delivered. */
  function Concat(chunks: seq<string>): string {
    if chunks == [] then "" else Concat(chunks[..|chunks| - 1]) + chunks[|chunks| - 1]
  }

  lemma {:induction false} ConcatAppend(a: seq<string>, b: seq<string>)
    ensures Concat(a + b) == Concat(a) + Concat(b)
    decreases |b|
  {
    if b == [] {
      assert a + b == a;
    } else {
      assert (a + b)[..|a + b| - 1] == a + b[..|b| - 1];
      ConcatAppend(a, b[..|b| - 1]);
    }
  }

  /** The closed lines of a longer text extend those of a shorter one. */
  lemma ClosedSplitConcat(a: string, b: string)
    ensures Closed(Split(a + b, Newline)) == Closed(Split(a, Newline)) + Closed(Split(Last(Split(a, Newline)) + b, Newline))
  {
    SplitConcat(a, b, Newline);
  }

  /** `streamInterviewResponse`: fails before yielding anything when the status
      is not a success or the body is unreadable; otherwise the chunks it yields
      depend only on the concatenation of the delivered text, not on where the
      chunk boundaries fall. */
  method StreamInterviewResponse(resp: Response, parse: string -> Option<string>)
    returns (r: Result<seq<StreamChunk>, StreamError>)
    ensures !resp.ok ==> r == Failure(RequestFailed(resp.status, resp.errorText))
    ensures resp.ok && resp.body.None? ==> r == Failure(BodyNotReadable)
    ensures resp.ok && resp.body.Some? ==> r == Success(StreamOutput(Concat(resp.body.value), parse))
  {
    if !resp.ok {
      return Failure(RequestFailed(resp.status, resp.errorText));
    }
    if resp.body.None? {
      return Failure(BodyNotReadable);
    }
    var chunks := resp.body.value;
    ghost var whole := Concat(chunks);
    var out: seq<StreamChunk> := [];
    var buffer := "";
    var i := 0;
    while i < |chunks|
      invariant 0 <= i <= |chunks|
      invariant buffer == Last(Split(Concat(chunks[..i]), Newline))
      invariant NoDone(Closed(Split(Concat(chunks[..i]), Newline)))
      invariant out == Deltas(Closed(Split(Concat(chunks[..i]), Newline)), parse)
    {
      ghost var seen := Closed(Split(Concat(chunks[..i]), Newline));
      var lines := Split(buffer + chunks[i], Newline);
      ChunkStep(chunks, i);
      buffer := lines[|lines| - 1];
      var j := 0;
      assert seen + lines[..0] == seen;
      while j < |lines| - 1
        invariant 0 <= j <= |lines| - 1
        invariant NoDone(seen + lines[..j])
        invariant out == Deltas(seen + lines[..j], parse)
      {
        var line := lines[j];
        if StartsWith(line, DataPrefix) {
          var data := line[6..];
          if data == DoneMarker {
            DoneEndsWholeStream(chunks, i, seen, lines, j, parse);
            return Success(out + [Completion]);
          }
          var text := parse(data);
          if text.Some? && text.value != "" {
            out := out + [StreamChunk(text.value, false)];
          }
        }
        LineStep(seen, lines, j, parse);
        j := j + 1;
      }
      ClosedOfAppend(seen, lines);
      i := i + 1;
    }
    assert chunks[..i] == chunks;
    return Success(out + [Completion]);
  }

  /** The lines after chunk `i`: the closed lines so far, then the split of
      the open line followed by the chunk. */
  lemma ChunkStep(chunks: seq<string>, i: nat)
    requires i < |chunks|
    ensures Split(Concat(chunks[..i + 1]), Newline)
            == Closed(Split(Concat(chunks[..i]), Newline)) + Split(Last(Split(Concat(chunks[..i]), Newline)) + chunks[i], Newline)
  {
    assert chunks[..i + 1] == chunks[..i] + [chunks[i]];
    ConcatAppend(chunks[..i], [chunks[i]]);
    assert Concat([chunks[i]]) == chunks[i] by { assert [chunks[i]][..0] == []; }
    SplitConcat(Concat(chunks[..i]), chunks[i], Newline);
  }

  /** One more complete line that is not a done line: it adds its delta, if any. */
  lemma LineStep(seen: seq<string>, lines: seq<string>, j: nat, parse: string -> Option<string>)
    requires j < |lines| && NoDone(seen + lines[..j])
    requires !(StartsWith(lines[j], DataPrefix) && lines[j][6..] == DoneMarker)
    ensures NoDone(seen + lines[..j + 1])
    ensures Classify(lines[j], parse).Delta? ==>
              Deltas(seen + lines[..j + 1], parse)
              == Deltas(seen + lines[..j], parse) + [StreamChunk(Classify(lines[j], parse).text, false)]
    ensures !Classify(lines[j], parse).Delta? ==>
              Deltas(seen + lines[..j + 1], parse) == Deltas(seen + lines[..j], parse)
  {
    assert lines[..j + 1] == lines[..j] + [lines[j]];
    assert seen + lines[..j + 1] == (seen + lines[..j]) + [lines[j]];
    DeltasAppend(seen + lines[..j], [lines[j]], parse);
    assert [lines[j]][1..] == [];
  }

  /** The closed lines and the open line of `seen + lines`. */
  lemma ClosedOfAppend(seen: seq<string>, lines: seq<string>)
    requires |lines| >= 1
    ensures Closed(seen + lines) == seen + lines[..|lines| - 1]
    ensures Last(seen + lines) == lines[|lines| - 1]
  {
  }

  /** When line `j` of the lines formed after chunk `i` is a done line, the
      chunks yielded so far are all the whole text's chunks. */
  lemma DoneEndsWholeStream(chunks: seq<string>, i: nat, seen: seq<string>, lines: seq<string>, j: nat,
                            parse: string -> Option<string>)
    requires i < |chunks| && j < |lines| - 1
    requires Split(Concat(chunks[..i + 1]), Newline) == seen + lines
    requires NoDone(seen + lines[..j])
    requires StartsWith(lines[j], DataPrefix) && lines[j][6..] == DoneMarker
    ensures Deltas(Closed(Split(Concat(chunks), Newline)), parse) == Deltas(seen + lines[..j], parse)
  {
    var a := Concat(chunks[..i + 1]);
    var b := Concat(chunks[i + 1..]);
    ConcatSplitAt(chunks, i + 1);
    ClosedSplitConcat(a, b);
    var more := Closed(Split(Last(Split(a, Newline)) + b, Newline));
    var after := ClosedAroundLine(seen, lines, j, more);
    DeltasStopAtDone(seen + lines[..j], lines[j], after, parse);
  }

  lemma ConcatSplitAt(chunks: seq<string>, n: nat)
    requires n <= |chunks|
    ensures Concat(chunks) == Concat(chunks[..n]) + Concat(chunks[n..])
  {
    assert chunks == chunks[..n] + chunks[n..];
    ConcatAppend(chunks[..n], chunks[n..]);
  }

  /** The closed lines around line `j`, as a sequence identity. */
  lemma ClosedAroundLine(seen: seq<string>, lines: seq<string>, j: nat, more: seq<string>)
    returns (after: seq<string>)
    requires j < |lines| - 1
    ensures Closed(seen + lines) + more == (seen + lines[..j]) + [lines[j]] + after
  {
    after := lines[j + 1..|lines| - 1] + more;
    assert Closed(seen + lines) == seen + lines[..|lines| - 1];
    assert lines[..|lines| - 1] == lines[..j] + [lines[j]] + lines[j + 1..|lines| - 1];
  }

  /** Text after the last line break is never processed. */
  lemma TrailingTextIgnored(text: string, tail: string, parse: string -> Option<string>)
    requires forall k :: 0 <= k < |tail| ==> tail[k] != '\n'
    ensures StreamOutput(text + tail, parse) == StreamOutput(text, parse)
  {
    var pieces := Split(text, Newline);
    var open := Last(pieces) + tail;
    forall k | 0 <= k < |open| ensures open[k] !in Newline {
      if k < |Last(pieces)| {
        SplitPiecesFree(text, Newline, |pieces| - 1, k);
      } else {
        assert open[k] == tail[k - |Last(pieces)|];
      }
    }
    SplitNoSeparator(open, Newline);
    SplitConcat(text, tail, Newline);
    assert Closed(Closed(pieces) + [open]) == Closed(pieces);
  }

  /** Where a chunk boundary falls does not matter: a body whose chunk
      `x + y` arrives as two chunks `x` and `y` streams the same items. */
  lemma {:induction false} ChunkBoundaryIrrelevant(a: seq<string>, x: string, y: string, b: seq<string>,
                                                   parse: string -> Option<string>)
    ensures StreamOutput(Concat(a + [x + y] + b), parse) == StreamOutput(Concat(a + [x, y] + b), parse)
  {
    ConcatAppend(a + [x + y], b);
    ConcatAppend(a + [x, y], b);
    ConcatAppend(a, [x + y]);
    ConcatAppend(a, [x, y]);
    ConcatPair(x, y);
    assert Concat(a + [x + y] + b) == Concat(a + [x, y] + b);
  }

  lemma ConcatPair(x: string, y: string)
    ensures Concat([x, y]) == x + y == Concat([x + y])
  {
    assert [x, y][..1] == [x] && [x + y][..0] == [] && [x][..0] == [];
    assert Concat([x]) == "" + x == x;
    assert Concat([x + y]) == "" + (x + y) == x + y;
  }

  /** The text of the incomplete chunks, in order: completion chunks add
      nothing, and a single text chunk is its own text. */
  function FullText(chunks: seq<StreamChunk>): (r: string)
    ensures (forall k :: 0 <= k < |chunks| ==> chunks[k].isComplete) ==> r == ""
    ensures |chunks| == 1 && !chunks[0].isComplete ==> r == chunks[0].text
  {
    if chunks == [] then ""
    else FullText(chunks[..|chunks| - 1])
         + (if chunks[|chunks| - 1].isComplete then "" else chunks[|chunks| - 1].text)
  }

  /** `fullResponse +=` over two runs of chunks is the text of the first
      followed by the text of the second. */
  lemma {:induction false} FullTextAppend(a: seq<StreamChunk>, b: seq<StreamChunk>)
    ensures FullText(a + b) == FullText(a) + FullText(b)
    decreases |b|
  {
    if b != [] {
      var b' := b[..|b| - 1];
      var last := b[|b| - 1];
      var t := if last.isComplete then "" else last.text;
      assert (a + b)[..|a + b| - 1] == a + b' && (a + b)[|a + b| - 1] == last;
      assert FullText(a + b) == FullText(a + b') + t;
      assert FullText(b) == FullText(b') + t;
      FullTextAppend(a, b');
    } else {
      assert a + b == a;
    }
  }

  /** What a caller that streams `resp` and concatenates the text of the
      incomplete chunks ends with: the stream's error exactly when the status
      fails or the body is missing; otherwise the texts of the data lines among
      the complete lines before `[DONE]`, joined, with nothing from the
      completion chunk or the unterminated tail. */
  function StreamedText(resp: Response, parse: string -> Option<string>): (r: Result<string, StreamError>)
    ensures r.Failure? <==> !resp.ok || resp.body.None?
    ensures r.Success? ==>
              r.value == FullText(Deltas(Closed(Split(Concat(resp.body.value), Newline)), parse))
  {
    if !resp.ok then Failure(RequestFailed(resp.status, resp.errorText))
    else if resp.body.None? then Failure(BodyNotReadable)
    else
      FullTextOfStream(Closed(Split(Concat(resp.body.value), Newline)), parse);
      Success(FullText(StreamOutput(Concat(resp.body.value), parse)))
  }

  /** `callInterviewAPI`: the concatenation of every text chunk the stream
      yields, or the stream's error. */
  method CallInterviewApi(resp: Response, parse: string -> Option<string>)
    returns (r: Result<string, StreamError>)
    ensures !resp.ok ==> r == Failure(RequestFailed(resp.status, resp.errorText))
    ensures resp.ok && resp.body.None? ==> r == Failure(BodyNotReadable)
    ensures resp.ok && resp.body.Some? ==>
              r == Success(FullText(StreamOutput(Concat(resp.body.value), parse)))
    ensures r == StreamedText(resp, parse)
  {
    var stream := StreamInterviewResponse(resp, parse);
    if stream.Failure? {
      return Failure(stream.error);
    }
    var chunks := stream.value;
    var fullResponse := "";
    for k := 0 to |chunks|
      invariant fullResponse == FullText(chunks[..k])
    {
      assert chunks[..k + 1][..k] == chunks[..k];
      if !chunks[k].isComplete {
        fullResponse := fullResponse + chunks[k].text;
      }
    }
    assert chunks[..|chunks|] == chunks;
    return Success(fullResponse);
  }

  /** The full response is the texts of the data lines before the first done
      line, joined without separators. */
  lemma {:induction false} FullTextOfStream(lines: seq<string>, parse: string -> Option<string>)
    ensures FullText(Deltas(lines, parse) + [Completion]) == FullText(Deltas(lines, parse))
  {
    var d := Deltas(lines, parse);
    assert (d + [Completion])[..|d|] == d;
  }
}
