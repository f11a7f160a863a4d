# AI interviewer: a Dafny model of its core

The AI interviewer is a React application. A candidate fills in a
configuration form. An interview session then streams questions from a
language model over server-sent events (SSE) and reads per-answer feedback
out of each reply. Once enough answers are in, it asks for a final JSON
evaluation, or uses a fixed fallback. The answer box counts pauses and
corrections while the candidate types. The feedback card and the
evaluation report turn scores into colours, badges and labels. The same
repository also holds a small meme manager: a searchable list of memes
with add, edit and delete, and a form for a meme's title, url and tags.

The model follows the program's structure, one module per source file:

- `Text`, `Lists` and `Wrappers` hold the JavaScript string and array
  operations the components use:
  - `trim` over the ECMAScript white-space set;
  - `toLowerCase` on ASCII letters;
  - `includes`, `split`, `join`, `filter` and `replace(/-/g, ' ')`;
  - decimal numerals.
- `InterviewTypes` holds the configuration record and the enumerations.
- `InterviewApi` holds the two prompt builders and the SSE reader.
  - The reader is a `while` loop over the body's chunks, proved against a
    function of the concatenated body.
  - How the body is cut into chunks does not matter. That remains true when
    the reader returns early at `[DONE]`, and when the body ends with
    unterminated text, which is never yielded.
- `FeedbackExtraction` holds `extractFeedback`. Its regular expressions are
  written as scanners.
- `InterviewSession` holds the round schedule, the running mean, the JSON
  span of the evaluation reply, the fallback evaluation, and the session
  as a class whose methods update its fields.
- `ConfigurationForm`, `AnswerInput`, `FeedbackCard` and `EvaluationReport`
  model the components of the same names. The typing counters of the
  answer box are in a module of their own, `AnswerTyping`.
- `MemeForm` and `MemeApp` model the meme manager.

The network response, `JSON.parse` and the clock are inputs, as described
under "Left out".

## Model

| member | source | states |
|---|---|---|
| InterviewApi.GenerateInterviewPrompt | src/services/interviewApi.ts:11-43 | the prompt for the first question, or the fixed follow-up prompt |
| InterviewApi.InitialPromptCarriesProfile | src/services/interviewApi.ts:13-20 | the first prompt names the mode, level, role, domain, the candidate's name and every listed skill |
| InterviewApi.FollowUpPromptIsFixed | src/services/interviewApi.ts:43 | the follow-up prompt is the same text for every configuration |
| InterviewApi.KeyLines | src/services/interviewApi.ts:46-60 | one line per evaluation field, each naming its quoted key |
| InterviewApi.GenerateFinalEvaluationPrompt | src/services/interviewApi.ts:46-63 | the fixed request for one JSON object: a head, one line per key joined by commas and newlines, and a foot; its keys are stated by the next row |
| InterviewApi.EvaluationPromptNamesKeys | src/services/interviewApi.ts:46-63 | the evaluation prompt names every key of the expected JSON object |
| InterviewApi.Classify | src/services/interviewApi.ts:105-119 | a line is the end marker exactly when it is `data: [DONE]`; it yields text exactly when it is another `data:` line whose payload parses to non-empty text |
| InterviewApi.Deltas | src/services/interviewApi.ts:104-124 | every chunk yielded from the lines is incomplete and non-empty |
| InterviewApi.DeltasAppend | src/services/interviewApi.ts:104-124 | lines before any end marker contribute their chunks independently of what follows |
| InterviewApi.DeltasStopAtDone | src/services/interviewApi.ts:108-111 | nothing after the end marker is yielded |
| InterviewApi.StreamOutput | src/services/interviewApi.ts:91-127 | the stream ends with exactly one completion chunk, and every chunk before it carries text |
| InterviewApi.StreamInterviewResponse | src/services/interviewApi.ts:65-132 | a failed response and an unreadable body raise their errors; otherwise the chunks yielded by the buffered line loop are those of the whole body's complete lines |
| InterviewApi.DoneEndsWholeStream | src/services/interviewApi.ts:108-111 | returning at the end marker inside a chunk yields what the whole body's lines would yield |
| InterviewApi.TrailingTextIgnored | src/services/interviewApi.ts:100-102 | text after the last newline is never yielded |
| InterviewApi.ChunkBoundaryIrrelevant | src/services/interviewApi.ts:100-102 | splitting one network chunk in two changes nothing in the output |
| InterviewApi.ConcatAppend | src/services/interviewApi.ts:100 | appending chunks to the buffer appends their texts |
| InterviewApi.ClosedSplitConcat | src/services/interviewApi.ts:101-102 | the complete lines of a joined buffer are those of the first part, then of its remainder joined with the rest |
| InterviewApi.ErrorMessage | src/services/interviewApi.ts:82-88 | a failed request's message is the fixed text, the decimal numeral of the status, ` - ` and the server's error text, in that order; an unreadable body has its fixed message |
| InterviewApi.CallInterviewApi | src/services/interviewApi.ts:134-146 | the concatenated text of the stream, or the stream's error |
| InterviewApi.FullText | src/services/interviewApi.ts:137-143 | the `fullResponse +=` fold over the chunks: completion chunks add nothing, and one text chunk gives its own text |
| InterviewApi.FullTextAppend | src/services/interviewApi.ts:137-143 | folding two runs of chunks one after the other gives the text of the first followed by that of the second |
| InterviewApi.StreamedText | src/services/interviewApi.ts:134-146 | the error exactly when the status fails or the body is missing; otherwise the joined texts of the data lines among the complete lines before `[DONE]`, nothing from the completion chunk or the unterminated tail |
| InterviewApi.FullTextOfStream | src/services/interviewApi.ts:139-143 | the completion chunk adds nothing to the text |
| FeedbackExtraction.RunEnd | src/components/interview/InterviewSession.tsx:239 | the longest run of `[:\s]` from a position |
| FeedbackExtraction.DigitEnd | src/components/interview/InterviewSession.tsx:239 | the longest run of digits from a position |
| FeedbackExtraction.FirstMatch | src/components/interview/InterviewSession.tsx:239-247 | the leftmost position where a pattern matches, and none before it |
| FeedbackExtraction.FirstMatchIs | src/components/interview/InterviewSession.tsx:239-247 | the leftmost match, and only it, is what the search finds |
| FeedbackExtraction.ScoreOf | src/components/interview/InterviewSession.tsx:239-240 | a reply without a `score: N/10` statement scores 7 |
| FeedbackExtraction.ScoreIsFirst | src/components/interview/InterviewSession.tsx:239-240 | the leftmost `score: N/10` anywhere in the reply gives the score: `parseInt` of its digits, whatever text precedes it |
| FeedbackExtraction.ScoreRoundTrip | src/components/interview/InterviewSession.tsx:239-240 | a reply holding `Score: N/10` after text with no score statement of its own scores N, for every N and every such prefix |
| FeedbackExtraction.KeyRun | src/components/interview/InterviewSession.tsx:242-245 | a label followed by a non-empty `[:\s]` run ends after that run |
| FeedbackExtraction.KeyRunFirst | src/components/interview/InterviewSession.tsx:242 | label alternatives are tried in their written order |
| FeedbackExtraction.StopFrom | src/components/interview/InterviewSession.tsx:242-245 | the lazy capture ends at the first place where the lookahead holds |
| FeedbackExtraction.Section | src/components/interview/InterviewSession.tsx:242-245 | a section is captured exactly when its label pattern matches somewhere |
| FeedbackExtraction.SectionIsFirstLabel | src/components/interview/InterviewSession.tsx:242-245 | the capture starts after the leftmost label and its run and stops at the first stop word |
| FeedbackExtraction.ImprovementsAsWritten | src/components/interview/InterviewSession.tsx:243 | the alternation of the pattern as written sits at the top level, and its bare branch captures nothing |
| FeedbackExtraction.AsWrittenDropsLabelledList | src/components/interview/InterviewSession.tsx:243 | when the bare label comes first, the improvements list is empty |
| FeedbackExtraction.ImprovementsAsWrittenLosesList | src/components/interview/InterviewSession.tsx:243 | `Areas for improvement: be concise` loses its list as written |
| FeedbackExtraction.Improvements | src/components/interview/InterviewSession.tsx:243 | with the alternation grouped, a capture exists exactly when a labelled section does |
| FeedbackExtraction.ImprovementsKeepsList | src/components/interview/InterviewSession.tsx:243 | with the alternation grouped, the same reply keeps `be concise` |
| FeedbackExtraction.TrimAll | src/components/interview/InterviewSession.tsx:253 | every piece is trimmed, in place |
| FeedbackExtraction.ListPieces | src/components/interview/InterviewSession.tsx:252-253 | the split at bullets, hyphens and line breaks, then trimmed: piece i is the trimmed i-th piece of the split, and there is one piece more than there are separators |
| Text.SplitCount | src/components/interview/InterviewSession.tsx:252 | splitting at n separator characters gives n + 1 pieces |
| FeedbackExtraction.KeepItems | src/components/interview/InterviewSession.tsx:254 | exactly the pieces passing `KeepItem` (1 to 199 UTF-16 code units) are kept, in order and each as often as it occurs |
| FeedbackExtraction.ParseList | src/components/interview/InterviewSession.tsx:249-256 | no text gives no items; otherwise at most the first three kept pieces |
| FeedbackExtraction.ParseListItems | src/components/interview/InterviewSession.tsx:249-256 | every item is trimmed, between 1 and 199 UTF-16 code units long, and free of bullets, hyphens and newlines |
| FeedbackExtraction.ParseListOfPlainItem | src/components/interview/InterviewSession.tsx:249-256 | every capture that is trimmed, free of separators and of 1 to 199 UTF-16 code units is parsed as exactly that one item |
| FeedbackExtraction.Suggestion | src/components/interview/InterviewSession.tsx:289 | a missing or blank capture gives the default; otherwise the longest non-empty prefix of the trimmed capture within 300 UTF-16 code units, which is the whole capture when it fits |
| FeedbackExtraction.TrimOption | src/components/interview/InterviewSession.tsx:290 | `?.trim()`: a missing capture stays missing; a capture becomes exactly its trimmed text, which occurs in it |
| FeedbackExtraction.RoleCapture | src/components/interview/InterviewSession.tsx:246 | nothing is captured exactly when no role name occurs anywhere in the reply; a capture, lower-cased, is one of the four role names |
| FeedbackExtraction.RoleCaptureAt | src/components/interview/InterviewSession.tsx:246 | the leftmost role name of the reply is captured, as written |
| FeedbackExtraction.GetRole | src/components/interview/InterviewSession.tsx:258-265 | the keyword checks in source order, with `hr` when there is no text or no keyword |
| FeedbackExtraction.GetPersonality | src/components/interview/InterviewSession.tsx:267-275 | each of the five personalities exactly when its keyword occurs and no earlier keyword does, with `friendly-hr` when there is no text or no keyword |
| FeedbackExtraction.DifficultyOf | src/components/interview/InterviewSession.tsx:247 | a reply without a difficulty statement is medium |
| FeedbackExtraction.DifficultyIsFirst | src/components/interview/InterviewSession.tsx:247 | the leftmost difficulty statement anywhere in the reply gives the difficulty, whatever text precedes it |
| FeedbackExtraction.DifficultyRoundTrip | src/components/interview/InterviewSession.tsx:247 | a reply holding `Difficulty: <name>` after text with no difficulty statement of its own has that difficulty, for each of the four |
| FeedbackExtraction.ExtractFeedback | src/components/interview/InterviewSession.tsx:238-296 | every dimension carries the score; strengths, improvements (from the corrected pattern), suggestion, model answer, role and difficulty are each the named extractor applied to the reply; a time of 0, friendly-hr personality, and `hr` without a role name |
| FeedbackExtraction.PersonalityAlwaysFriendly | src/components/interview/InterviewSession.tsx:246-292 | no role name the pattern captures holds a personality keyword, so the personality is always friendly-hr |
| FeedbackExtraction.NoPersonalityKeyword | src/components/interview/InterviewSession.tsx:267-275 | none of the four role names contains strict, logical, creative, ceo or visionary |
| FeedbackExtraction.RoleOfPhrase | src/components/interview/InterviewSession.tsx:258-265 | each captured role name, in any case, gives the interviewer of the same name |
| FeedbackExtraction.ExtractedRole | src/components/interview/InterviewSession.tsx:246-291 | a reply whose leftmost role name is the k-th records the k-th interviewer |
| InterviewSession.IndexOf | src/components/interview/InterviewSession.tsx:149 | the first index of the round, or -1 when it is absent |
| InterviewSession.NextRound | src/components/interview/InterviewSession.tsx:145-154 | a round changes exactly in comprehensive mode, on the third answer of a round before the last, to the following round |
| InterviewSession.AfterSubmit | src/components/interview/InterviewSession.tsx:192-198 | on the third answer of a comprehensive round whose index in the schedule is below 2 (or -1), the next round `ROUNDS[i + 1]` starts at 0; otherwise the round stays and the count goes up by one; the round never moves back |
| InterviewSession.SingleRoundInterview | src/components/interview/InterviewSession.tsx:148 | outside comprehensive mode the round never changes and the count only grows |
| InterviewSession.BehavioralIsLast | src/components/interview/InterviewSession.tsx:150 | the behavioral round is never left |
| InterviewSession.ThreeAnswersPerRound | src/components/interview/InterviewSession.tsx:41-42 | three answers move a comprehensive interview from one round to the next, with the count reset |
| InterviewSession.ComprehensiveSchedule | src/components/interview/InterviewSession.tsx:41-42 | from screening, six answers reach the behavioral round |
| InterviewSession.SubmitsCompose | src/components/interview/InterviewSession.tsx:145-198 | m answers then n answers are m + n answers |
| InterviewSession.SubmitsNeverGoBack | src/components/interview/InterviewSession.tsx:145-198 | over any run of answers (`AfterSubmits`) the round never moves back in the schedule and the count grows by at most one per answer |
| InterviewSession.AfterSubmitKeepsCountWithinRound | src/components/interview/InterviewSession.tsx:192-198 | in comprehensive mode the count of a round before the last stays below three |
| InterviewSession.RunningMean | src/components/interview/InterviewSession.tsx:217-219 | the new average times the new count is the old total plus the score |
| InterviewSession.MeanTracksSum | src/components/interview/InterviewSession.tsx:217-219 | updating the mean of some scores with one more gives the mean of all of them |
| InterviewSession.MeanOfScores | src/components/interview/InterviewSession.tsx:217-219 | the running average is the sum of the scores over their count |
| InterviewSession.MeanExample | src/components/interview/InterviewSession.tsx:217-219 | scores 8, 6 and 10 average 8, 7 and 8 in turn |
| InterviewSession.Target | src/components/interview/InterviewSession.tsx:224 | nine answers in comprehensive mode, five otherwise |
| InterviewSession.FirstIndex | src/components/interview/InterviewSession.tsx:317-324 | the first occurrence of the character |
| InterviewSession.LastIndex | src/components/interview/InterviewSession.tsx:317-324 | the last occurrence of the character |
| InterviewSession.JsonSpan | src/components/interview/InterviewSession.tsx:317-324 | a span exists exactly when some `{` precedes some `}`; it runs from the first `{` to the last `}` |
| InterviewSession.JsonText | src/components/interview/InterviewSession.tsx:317-319 | `jsonMatch[0]`: present exactly when some `}` follows a `{`; then a piece of the reply opening with `{` and closing with `}` |
| InterviewSession.JsonTextOfWrappedObject | src/components/interview/InterviewSession.tsx:317-324 | prose around one object is cut off |
| InterviewSession.FallbackEvaluation | src/components/interview/InterviewSession.tsx:327-390 | the fixed evaluation used when none can be read; its shape is stated by the next row |
| InterviewSession.FallbackEvaluationShape | src/components/interview/InterviewSession.tsx:327-390 | the fallback's scores, readiness level and list lengths |
| InterviewSession.EvaluationOutcome | src/components/interview/InterviewSession.tsx:310-392 | the parsed evaluation exactly when the stream succeeds, a span exists and it parses; the fallback otherwise |
| InterviewSession.FallbackOnEveryFailure | src/components/interview/InterviewSession.tsx:322-392 | a failed stream, a reply without a span or an unparsable span all give the fallback |
| InterviewSession.Session.constructor | src/components/interview/InterviewSession.tsx:45-62 | the session state before the interview starts |
| InterviewSession.Session.StartInterview | src/components/interview/InterviewSession.tsx:81-121 | sends the first prompt; records the streamed question, or the error message |
| InterviewSession.Session.HandleAnswerSubmit | src/components/interview/InterviewSession.tsx:123-236 | sends the answer and the follow-up prompt; on success counts the answer, moves the round, updates role, difficulty and mean, and evaluates once the target is reached; on failure records the error and keeps the progress |
| InterviewSession.Session.PostAnswer | src/components/interview/InterviewSession.tsx:125-141 | the answer joins the transcript and the history; the error and the shown question are cleared |
| InterviewSession.Session.Receive | src/components/interview/InterviewSession.tsx:175-233 | a failed stream shows its error and changes nothing else; a successful one has the effect of ApplyReply |
| InterviewSession.Session.ApplyReply | src/components/interview/InterviewSession.tsx:183-228 | the effect of a successful reply on the history, messages, counters and evaluation |
| InterviewSession.Session.RecordFeedback | src/components/interview/InterviewSession.tsx:189-220 | one more answer, the next round state, the running mean, and the reply's role and difficulty |
| InterviewSession.Session.GenerateFinalEvaluation | src/components/interview/InterviewSession.tsx:298-396 | sends the evaluation prompt and stores the evaluation outcome; the interview is complete |
| ConfigurationForm.Form.constructor | src/components/interview/ConfigurationForm.tsx:17-30 | the initial form values |
| ConfigurationForm.Form.EditText | src/components/interview/ConfigurationForm.tsx:17-30 | a text input changes its own field only |
| ConfigurationForm.Form.Choose | src/components/interview/ConfigurationForm.tsx:17-30 | the selects and switches take the chosen values |
| Lists.AddTrimmed | src/components/interview/ConfigurationForm.tsx:32-37 | the trimmed input is appended and the input cleared exactly when it is non-blank and not yet listed |
| Lists.AddTrimmedKeepsClean | src/components/interview/ConfigurationForm.tsx:32-37 | adding keeps every entry trimmed, non-empty and listed once |
| Lists.RemoveAll | src/components/interview/ConfigurationForm.tsx:39-41 | every occurrence of the value goes, the rest keep their order |
| Lists.RemoveAllKeepsClean | src/components/interview/ConfigurationForm.tsx:39-41 | removing keeps the list clean |
| Lists.ToggleCapped | src/components/interview/ConfigurationForm.tsx:43-51 | a selected value is deselected; another is added only below the cap |
| Lists.ToggleCappedKeepsBound | src/components/interview/ConfigurationForm.tsx:43-51 | toggling keeps the selection distinct and within the cap |
| ConfigurationForm.Form.AddSkill | src/components/interview/ConfigurationForm.tsx:32-37 | adds a skill as `Lists.AddTrimmed` does and keeps the skills clean |
| ConfigurationForm.Form.RemoveSkill | src/components/interview/ConfigurationForm.tsx:39-41 | removes the skill and keeps the skills clean |
| ConfigurationForm.Form.TogglePersonality | src/components/interview/ConfigurationForm.tsx:43-51 | toggles as `Lists.ToggleCapped` with cap 3 |
| ConfigurationForm.IsComplete | src/components/interview/ConfigurationForm.tsx:77 | the form's guard: non-blank name, role and domain after trimming, and at least one skill; `Form.Submit` emits a configuration exactly when it holds |
| ConfigurationForm.Form.Submit | src/components/interview/ConfigurationForm.tsx:53-77 | a configuration exactly when the form is complete, with trimmed texts, clean skills and one to three distinct personalities, friendly-hr when none was chosen |
| AnswerTyping.AfterChange | src/components/interview/AnswerInput.tsx:51-73 | the text becomes the new value and the clock starts at the first change; with tracking on, one pause exactly after a gap over two seconds since a recorded keystroke, one correction exactly when the UTF-16 length dropped, and the refs take the time and length; with tracking off, nothing else changes |
| AnswerTyping.TrackedTyping | src/components/interview/AnswerInput.tsx:51-73 | with tracking on, the counters count the pauses over two seconds and the shortening edits of the whole typing |
| AnswerTyping.UntrackedTyping | src/components/interview/AnswerInput.tsx:51-73 | with tracking off, typing changes only the text and the start time |
| AnswerTyping.StartTimeKept | src/components/interview/AnswerInput.tsx:53-57 | once started, the start time never moves |
| AnswerTyping.FirstChangeStartsClock | src/components/interview/AnswerInput.tsx:53-57 | the start time is the time of the first change |
| AnswerInput.AnswerBox.constructor | src/components/interview/AnswerInput.tsx:25-31 | an empty box with zero counters |
| AnswerInput.AnswerBox.HandleChange | src/components/interview/AnswerInput.tsx:51-73 | one change, as `AnswerTyping.AfterChange` describes it |
| AnswerInput.AnswerBox.HandleSubmit | src/components/interview/AnswerInput.tsx:75-94 | a submission exactly for a non-blank answer with no submit in flight, carrying the trimmed answer and its metrics, after which the box is idle; otherwise nothing changes |
| AnswerInput.Submitted | src/components/interview/AnswerInput.tsx:75-84 | a submission exactly when the trimmed answer is non-blank and no submit is in flight, carrying the trimmed answer, the start time (the submit time when typing never started), the end time, the untrimmed length in UTF-16 code units and both counters |
| AnswerInput.AnswerBox.Clear | src/components/interview/AnswerInput.tsx:85-91 | the text, start time, counters, elapsed time and both refs are back at zero |
| AnswerInput.PadStart | src/components/interview/AnswerInput.tsx:108 | pads a digit string on the left to the given length, keeping the text at the end |
| AnswerInput.FormatTime | src/components/interview/AnswerInput.tsx:105-109 | the clock reads back as the whole minutes without leading zeros, a colon and the remaining seconds in two digits |
| AnswerInput.ClockReadsBack | src/components/interview/AnswerInput.tsx:105-109 | `m:ss` reads back as m and s |
| FeedbackCard.ScoreColor | src/components/interview/FeedbackCard.tsx:13-17 | success from 8, warning from 6, destructive below |
| FeedbackCard.ScoreBadgeVariant | src/components/interview/FeedbackCard.tsx:19-23 | the badge bands of the same thresholds |
| FeedbackCard.ScoreBarColor | src/components/interview/FeedbackCard.tsx:167-171 | the bar bands of the same thresholds |
| FeedbackCard.ClassifiersAgree | src/components/interview/FeedbackCard.tsx:13-23 | two scores share a colour exactly when they share a badge, and exactly when they share a bar colour |
| FeedbackCard.ScoreColorMonotone | src/components/interview/FeedbackCard.tsx:13-17 | a higher score never gets a worse colour |
| FeedbackCard.RoleLabel | src/components/interview/FeedbackCard.tsx:25-33 | the display names of the four ids; any other text as it is |
| FeedbackCard.RoleLabelRoundTrip | src/components/interview/FeedbackCard.tsx:25-33 | the shown name is a role name the extractor reads back as the same interviewer |
| FeedbackCard.DifficultyColor | src/components/interview/FeedbackCard.tsx:35-43 | the class of each difficulty, medium's for unknown text |
| FeedbackCard.DifficultyColorsDistinct | src/components/interview/FeedbackCard.tsx:35-43 | the four difficulties get four different classes |
| FeedbackCard.TimeSpentAsWritten | src/components/interview/FeedbackCard.tsx:67-72 | as written, a time of 0 renders a bare `0` |
| FeedbackCard.AsWrittenShowsZero | src/components/interview/FeedbackCard.tsx:67-72 | every extracted feedback shows the stray `0` |
| FeedbackCard.TimeSpent | src/components/interview/FeedbackCard.tsx:67-72 | the line exactly for a non-zero time |
| FeedbackCard.TimeSpentOf | src/components/interview/FeedbackCard.tsx:70 | the time 60m + s reads m minutes and s seconds |
| EvaluationReport.OverallRating | src/components/interview/EvaluationReport.tsx:39-44 | Excellent from 9, Good from 7, Fair from 5, Needs Improvement below, each with its colour class (success, primary, warning, destructive) |
| EvaluationReport.RatingMonotone | src/components/interview/EvaluationReport.tsx:39-44 | a higher score never gets a lower rating |
| EvaluationReport.FallbackRatedGood | src/components/interview/EvaluationReport.tsx:39-44 | the fallback evaluation is rated Good |
| EvaluationReport.ScoreBarColor | src/components/interview/EvaluationReport.tsx:16-20 | success from 8, warning from 6, destructive below |
| EvaluationReport.BarsAgree | src/components/interview/EvaluationReport.tsx:16-20 | on whole scores the report's bars colour as the feedback card's do |
| EvaluationReport.ReadinessLabel | src/components/interview/EvaluationReport.tsx:78 | every hyphen becomes a space, every other character stays in place |
| EvaluationReport.ReadinessLabelWithoutHyphen | src/components/interview/EvaluationReport.tsx:78 | a level without hyphens is shown as it is |
| EvaluationReport.FallbackReadiness | src/components/interview/EvaluationReport.tsx:78 | the fallback reads `needs practice` |
| MemeForm.Form.constructor | examples/4c6b5652-d7cd-42f9-9e38-5df96bab2887/src/components/MemeForm.tsx:12-19 | the form holds the initial data, or empty fields |
| MemeForm.Form.EditTitle | examples/4c6b5652-d7cd-42f9-9e38-5df96bab2887/src/components/MemeForm.tsx:50 | only the title changes |
| MemeForm.Form.EditUrl | examples/4c6b5652-d7cd-42f9-9e38-5df96bab2887/src/components/MemeForm.tsx:61 | only the url changes |
| MemeForm.Form.EditTagInput | examples/4c6b5652-d7cd-42f9-9e38-5df96bab2887/src/components/MemeForm.tsx:73 | the tag input is the typed text; nothing else changes |
| MemeForm.Form.AddTag | examples/4c6b5652-d7cd-42f9-9e38-5df96bab2887/src/components/MemeForm.tsx:26-34 | adds a tag as `Lists.AddTrimmed` does; title and url stay and the tags stay distinct |
| MemeForm.Form.RemoveTag | examples/4c6b5652-d7cd-42f9-9e38-5df96bab2887/src/components/MemeForm.tsx:36-41 | every copy of the tag goes, the rest of the form stays |
| MemeForm.Form.Submit | examples/4c6b5652-d7cd-42f9-9e38-5df96bab2887/src/components/MemeForm.tsx:21-24 | hands over the form data unchanged |
| Lists.Filter | examples/4c6b5652-d7cd-42f9-9e38-5df96bab2887/src/App.tsx:35 | the passing elements, in order, each as often as in the list |
| MemeApp.Search | examples/4c6b5652-d7cd-42f9-9e38-5df96bab2887/src/App.tsx:44-47 | the memes whose title or some tag contains the term, ignoring case, in order |
| MemeApp.EmptySearchShowsAll | examples/4c6b5652-d7cd-42f9-9e38-5df96bab2887/src/App.tsx:44-47 | an empty search shows every meme |
| MemeApp.SearchIgnoresCase | examples/4c6b5652-d7cd-42f9-9e38-5df96bab2887/src/App.tsx:45-46 | lower-casing the term changes nothing |
| MemeApp.TitleFound | examples/4c6b5652-d7cd-42f9-9e38-5df96bab2887/src/App.tsx:45 | a meme whose title contains the term is shown |
| MemeApp.NewMeme | examples/4c6b5652-d7cd-42f9-9e38-5df96bab2887/src/App.tsx:23-27 | the form's fields with the fresh id and time |
| MemeApp.Merge | examples/4c6b5652-d7cd-42f9-9e38-5df96bab2887/src/App.tsx:18 | the form's fields over the meme, id and time kept |
| MemeApp.EditById | examples/4c6b5652-d7cd-42f9-9e38-5df96bab2887/src/App.tsx:16-20 | the memes with the id take the form's fields, the others stay, in place |
| MemeApp.EditKeepsIds | examples/4c6b5652-d7cd-42f9-9e38-5df96bab2887/src/App.tsx:16-20 | editing keeps every id and creation time |
| MemeApp.EditAbsentId | examples/4c6b5652-d7cd-42f9-9e38-5df96bab2887/src/App.tsx:16-20 | editing an unknown id changes nothing |
| MemeApp.EditTwice | examples/4c6b5652-d7cd-42f9-9e38-5df96bab2887/src/App.tsx:16-20 | the same edit twice is the edit once |
| MemeApp.DeleteById | examples/4c6b5652-d7cd-42f9-9e38-5df96bab2887/src/App.tsx:35 | no meme with the id remains, every other one remains as often and in order |
| MemeApp.DeleteAbsentId | examples/4c6b5652-d7cd-42f9-9e38-5df96bab2887/src/App.tsx:35 | deleting an unknown id changes nothing |
| MemeApp.DeleteOne | examples/4c6b5652-d7cd-42f9-9e38-5df96bab2887/src/App.tsx:35 | with unique ids, deleting a listed meme's id removes exactly that meme |
| MemeApp.DeleteKeepsUnique | examples/4c6b5652-d7cd-42f9-9e38-5df96bab2887/src/App.tsx:35 | deleting keeps the ids unique |
| MemeApp.App.constructor | examples/4c6b5652-d7cd-42f9-9e38-5df96bab2887/src/App.tsx:9-12 | the built-in memes, no form, no edit, no search |
| MemeApp.App.OpenForm | examples/4c6b5652-d7cd-42f9-9e38-5df96bab2887/src/App.tsx:57 | the form opens |
| MemeApp.App.HandleEdit | examples/4c6b5652-d7cd-42f9-9e38-5df96bab2887/src/App.tsx:39-42 | the form opens on the meme, filled with its fields |
| MemeApp.App.Cancel | examples/4c6b5652-d7cd-42f9-9e38-5df96bab2887/src/App.tsx:85-88 | the form closes and nothing is being edited |
| MemeApp.App.SetSearchTerm | examples/4c6b5652-d7cd-42f9-9e38-5df96bab2887/src/App.tsx:70 | the search term is the typed text |
| MemeApp.App.Shown | examples/4c6b5652-d7cd-42f9-9e38-5df96bab2887/src/App.tsx:44-47 | what the grid shows: every meme matching the current term, as often as it is listed, and no other, in their order; all of them for an empty term |
| MemeApp.App.InitialData | examples/4c6b5652-d7cd-42f9-9e38-5df96bab2887/src/App.tsx:84 | the form is filled with the edited meme's title, url and tags exactly while a meme is edited |
| MemeApp.App.HandleSubmit | examples/4c6b5652-d7cd-42f9-9e38-5df96bab2887/src/App.tsx:14-31 | an edit applies the form to the edited id, otherwise the new meme goes in front; the form closes; a fresh id keeps the ids unique |
| MemeApp.App.HandleDelete | examples/4c6b5652-d7cd-42f9-9e38-5df96bab2887/src/App.tsx:33-37 | a confirmed delete removes the id, and an unconfirmed one changes nothing; ids stay unique |
| Text.Trim | src/components/interview/ConfigurationForm.tsx:33 | the result is the input with its leading white-space run and its trailing white-space run removed and nothing else: a trimmed infix starting after the leading run, followed only by white space; empty exactly when the input is all white space |
| Text.Utf16Prefix | src/components/interview/InterviewSession.tsx:289 | the longest prefix of at most n UTF-16 code units, the whole text when it fits |
| Text.TrimIsInfix | src/components/interview/ConfigurationForm.tsx:33 | the trimmed text occurs in the input |
| Text.SplitConcat | src/services/interviewApi.ts:101 | splitting a joined text splits its parts and joins the piece at the seam |
| Text.NatToString | src/components/interview/AnswerInput.tsx:106-108 | the decimal numeral, whose digits read back as the number |
| Text.DigitsValueOfNatToString | src/components/interview/AnswerInput.tsx:106-108 | the numeral of n has the value n |
| Text.ReplaceAll | src/components/interview/EvaluationReport.tsx:78 | every occurrence of one character becomes another |

## Left out

- The network is out of scope. `fetch`, the headers and the URL are not modelled. The response is an input: its status, its error text, and its body as already-decoded text chunks, or no body. `TextDecoder` is not modelled. Two failures of the network itself are therefore not modelled either: `fetch` rejecting (no response at all), and `reader.read()` throwing in the middle of the stream. In the source both propagate as errors out of `streamInterviewResponse` (after any chunks already yielded, in the second case); `StreamedText` and `StreamInterviewResponse` return an error only for a failed status or a missing body.
- `JSON.parse` is a parameter. For an SSE line it stands with the `candidates[0].content.parts[0].text` lookup; for the evaluation it stands with the parse of the JSON span. Exceptions it throws are the `None` case.
- The interview's streamed text reaches the session as one value. The intermediate `setCurrentQuestion` calls during streaming are not modelled.
- Toasts, `console` logging, scrolling, speech, loading flags and all rendering other than the labels and classes above are out of scope.
- Numbers: the per-answer score (`FeedbackExtraction.ScoreOf`, `QuestionFeedback.score`) is `parseInt` of a digit run, modelled as an exact `nat`. It equals the source's value for runs below 2^53; above that, `parseInt` rounds to the nearest double, which the model does not capture. The card classifiers (`FeedbackCard.ScoreColor`, `ScoreBadgeVariant`, `ScoreBarColor`) take that whole score as an `int`. Only the evaluation's scores, the running mean and the report's rating thresholds are JavaScript doubles, modelled as mathematical reals, so their rounding is not modelled. `toFixed` and the percentage widths of the bars are out of scope.
- `Date.now`, `new Date()` and the one-second timer that moves `elapsedTime` are out of scope; times are parameters.
  - `AnswerInput.AnswerBox.HandleSubmit`: one time parameter stands for both clock reads when the submit builds its metrics.
- The browser's HTML constraint validation is out of scope: the `required` attributes on the meme title and url inputs and on the name, role and domain inputs of the configuration form, and `type="url"` on the meme url input. So `MemeForm.Form.Submit` and `MemeApp.App.HandleSubmit` accept a meme with an empty title or a url of any form, which the browser would block before the submit handler runs. The configuration form's own `IsComplete` guard is modelled, so the `required` attributes there add nothing to it.
- `crypto.randomUUID` and `window.confirm` are parameters of the meme page's methods.
- `Text.Lower`: lower-cases ASCII letters only, not the full Unicode mapping of `toLowerCase`.
- `FeedbackCard.RoleLabel`: the label table lookup falls back to the text itself. Inherited object keys such as `constructor` are not modelled.
- `FeedbackCard.DifficultyColor`: an unknown difficulty gets medium's class. Inherited object keys are not modelled: for `constructor` the source's `colors[difficulty] || colors.medium` yields a function, not a class.
- `FeedbackExtraction.Suggestion`: `slice(0, 300)` can cut a surrogate pair in half and keep a lone high surrogate, which a Dafny string cannot hold. The model keeps the whole code point out instead, so its result can be one code unit shorter than the source's.
- `FeedbackExtraction.ExtractFeedback`: the regular expressions are written as the scanners they amount to.
  - The case-insensitive flag is `Text.Lower` on ASCII.
  - `\s` is the ECMAScript white-space set.
  - The `s` flag's `.` matches every character.
  - `difficulty` keeps the lower-cased capture; the record's declared type is not narrowed.
- `FeedbackExtraction.ExtractFeedback`: the improvements list is read with the corrected pattern, `Improvements`, whose label alternatives are grouped. It is not read with the pattern as written at src/components/interview/InterviewSession.tsx:243. So when a reply's first improvements label is `Areas for improvement`, the model records the list after it. The program records no improvements for such a reply, as the first row of "## Findings" shows with `ImprovementsAsWrittenLosesList`. The feedback the session stores in its messages differs in the same way.
- `InterviewApi.GenerateInterviewPrompt`: the function takes a configuration and a flag. The callers' extra arguments (round, transition, role, difficulty, average, count) are ignored, as JavaScript ignores them.
- `InterviewSession.Session.HandleAnswerSubmit`: the typing metrics that the answer box passes are not used, as in the source.
- `MemeApp.Merge`: replaces title, url and tags. At run time the form's object is the edited meme itself, so the spread also copies its id and creation time back. That gives the same record whenever the ids are unique.
- Every file not named above is not part of this model, including the meme card, the progress indicator, the header and the routes.

## Findings

| source | as written | input that shows it | evidently intended | confidence | as-written member | corrected member |
|---|---|---|---|---|---|---|
| src/components/interview/InterviewSession.tsx:243 | the improvements pattern's alternation is at the top level, so a reply using `Areas for improvement:` matches the bare branch, which has no capture group | `Areas for improvement: be concise` gives no improvements | group the label alternatives, as the strengths pattern does, so the list after either label is captured | not executed | FeedbackExtraction.ImprovementsAsWrittenLosesList | FeedbackExtraction.ImprovementsKeepsList |
| src/components/interview/FeedbackCard.tsx:67-72 | `{feedback.timeSpent && ...}` renders the number 0 as text, and the extractor always records a time of 0 | any reply: its card shows a stray `0` | show the time line only for a non-zero time, and nothing otherwise | not executed | FeedbackCard.AsWrittenShowsZero | FeedbackCard.TimeSpent |
