/** The interview session controller: the round schedule, the running mean of
    the scores, the completion threshold, the choice of the evaluation object
    in the model's last reply with its fixed fallback, and the session state
    that starting the interview, submitting an answer and generating the
    final evaluation update. */
module InterviewSession {
  import opened Wrappers
  import opened InterviewTypes
  import opened InterviewApi
  import opened FeedbackExtraction
  import opened Lists
  import opened Text

  // ---------------------------------------------------------------------
  // Rounds
  // ---------------------------------------------------------------------

  const QuestionsPerRound: nat := 3
  const Rounds: seq<InterviewRound> := [Screening, Technical, Behavioral]

  /** `Array.prototype.indexOf`: the first position of `x`, or -1. */
  function IndexOf(xs: seq<InterviewRound>, x: InterviewRound): (i: int)
    ensures -1 <= i < |xs|
    ensures i >= 0 ==> xs[i] == x && x !in xs[..i]
    ensures i == -1 <==> x !in xs
  {
    if xs == [] then -1
    else if xs[0] == x then 0
    else
      var j := IndexOf(xs[1..], x);
      assert j >= 0 ==> xs[..j + 1] == [xs[0]] + xs[1..][..j];
      if j == -1 then -1 else j + 1
  }

  /** The round of the next question and whether it opens a new round. */
  datatype RoundStep = RoundStep(round: InterviewRound, isTransition: bool)

  /** The round chosen before the next prompt: only a comprehensive
      interview moves on, on the third answer of a round and from a round
      that is not the last one; the final round, missing from the schedule,
      moves to the first one. */
  function NextRound(mode: InterviewMode, round: InterviewRound, count: nat): (r: RoundStep)
    ensures r.isTransition <==> mode == Comprehensive && count + 1 >= QuestionsPerRound && round != Behavioral
    ensures r.isTransition ==> r.round == match round
                                          case Screening => Technical
                                          case Technical => Behavioral
                                          case _ => Screening
    ensures !r.isTransition ==> r.round == round
  {
    if mode == Comprehensive && count + 1 >= QuestionsPerRound then
      var i := IndexOf(Rounds, round);
      if i < |Rounds| - 1 then RoundStep(Rounds[i + 1], true) else RoundStep(round, false)
    else RoundStep(round, false)
  }

  /** The round and the number of answers given in it. */
  datatype RoundState = RoundState(round: InterviewRound, count: nat)

  /** The round state after one successful submit: on the third answer of a
      comprehensive round that is not the last in `Rounds`, the next round of
      the schedule starts at zero (a round missing from it, at index -1, goes
      to the first); otherwise the count goes up by one. */
  function AfterSubmit(mode: InterviewMode, s: RoundState): (r: RoundState)
    ensures var i := IndexOf(Rounds, s.round);
            && (mode == Comprehensive && s.count + 1 >= QuestionsPerRound && i < |Rounds| - 1 ==>
                  r == RoundState(Rounds[i + 1], 0))
            && (!(mode == Comprehensive && s.count + 1 >= QuestionsPerRound && i < |Rounds| - 1) ==>
                  r == RoundState(s.round, s.count + 1))
    ensures IndexOf(Rounds, s.round) <= IndexOf(Rounds, r.round)
  {
    var step := NextRound(mode, s.round, s.count);
    if step.isTransition then RoundState(step.round, 0) else RoundState(s.round, s.count + 1)
  }

  /** `n` successful submits in a row. */
  function AfterSubmits(mode: InterviewMode, s: RoundState, n: nat): RoundState
    decreases n
  {
    if n == 0 then s else AfterSubmits(mode, AfterSubmit(mode, s), n - 1)
  }

  /** Over any run of submits the round never moves back in the schedule,
      and the count grows by at most one per answer. */
  lemma {:induction false} SubmitsNeverGoBack(mode: InterviewMode, s: RoundState, n: nat)
    ensures IndexOf(Rounds, s.round) <= IndexOf(Rounds, AfterSubmits(mode, s, n).round)
    ensures AfterSubmits(mode, s, n).count <= s.count + n
    decreases n
  {
    if n > 0 {
      SubmitsNeverGoBack(mode, AfterSubmit(mode, s), n - 1);
    }
  }

  /** Outside a comprehensive interview the round never changes and every
      answer is counted in it. */
  lemma {:induction false} SingleRoundInterview(mode: InterviewMode, s: RoundState, n: nat)
    requires mode != Comprehensive
    ensures AfterSubmits(mode, s, n) == RoundState(s.round, s.count + n)
    decreases n
  {
    if n > 0 {
      SingleRoundInterview(mode, AfterSubmit(mode, s), n - 1);
    }
  }

  /** The behavioral round is the last: once in it, the interview stays. */
  lemma {:induction false} BehavioralIsLast(mode: InterviewMode, c: nat, n: nat)
    ensures AfterSubmits(mode, RoundState(Behavioral, c), n) == RoundState(Behavioral, c + n)
    decreases n
  {
    if n > 0 {
      BehavioralIsLast(mode, c + 1, n - 1);
    }
  }

  /** A comprehensive interview spends three answers in each round before
      the behavioral one, and from the final round it restarts at screening. */
  lemma ThreeAnswersPerRound(round: InterviewRound)
    requires round != Behavioral
    ensures AfterSubmits(Comprehensive, RoundState(round, 0), QuestionsPerRound)
            == RoundState(if round == Screening then Technical
                          else if round == Technical then Behavioral
                          else Screening, 0)
  {
    var s1 := AfterSubmit(Comprehensive, RoundState(round, 0));
    var s2 := AfterSubmit(Comprehensive, s1);
    assert s1 == RoundState(round, 1) && s2 == RoundState(round, 2);
  }

  /** The schedule of a comprehensive interview started in screening: three
      screening, three technical and then behavioral answers only. */
  lemma ComprehensiveSchedule(n: nat)
    requires n >= 2 * QuestionsPerRound
    ensures AfterSubmits(Comprehensive, RoundState(Screening, 0), n)
            == RoundState(Behavioral, n - 2 * QuestionsPerRound)
  {
    ThreeAnswersPerRound(Screening);
    ThreeAnswersPerRound(Technical);
    SubmitsCompose(Comprehensive, RoundState(Screening, 0), QuestionsPerRound, n - QuestionsPerRound);
    SubmitsCompose(Comprehensive, RoundState(Technical, 0), QuestionsPerRound, n - 2 * QuestionsPerRound);
    BehavioralIsLast(Comprehensive, 0, n - 2 * QuestionsPerRound);
  }

  lemma {:induction false} SubmitsCompose(mode: InterviewMode, s: RoundState, m: nat, n: nat)
    ensures AfterSubmits(mode, s, m + n) == AfterSubmits(mode, AfterSubmits(mode, s, m), n)
    decreases m
  {
    if m > 0 {
      SubmitsCompose(mode, AfterSubmit(mode, s), m - 1, n);
    }
  }

  /** In a comprehensive interview a round other than the last one never
      holds more than two counted answers. */
  predicate CountWithinRound(mode: InterviewMode, s: RoundState) {
    mode == Comprehensive && s.round != Behavioral ==> s.count < QuestionsPerRound
  }

  lemma AfterSubmitKeepsCountWithinRound(mode: InterviewMode, s: RoundState)
    requires CountWithinRound(mode, s)
    ensures CountWithinRound(mode, AfterSubmit(mode, s))
  {
  }

  // ---------------------------------------------------------------------
  // Running mean and completion
  // ---------------------------------------------------------------------

  function Sum(scores: seq<nat>): real {
    if scores == [] then 0.0 else Sum(scores[..|scores| - 1]) + scores[|scores| - 1] as real
  }

  /** The new average after the `n + 1`-th score: the old total plus the
      score, over the new count. */
  function RunningMean(average: real, n: nat, score: nat): (r: real)
    ensures r * (n + 1) as real == average * n as real + score as real
  {
    (average * n as real + score as real) / (n + 1) as real
  }

  /** The average times the count is the total of the scores. */
  predicate IsMeanOf(average: real, scores: seq<nat>) {
    average * |scores| as real == Sum(scores)
  }

  /** The running mean stays the mean of the scores after the next score. */
  lemma MeanTracksSum(average: real, scores: seq<nat>, score: nat)
    requires IsMeanOf(average, scores)
    ensures IsMeanOf(RunningMean(average, |scores|, score), scores + [score])
  {
    assert (scores + [score])[..|scores|] == scores;
  }

  /** Such an average is the mean of the scores, and nothing before the first score. */
  lemma MeanOfScores(average: real, scores: seq<nat>)
    requires IsMeanOf(average, scores)
    ensures |scores| > 0 ==> average == Sum(scores) / |scores| as real
  {
  }

  /** The scores 8, 6 and 10 give the averages 8, 7 and 8. */
  lemma MeanExample()
    ensures RunningMean(0.0, 0, 8) == 8.0
    ensures RunningMean(8.0, 1, 6) == 7.0
    ensures RunningMean(7.0, 2, 10) == 8.0
  {
  }

  /** The number of answers after which the final evaluation runs. */
  function Target(mode: InterviewMode): (n: nat)
    ensures n == if mode == Comprehensive then 9 else 5
  {
    if mode == Comprehensive then QuestionsPerRound * 3 else 5
  }

  // ---------------------------------------------------------------------
  // The evaluation object in the last reply
  // ---------------------------------------------------------------------

  /** The first position of `c` in `s`. */
  function FirstIndex(s: string, c: char): (r: Option<nat>)
    ensures r.Some? ==> r.value < |s| && s[r.value] == c && forall k :: 0 <= k < r.value ==> s[k] != c
    ensures r.None? ==> forall k :: 0 <= k < |s| ==> s[k] != c
  {
    if s == [] then None
    else if s[0] == c then Some(0)
    else match FirstIndex(s[1..], c)
      case None => None
      case Some(i) => Some(i + 1)
  }

  /** The last position of `c` in `s`. */
  function LastIndex(s: string, c: char): (r: Option<nat>)
    ensures r.Some? ==> r.value < |s| && s[r.value] == c && forall k :: r.value < k < |s| ==> s[k] != c
    ensures r.None? ==> forall k :: 0 <= k < |s| ==> s[k] != c
  {
    if s == [] then None
    else if s[|s| - 1] == c then Some(|s| - 1)
    else LastIndex(s[..|s| - 1], c)
  }

  /** A slice `s[start..end]`. */
  datatype Span = Span(start: nat, end: nat)

  /** What the greedy pattern for an object matches: from the first `{` to
      the last `}` after it, or nothing when no `}` follows a `{`. */
  function JsonSpan(s: string): (r: Option<Span>)
    ensures r.None? <==> forall i, j :: 0 <= i < j < |s| && s[i] == '{' ==> s[j] != '}'
    ensures r.Some? ==> var sp := r.value;
            && sp.start < sp.end <= |s| && s[sp.start] == '{' && s[sp.end - 1] == '}'
            && (forall k :: 0 <= k < sp.start ==> s[k] != '{')
            && (forall k :: sp.end <= k < |s| ==> s[k] != '}')
  {
    match FirstIndex(s, '{')
    case None => None
    case Some(i) =>
      match LastIndex(s, '}')
      case None => None
      case Some(j) => if i < j then Some(Span(i, j + 1)) else None
  }

  /** `jsonMatch[0]`, the text handed to the JSON parser: present exactly
      when some `}` follows a `{`, and then a piece of the reply that opens
      with `{` and closes with `}`. */
  function JsonText(s: string): (r: Option<string>)
    ensures r.None? <==> forall i, j :: 0 <= i < j < |s| && s[i] == '{' ==> s[j] != '}'
    ensures r.Some? ==> && 2 <= |r.value| && r.value[0] == '{' && r.value[|r.value| - 1] == '}'
                        && Contains(s, r.value)
  {
    match JsonSpan(s)
    case None => None
    case Some(sp) =>
      ContainsAt(s, s[sp.start..sp.end], sp.start);
      Some(s[sp.start..sp.end])
  }

  /** Text before the first brace and after the last one is ignored. */
  lemma JsonTextOfWrappedObject(before: string, body: string, after: string)
    requires forall k :: 0 <= k < |before| ==> before[k] != '{'
    requires forall k :: 0 <= k < |after| ==> after[k] != '}'
    ensures JsonText(before + "{" + body + "}" + after) == Some("{" + body + "}")
  {
    var s := before + "{" + body + "}" + after;
    var b := |before|;
    var e := |before| + |body| + 2;
    assert s[b] == '{' && s[e - 1] == '}';
    forall k | 0 <= k < b ensures s[k] != '{' {
      assert s[k] == before[k];
    }
    forall k | e <= k < |s| ensures s[k] != '}' {
      assert s[k] == after[k - e];
    }
    var sp := JsonSpan(s).value;
    assert sp.start == b && sp.end == e;
    assert s[b..e] == "{" + body + "}";
  }

  // ---------------------------------------------------------------------
  // The final evaluation record
  // ---------------------------------------------------------------------

  datatype Resource = Resource(title: string, kind: string, description: string, priority: string)
  datatype PlanWeek = PlanWeek(week: nat, focus: string, activities: seq<string>,
                               resources: seq<Resource>, milestones: seq<string>)
  datatype ScoreEntry = ScoreEntry(category: string, score: real, feedback: string)

  /** The record the final evaluation builds (wider than the declared type). */
  datatype FinalEvaluation = FinalEvaluation(
    technicalScore: real,
    behavioralScore: real,
    situationalScore: real,
    communicationScore: real,
    problemSolvingScore: real,
    culturalFitScore: real,
    overallScore: real,
    strengths: seq<string>,
    weaknesses: seq<string>,
    improvementPlan: seq<PlanWeek>,
    resources: seq<Resource>,
    advice: string,
    performanceTrend: string,
    readinessLevel: string,
    detailedScorecard: seq<ScoreEntry>)

  const FallbackStrengths: seq<string> :=
    ["Good communication", "Thoughtful responses", "Professional demeanor"]

  const FallbackWeaknesses: seq<string> :=
    ["Could provide more specific examples", "Consider elaborating on technical details"]

  const FallbackPlan: seq<PlanWeek> := [
    PlanWeek(1, "Foundation Building",
             ["Practice answering common interview questions", "Prepare specific examples from your experience"],
             [Resource("Interview Preparation Guide", "article", "Comprehensive guide to interview prep", "high")],
             ["Complete 10 practice questions", "Document 5 STAR stories"]),
    PlanWeek(2, "Technical Skills",
             ["Review technical concepts", "Practice coding challenges"],
             [Resource("Technical Interview Handbook", "book", "Essential technical interview guide", "high")],
             ["Solve 20 coding problems", "Review core concepts"]),
    PlanWeek(3, "Behavioral Questions",
             ["Study the STAR method", "Prepare behavioral stories"],
             [Resource("STAR Method Course", "course", "Master behavioral interviews", "medium")],
             ["Prepare 10 behavioral stories", "Practice with peers"]),
    PlanWeek(4, "Mock Interviews",
             ["Conduct mock interviews", "Get feedback from peers"],
             [Resource("Mock Interview Platform", "exercise", "Practice with real scenarios", "high")],
             ["Complete 3 mock interviews", "Refine weak areas"])]

  const FallbackResources: seq<Resource> := [
    Resource("Practice with mock interviews", "exercise", "Regular practice sessions", "high"),
    Resource("Review common interview questions for your field", "article", "Industry-specific questions", "medium"),
    Resource("Study the STAR method for behavioral questions", "course", "Behavioral interview technique", "medium")]

  const FallbackAdvice: string :=
    "You demonstrated good potential in this interview. Focus on providing more specific examples "
    + "and elaborating on your technical knowledge. Keep practicing and you will continue to improve!"

  const FallbackScorecard: seq<ScoreEntry> := [
    ScoreEntry("Technical Knowledge", 7.0, "Good foundation, needs more depth"),
    ScoreEntry("Problem Solving", 7.0, "Solid approach to problems"),
    ScoreEntry("Communication", 7.0, "Clear and professional"),
    ScoreEntry("Behavioral Skills", 7.0, "Good interpersonal awareness"),
    ScoreEntry("Cultural Fit", 7.0, "Aligns well with team values")]

  /** The evaluation shown when no evaluation could be read from the reply. */
  function FallbackEvaluation(): FinalEvaluation {
    FinalEvaluation(7.0, 7.0, 7.0, 7.0, 7.0, 7.0, 7.0,
                    FallbackStrengths, FallbackWeaknesses, FallbackPlan, FallbackResources,
                    FallbackAdvice, "consistent", "needs-practice", FallbackScorecard)
  }

  /** The fallback gives every score 7, a four-week plan numbered 1 to 4,
      five scorecard entries of 7 each, and marks the candidate as needing
      practice with a consistent trend. */
  lemma FallbackEvaluationShape()
    ensures var e := FallbackEvaluation();
            && e.technicalScore == 7.0 && e.behavioralScore == 7.0 && e.situationalScore == 7.0
            && e.communicationScore == 7.0 && e.problemSolvingScore == 7.0
            && e.culturalFitScore == 7.0 && e.overallScore == 7.0
            && |e.improvementPlan| == 4
            && (forall k :: 0 <= k < |e.improvementPlan| ==> e.improvementPlan[k].week == k + 1)
            && |e.detailedScorecard| == 5
            && (forall k :: 0 <= k < |e.detailedScorecard| ==> e.detailedScorecard[k].score == 7.0)
            && e.readinessLevel == "needs-practice" && e.performanceTrend == "consistent"
  {
  }

  /** The evaluation that ends the interview: the parsed object of the reply
      when the stream succeeded, the pattern matched and the object parsed,
      and the fallback in every other case. */
  function EvaluationOutcome(streamed: Result<string, StreamError>,
                             parseEvaluation: string -> Option<FinalEvaluation>,
                             fallback: FinalEvaluation): (e: FinalEvaluation)
    ensures e == fallback
            || (streamed.Success? && JsonText(streamed.value).Some?
                && parseEvaluation(JsonText(streamed.value).value) == Some(e))
    ensures streamed.Success? && JsonText(streamed.value).Some?
            && parseEvaluation(JsonText(streamed.value).value).Some?
            ==> e == parseEvaluation(JsonText(streamed.value).value).value
  {
    match streamed
    case Failure(_) => fallback
    case Success(text) =>
      match JsonText(text)
      case None => fallback
      case Some(span) => parseEvaluation(span).GetOr(fallback)
  }

  /** A failed stream, a reply without an object or an object that does not
      parse all end the interview with the fallback. */
  lemma FallbackOnEveryFailure(streamed: Result<string, StreamError>,
                               parseEvaluation: string -> Option<FinalEvaluation>)
    requires || streamed.Failure?
             || JsonText(streamed.value).None?
             || parseEvaluation(JsonText(streamed.value).value).None?
    ensures EvaluationOutcome(streamed, parseEvaluation, FallbackEvaluation()) == FallbackEvaluation()
  {
  }

  // ---------------------------------------------------------------------
  // The session state
  // ---------------------------------------------------------------------

  /** Who wrote a message of the visible transcript. */
  datatype Speaker = Candidate | Assistant

  /** A message of the transcript, with the feedback read from a reply. */
  datatype Message = Message(role: Speaker, content: string, feedback: Option<QuestionFeedback>)

  function UserTurn(text: string): ConversationMessage {
    ConversationMessage(User, text)
  }

  function ModelTurn(text: string): ConversationMessage {
    ConversationMessage(Model, text)
  }

  /** A snapshot of the session's progress. */
  datatype Progress = Progress(answeredCount: nat, scores: seq<nat>, round: InterviewRound, roundQuestionCount: nat,
                               averageScore: real, role: InterviewerRole, difficulty: Difficulty,
                               isComplete: bool, finalEvaluation: Option<FinalEvaluation>)

  /** The session of one interview. The prompts depend on the fixed
      configuration only, and the fallback evaluation is a constant, so the
      session holds them from the start: the follow-up prompt is the text
      `generateInterviewPrompt(config, false)` gives for every configuration
      (FollowUpPromptIsFixed). */
  class Session {
    const config: InterviewConfig
    const followUpPrompt: string
    const evaluationPrompt: string
    const fallbackEvaluation: FinalEvaluation
    var messages: seq<Message>
    var history: seq<ConversationMessage>
    var currentQuestion: string
    var error: Option<string>
    var answeredCount: nat
    var isComplete: bool
    var finalEvaluation: Option<FinalEvaluation>
    var currentRound: InterviewRound
    var roundQuestionCount: nat
    var currentDifficulty: Difficulty
    var averageScore: real
    var currentRole: InterviewerRole
    /** The scores of the answers so far. */
    ghost var scores: seq<nat>

    /** The average is the mean of the scores, one score per answer, and a
        comprehensive round before the last one holds fewer than three answers. */
    ghost predicate Valid()
      reads this`scores, this`answeredCount, this`averageScore, this`currentRound, this`roundQuestionCount
    {
      && |scores| == answeredCount
      && IsMeanOf(averageScore, scores)
      && CountWithinRound(config.mode, RoundState(currentRound, roundQuestionCount))
    }

    /** What the replies have moved so far: the counters, the average, the
        interviewer and the outcome. */
    ghost function Snapshot(): Progress
      reads this`answeredCount, this`scores, this`currentRound, this`roundQuestionCount,
            this`averageScore, this`currentRole, this`currentDifficulty, this`isComplete, this`finalEvaluation
    {
      Progress(answeredCount, scores, currentRound, roundQuestionCount, averageScore,
               currentRole, currentDifficulty, isComplete, finalEvaluation)
    }

    constructor(config: InterviewConfig)
      ensures this.config == config
      ensures followUpPrompt == FollowUpPrompt
      ensures evaluationPrompt == GenerateFinalEvaluationPrompt()
      ensures fallbackEvaluation == FallbackEvaluation()
      ensures messages == [] && history == [] && currentQuestion == "" && error == None
      ensures answeredCount == 0 && !isComplete && finalEvaluation == None
      ensures currentRound == config.round && roundQuestionCount == 0
      ensures currentDifficulty == Medium && averageScore == 0.0 && currentRole == Hr
      ensures Valid()
    {
      this.config := config;
      followUpPrompt := FollowUpPrompt;
      evaluationPrompt := GenerateFinalEvaluationPrompt();
      fallbackEvaluation := FallbackEvaluation();
      messages := [];
      history := [];
      currentQuestion := "";
      error := None;
      answeredCount := 0;
      isComplete := false;
      finalEvaluation := None;
      currentRound := config.round;
      roundQuestionCount := 0;
      currentDifficulty := Medium;
      averageScore := 0.0;
      currentRole := Hr;
      scores := [];
    }

    /** `startInterview`: the initial prompt is sent; its reply becomes the
        first message, or the stream's error is shown. */
    method StartInterview(resp: Response, parse: string -> Option<string>)
      returns (request: seq<ConversationMessage>)
      modifies this`error, this`history, this`messages, this`currentQuestion
      ensures request == [UserTurn(GenerateInterviewPrompt(config, true))]
      ensures match StreamedText(resp, parse)
              case Success(text) =>
                && history == request + [ModelTurn(text)]
                && messages == [Message(Assistant, text, None)]
                && currentQuestion == (if text == "" then old(currentQuestion) else text)
                && error == None
              case Failure(e) =>
                && history == request && messages == old(messages)
                && currentQuestion == old(currentQuestion)
                && error == Some(ErrorMessage(e))
    {
      error := None;
      request := [UserTurn(GenerateInterviewPrompt(config, true))];
      history := request;
      var streamed := CallInterviewApi(resp, parse);
      match streamed
      case Failure(e) =>
        error := Some(ErrorMessage(e));
      case Success(text) =>
        if text != "" {
          currentQuestion := text;
        }
        history := request + [ModelTurn(text)];
        messages := [Message(Assistant, text, None)];
    }

    /** `handleAnswerSubmit`: the answer joins the transcript and the history;
        the follow-up prompt is sent; on success the reply's feedback moves
        the round, the counters, the average, the role and the difficulty,
        and the final evaluation runs once enough answers are in. A failed
        stream leaves the answer in the history and changes nothing else. */
    method HandleAnswerSubmit(answer: string, resp: Response, evaluationResp: Response,
                              parse: string -> Option<string>,
                              parseEvaluation: string -> Option<FinalEvaluation>)
      returns (request: seq<ConversationMessage>, reply: Result<string, StreamError>,
               evaluationRequest: Option<seq<ConversationMessage>>)
      requires Valid()
      modifies this`error, this`history, this`messages, this`currentQuestion, this`finalEvaluation, this`isComplete,
               this`averageScore, this`scores, this`answeredCount, this`currentRound, this`roundQuestionCount,
               this`currentDifficulty, this`currentRole
      ensures Valid()
      ensures reply == StreamedText(resp, parse)
      ensures request == old(history) + [UserTurn(answer), UserTurn(followUpPrompt)]
      ensures reply.Failure? ==>
                && history == old(history) + [UserTurn(answer)]
                && messages == old(messages) + [Message(Candidate, answer, None)]
                && currentQuestion == "" && error == Some(ErrorMessage(reply.error))
                && evaluationRequest == None
      ensures reply.Failure? ==> Snapshot() == old(Snapshot())
      ensures reply.Success? ==>
                var text := reply.value;
                && history == request + [ModelTurn(text)]
                && messages == old(messages) + [Message(Candidate, answer, None),
                                                Message(Assistant, text, Some(ExtractFeedback(text)))]
                && currentQuestion == text && error == None
      ensures reply.Success? ==>
                var feedback := ExtractFeedback(reply.value);
                && answeredCount == old(answeredCount) + 1
                && scores == old(scores) + [feedback.score]
                && RoundState(currentRound, roundQuestionCount)
                   == AfterSubmit(config.mode, RoundState(old(currentRound), old(roundQuestionCount)))
                && averageScore == RunningMean(old(averageScore), old(answeredCount), feedback.score)
                && currentRole == feedback.interviewerRole
                && currentDifficulty == feedback.difficulty
      ensures reply.Success? && answeredCount >= Target(config.mode) ==>
                && evaluationRequest == Some(history + [UserTurn(evaluationPrompt)])
                && isComplete
                && finalEvaluation == Some(EvaluationOutcome(StreamedText(evaluationResp, parse), parseEvaluation, fallbackEvaluation))
      ensures reply.Success? && answeredCount < Target(config.mode) ==>
                && evaluationRequest == None
                && isComplete == old(isComplete) && finalEvaluation == old(finalEvaluation)
    {
      PostAnswer(answer);
      request := history + [UserTurn(followUpPrompt)];
      reply := CallInterviewApi(resp, parse);
      evaluationRequest := Receive(request, reply, evaluationResp, parse, parseEvaluation);
      if reply.Success? {
        AppendTwo(old(messages), Message(Candidate, answer, None),
                  Message(Assistant, reply.value, Some(ExtractFeedback(reply.value))));
      }
    }

    /** What the reply to the follow-up prompt does: a failure shows the
        stream's error, a success is applied. */
    method Receive(request: seq<ConversationMessage>, reply: Result<string, StreamError>, evaluationResp: Response,
                   parse: string -> Option<string>,
                   parseEvaluation: string -> Option<FinalEvaluation>)
      returns (evaluationRequest: Option<seq<ConversationMessage>>)
      requires Valid()
      modifies this`error, this`history, this`messages, this`currentQuestion, this`finalEvaluation, this`isComplete,
               this`averageScore, this`scores, this`answeredCount, this`currentRound, this`roundQuestionCount,
               this`currentDifficulty, this`currentRole
      ensures Valid()
      ensures reply.Failure? ==>
                && history == old(history) && messages == old(messages) && currentQuestion == old(currentQuestion)
                && error == Some(ErrorMessage(reply.error)) && evaluationRequest == None
                && Snapshot() == old(Snapshot())
      ensures reply.Success? ==>
                var text := reply.value;
                var feedback := ExtractFeedback(text);
                && history == request + [ModelTurn(text)]
                && messages == old(messages) + [Message(Assistant, text, Some(feedback))]
                && currentQuestion == (if text == "" then old(currentQuestion) else text) && error == old(error)
                && answeredCount == old(answeredCount) + 1
                && scores == old(scores) + [feedback.score]
                && RoundState(currentRound, roundQuestionCount)
                   == AfterSubmit(config.mode, RoundState(old(currentRound), old(roundQuestionCount)))
                && averageScore == RunningMean(old(averageScore), old(answeredCount), feedback.score)
                && currentRole == feedback.interviewerRole
                && currentDifficulty == feedback.difficulty
      ensures reply.Success? && answeredCount >= Target(config.mode) ==>
                && evaluationRequest == Some(history + [UserTurn(evaluationPrompt)])
                && isComplete
                && finalEvaluation == Some(EvaluationOutcome(StreamedText(evaluationResp, parse), parseEvaluation, fallbackEvaluation))
      ensures reply.Success? && answeredCount < Target(config.mode) ==>
                && evaluationRequest == None
                && isComplete == old(isComplete) && finalEvaluation == old(finalEvaluation)
    {
      if reply.Failure? {
        error := Some(ErrorMessage(reply.error));
        return None;
      }
      evaluationRequest := ApplyReply(request, reply.value, ExtractFeedback(reply.value),
                                      evaluationResp, parse, parseEvaluation);
    }

    /** The answer joins the transcript and the history, and the question and
        the error are cleared while the reply streams. */
    method PostAnswer(answer: string)
      modifies this`error, this`messages, this`history, this`currentQuestion
      ensures error == None && currentQuestion == ""
      ensures messages == old(messages) + [Message(Candidate, answer, None)]
      ensures history == old(history) + [UserTurn(answer)]
    {
      error := None;
      messages := messages + [Message(Candidate, answer, None)];
      history := history + [UserTurn(answer)];
      currentQuestion := "";
    }

    /** The successful half of `handleAnswerSubmit`: the reply closes the
        history and the transcript, the feedback read from it updates the
        counters, and the final evaluation runs when the answer count reaches
        the target. */
    method ApplyReply(request: seq<ConversationMessage>, text: string, feedback: QuestionFeedback,
                      evaluationResp: Response,
                      parse: string -> Option<string>,
                      parseEvaluation: string -> Option<FinalEvaluation>)
      returns (evaluationRequest: Option<seq<ConversationMessage>>)
      requires Valid()
      modifies this`history, this`messages, this`currentQuestion, this`finalEvaluation, this`isComplete,
               this`averageScore, this`scores, this`answeredCount, this`currentRound, this`roundQuestionCount,
               this`currentDifficulty, this`currentRole
      ensures Valid()
      ensures history == request + [ModelTurn(text)]
      ensures messages == old(messages) + [Message(Assistant, text, Some(feedback))]
      ensures currentQuestion == (if text == "" then old(currentQuestion) else text)
      ensures && answeredCount == old(answeredCount) + 1
              && scores == old(scores) + [feedback.score]
              && RoundState(currentRound, roundQuestionCount)
                 == AfterSubmit(config.mode, RoundState(old(currentRound), old(roundQuestionCount)))
              && averageScore == RunningMean(old(averageScore), old(answeredCount), feedback.score)
              && currentRole == feedback.interviewerRole
              && currentDifficulty == feedback.difficulty
      ensures answeredCount >= Target(config.mode) ==>
                && evaluationRequest == Some(history + [UserTurn(evaluationPrompt)])
                && isComplete
                && finalEvaluation == Some(EvaluationOutcome(StreamedText(evaluationResp, parse), parseEvaluation, fallbackEvaluation))
      ensures answeredCount < Target(config.mode) ==>
                && evaluationRequest == None
                && isComplete == old(isComplete) && finalEvaluation == old(finalEvaluation)
    {
      if text != "" {
        currentQuestion := text;
      }
      history := request + [ModelTurn(text)];
      messages := messages + [Message(Assistant, text, Some(feedback))];
      RecordFeedback(feedback);
      evaluationRequest := None;
      if answeredCount >= Target(config.mode) {
        var sent := GenerateFinalEvaluation(history, evaluationResp, parse, parseEvaluation);
        evaluationRequest := Some(sent);
      }
    }

    /** The counters after a reply: one more answer, the round moved on as
        the step says, the average and the interviewer taken from the
        feedback. */
    method RecordFeedback(feedback: QuestionFeedback)
      requires Valid()
      modifies this`averageScore, this`scores, this`answeredCount, this`currentRound, this`roundQuestionCount,
               this`currentDifficulty, this`currentRole
      ensures Valid()
      ensures answeredCount == old(answeredCount) + 1 && scores == old(scores) + [feedback.score]
      ensures RoundState(currentRound, roundQuestionCount)
              == AfterSubmit(config.mode, RoundState(old(currentRound), old(roundQuestionCount)))
      ensures averageScore == RunningMean(old(averageScore), old(answeredCount), feedback.score)
      ensures currentRole == feedback.interviewerRole && currentDifficulty == feedback.difficulty
    {
      var step := NextRound(config.mode, currentRound, roundQuestionCount);
      AfterSubmitKeepsCountWithinRound(config.mode, RoundState(currentRound, roundQuestionCount));
      MeanTracksSum(averageScore, scores, feedback.score);
      averageScore := RunningMean(averageScore, answeredCount, feedback.score);
      scores := scores + [feedback.score];
      answeredCount := answeredCount + 1;
      if step.isTransition {
        currentRound := step.round;
        roundQuestionCount := 0;
      } else {
        roundQuestionCount := roundQuestionCount + 1;
      }
      currentDifficulty := feedback.difficulty;
      currentRole := feedback.interviewerRole;
    }

    /** `generateFinalEvaluation`: the evaluation prompt is sent after the
        history; the outcome, parsed or fallback, ends the interview. */
    method GenerateFinalEvaluation(hist: seq<ConversationMessage>, resp: Response,
                                   parse: string -> Option<string>,
                                   parseEvaluation: string -> Option<FinalEvaluation>)
      returns (request: seq<ConversationMessage>)
      modifies this`finalEvaluation, this`isComplete
      ensures request == hist + [UserTurn(evaluationPrompt)]
      ensures finalEvaluation == Some(EvaluationOutcome(StreamedText(resp, parse), parseEvaluation, fallbackEvaluation))
      ensures isComplete
    {
      request := hist + [UserTurn(evaluationPrompt)];
      var streamed := CallInterviewApi(resp, parse);
      finalEvaluation := Some(EvaluationOutcome(streamed, parseEvaluation, fallbackEvaluation));
      isComplete := true;
    }
  }
}
