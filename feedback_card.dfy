/** The feedback card shown under each reply: the score bands behind its
    colours and badge, the interviewer and difficulty labels, and the line
    with the time spent on the answer. */
module FeedbackCard {
  import opened Wrappers
  import opened Text
  import opened InterviewTypes
  import opened FeedbackExtraction

  // ---------------------------------------------------------------------
  // Score bands
  // ---------------------------------------------------------------------

  /** `getScoreColor`: 8 and above is a success, 6 and above a warning. */
  function ScoreColor(score: int): (r: string)
    ensures r == "text-success" <==> score >= 8
    ensures r == "text-warning" <==> 6 <= score < 8
    ensures r == "text-destructive" <==> score < 6
  {
    if score >= 8 then "text-success" else if score >= 6 then "text-warning" else "text-destructive"
  }

  datatype BadgeVariant = Default | Secondary | Destructive

  /** `getScoreBadgeVariant`, with the thresholds of the colour. */
  function ScoreBadgeVariant(score: int): (r: BadgeVariant)
    ensures r == Default <==> score >= 8
    ensures r == Secondary <==> 6 <= score < 8
    ensures r == Destructive <==> score < 6
  {
    if score >= 8 then Default else if score >= 6 then Secondary else Destructive
  }

  /** `ScoreBar.getColor` of the per-dimension bars. */
  function ScoreBarColor(score: int): (r: string)
    ensures r == "bg-success" <==> score >= 8
    ensures r == "bg-warning" <==> 6 <= score < 8
    ensures r == "bg-destructive" <==> score < 6
  {
    if score >= 8 then "bg-success" else if score >= 6 then "bg-warning" else "bg-destructive"
  }

  /** The three classifiers cut the scores at the same places: two scores get
      the same colour exactly when they get the same badge and the same bar. */
  lemma ClassifiersAgree(a: int, b: int)
    ensures ScoreColor(a) == ScoreColor(b) <==> ScoreBadgeVariant(a) == ScoreBadgeVariant(b)
    ensures ScoreColor(a) == ScoreColor(b) <==> ScoreBarColor(a) == ScoreBarColor(b)
  {
  }

  /** The position of a colour from worst to best. */
  function ColorRank(color: string): nat {
    if color == "text-success" then 2 else if color == "text-warning" then 1 else 0
  }

  /** A higher score never gets a worse colour. */
  lemma ScoreColorMonotone(a: int, b: int)
    requires a <= b
    ensures ColorRank(ScoreColor(a)) <= ColorRank(ScoreColor(b))
  {
  }

  // ---------------------------------------------------------------------
  // Labels
  // ---------------------------------------------------------------------

  /** `getRoleLabel(role)`: the display name of one of the four interviewer
      ids, and any other text unchanged. */
  function RoleLabel(role: string): (r: string)
    ensures role == "hr" ==> r == "HR Manager"
    ensures role == "technical-lead" ==> r == "Technical Lead"
    ensures role == "behavioral-coach" ==> r == "Behavioral Coach"
    ensures role == "domain-expert" ==> r == "Domain Expert"
    ensures role !in {"hr", "technical-lead", "behavioral-coach", "domain-expert"} ==> r == role
  {
    if role == "hr" then "HR Manager"
    else if role == "technical-lead" then "Technical Lead"
    else if role == "behavioral-coach" then "Behavioral Coach"
    else if role == "domain-expert" then "Domain Expert"
    else role
  }

  /** The label shown for an interviewer is the role name the extractor
      recognises, and reading it back gives the same interviewer. */
  lemma RoleLabelRoundTrip(role: InterviewerRole)
    ensures Lower(RoleLabel(RoleId(role))) in RolePhrases
    ensures GetRole(Some(RoleLabel(RoleId(role)))) == role
  {
    var k := ShownPhrase(role);
    RoleOfPhrase(RoleLabel(RoleId(role)), k);
  }

  lemma LowerLabel(s: string, t: string)
    requires |s| == |t| && forall i :: 0 <= i < |s| ==> LowerChar(s[i]) == t[i]
    ensures Lower(s) == t
  {
  }

  /** The lower-case label of an interviewer is the role phrase of that interviewer. */
  lemma ShownPhrase(role: InterviewerRole) returns (k: nat)
    ensures k < |RolePhrases| && Lower(RoleLabel(RoleId(role))) == RolePhrases[k] && PhraseRoles[k] == role
  {
    match role
    case Hr =>
      assert RoleLabel(RoleId(role)) == "HR Manager";
      LowerLabel("HR Manager", "hr manager");
      k := 0;
    case TechnicalLead =>
      assert RoleLabel(RoleId(role)) == "Technical Lead";
      LowerLabel("Technical Lead", "technical lead");
      k := 1;
    case BehavioralCoach =>
      assert RoleLabel(RoleId(role)) == "Behavioral Coach";
      LowerLabel("Behavioral Coach", "behavioral coach");
      k := 2;
    case DomainExpert =>
      assert RoleLabel(RoleId(role)) == "Domain Expert";
      LowerLabel("Domain Expert", "domain expert");
      k := 3;
  }

  const EasyColor: string := "bg-success/10 text-success border-success/20"
  const MediumColor: string := "bg-warning/10 text-warning border-warning/20"
  const HardColor: string := "bg-accent/10 text-accent border-accent/20"
  const ExpertColor: string := "bg-destructive/10 text-destructive border-destructive/20"

  /** `getDifficultyColor(difficulty)`: the class of a known difficulty, and
      the medium class for anything else. */
  function DifficultyColor(difficulty: string): (r: string)
    ensures difficulty == "easy" ==> r == EasyColor
    ensures difficulty == "hard" ==> r == HardColor
    ensures difficulty == "expert" ==> r == ExpertColor
    ensures difficulty !in {"easy", "hard", "expert"} ==> r == MediumColor
  {
    if difficulty == "easy" then EasyColor
    else if difficulty == "medium" then MediumColor
    else if difficulty == "hard" then HardColor
    else if difficulty == "expert" then ExpertColor
    else MediumColor
  }

  /** The four difficulties are told apart by their colours. */
  lemma DifficultyColorsDistinct(a: Difficulty, b: Difficulty)
    ensures DifficultyColor(DifficultyName(a)) == DifficultyColor(DifficultyName(b)) <==> a == b
  {
  }

  // ---------------------------------------------------------------------
  // Time spent
  // ---------------------------------------------------------------------

  /** The line `Time spent: {m}m {s}s`, whole minutes and remaining seconds. */
  function TimeSpentText(t: nat): string {
    "Time spent: " + NatToString(t / 60) + "m " + NatToString(t % 60) + "s"
  }

  /** What `{feedback.timeSpent && (...)}` puts in the card as written: React
      renders the number 0 as text, so a zero time shows a bare `0`. */
  function TimeSpentAsWritten(t: nat): (r: string)
    ensures t == 0 ==> r == "0"
    ensures t != 0 ==> r == TimeSpentText(t)
  {
    if t == 0 then "0" else TimeSpentText(t)
  }

  /** Every card built by the extractor shows the stray `0`, since the
      extractor always records a time of 0. */
  lemma AsWrittenShowsZero(response: string)
    ensures TimeSpentAsWritten(ExtractFeedback(response).timeSpent) == "0"
  {
  }

  /** The time line as intended: shown only for a non-zero time. */
  function TimeSpent(t: nat): (r: Option<string>)
    ensures r.None? <==> t == 0
    ensures r.Some? ==> r.value == TimeSpentText(t)
  {
    if t == 0 then None else Some(TimeSpentText(t))
  }

  /** The line splits a time into whole minutes and seconds below 60: the
      time `60 * m + s` reads `m`m `s`s. */
  lemma TimeSpentOf(m: nat, s: nat)
    requires s < 60 && 60 * m + s > 0
    ensures TimeSpent(60 * m + s) == Some("Time spent: " + NatToString(m) + "m " + NatToString(s) + "s")
  {
    MinutesSeconds(m, s);
  }

  /** Whole minutes and remaining seconds of `60 * m + s`. */
  lemma MinutesSeconds(m: nat, s: nat)
    requires s < 60
    ensures (60 * m + s) / 60 == m && (60 * m + s) % 60 == s
  {
  }
}
