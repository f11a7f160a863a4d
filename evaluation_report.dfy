/** The final report: the overall rating band, the colour of each category
    bar and the readiness badge. Scores come from the parsed evaluation and
    are JavaScript numbers, written here as reals. */
module EvaluationReport {
  import opened Text
  import opened InterviewSession
  import FeedbackCard

  /** The badge of the overall score. */
  datatype Rating = Rating(text: string, color: string)

  /** `getOverallRating(score)`: Excellent from 9, Good from 7, Fair from 5,
      and Needs Improvement below, each with its badge colour class. */
  function OverallRating(score: real): (r: Rating)
    ensures r.text == "Excellent" <==> score >= 9.0
    ensures r.text == "Good" <==> 7.0 <= score < 9.0
    ensures r.text == "Fair" <==> 5.0 <= score < 7.0
    ensures r.text == "Needs Improvement" <==> score < 5.0
    ensures r.text == "Excellent" ==> r.color == "bg-success text-success-foreground"
    ensures r.text == "Good" ==> r.color == "bg-primary text-primary-foreground"
    ensures r.text == "Fair" ==> r.color == "bg-warning text-warning-foreground"
    ensures r.text == "Needs Improvement" ==> r.color == "bg-destructive text-destructive-foreground"
  {
    if score >= 9.0 then Rating("Excellent", "bg-success text-success-foreground")
    else if score >= 7.0 then Rating("Good", "bg-primary text-primary-foreground")
    else if score >= 5.0 then Rating("Fair", "bg-warning text-warning-foreground")
    else Rating("Needs Improvement", "bg-destructive text-destructive-foreground")
  }

  /** The position of a rating from worst to best. */
  function RatingRank(r: Rating): nat {
    if r.text == "Excellent" then 3 else if r.text == "Good" then 2 else if r.text == "Fair" then 1 else 0
  }

  /** A higher score never gets a lower rating. */
  lemma RatingMonotone(a: real, b: real)
    requires a <= b
    ensures RatingRank(OverallRating(a)) <= RatingRank(OverallRating(b))
  {
  }

  /** The fallback evaluation is rated Good. */
  lemma FallbackRatedGood()
    ensures OverallRating(FallbackEvaluation().overallScore).text == "Good"
  {
  }

  /** `ScoreBar.getColor` of the report's category bars. */
  function ScoreBarColor(score: real): (r: string)
    ensures r == "bg-success" <==> score >= 8.0
    ensures r == "bg-warning" <==> 6.0 <= score < 8.0
    ensures r == "bg-destructive" <==> score < 6.0
  {
    if score >= 8.0 then "bg-success" else if score >= 6.0 then "bg-warning" else "bg-destructive"
  }

  /** On whole scores the report's bars and the feedback card's bars agree. */
  lemma BarsAgree(score: int)
    ensures ScoreBarColor(score as real) == FeedbackCard.ScoreBarColor(score)
  {
  }

  /** `readinessLevel.replace(/-/g, ' ')`: every hyphen becomes a space and
      every other character stays where it is. */
  function ReadinessLabel(level: string): (r: string)
    ensures |r| == |level|
    ensures forall i :: 0 <= i < |level| ==> r[i] == if level[i] == '-' then ' ' else level[i]
    ensures '-' !in r
  {
    ReplaceAll(level, '-', ' ')
  }

  /** A label without hyphens is shown as it is. */
  lemma ReadinessLabelWithoutHyphen(level: string)
    requires '-' !in level
    ensures ReadinessLabel(level) == level
  {
  }

  /** The fallback's readiness reads "needs practice". */
  lemma FallbackReadiness()
    ensures ReadinessLabel(FallbackEvaluation().readinessLevel) == "needs practice"
  {
  }
}
