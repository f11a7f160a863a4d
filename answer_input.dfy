/** The answer box: the typing counters that each change of the text moves
    (pauses longer than two seconds, edits that shorten the text), the submit
    that hands over the trimmed answer with its metrics and clears the box,
    and the `m:ss` clock. Times are milliseconds from the clock, passed in. */
module AnswerInput {
  import opened Wrappers
  import opened Text
  import opened AnswerTyping

  /** What the submit hands over besides the answer. */
  datatype TypingMetrics = TypingMetrics(startTime: nat, endTime: nat, characterCount: nat,
                                         pauseCount: nat, correctionCount: nat)

  datatype Submission = Submission(answer: string, metrics: TypingMetrics)

  /** `String.prototype.padStart(n, c)` with a one-character pad, on a string
      of BMP characters (here: digits), where code points and UTF-16 code
      units agree. */
  function PadStart(s: string, n: nat, c: char): (r: string)
    ensures |r| == if |s| >= n then |s| else n
    ensures r[|r| - |s|..] == s
    ensures forall k :: 0 <= k < |r| - |s| ==> r[k] == c
    decreases n - |s|
  {
    if |s| >= n then s
    else
      var t := [c] + s;
      var r := PadStart(t, n, c);
      assert r[|r| - |s|..] == r[|r| - |t|..][1..];
      assert t[1..] == s && t[0] == c;
      r
  }

  /** `formatTime(seconds)`: whole minutes, a colon and the remaining seconds
      in two digits. */
  function FormatTime(seconds: nat): (r: string)
    ensures ReadsAs(r, seconds / 60, seconds % 60)
  {
    ClockReadsBack(seconds / 60, seconds % 60);
    Clock(seconds / 60, seconds % 60)
  }

  /** The text `m:ss` of `m` minutes and `s` seconds. */
  function Clock(m: nat, s: nat): string {
    NatToString(m) + ":" + PadStart(NatToString(s), 2, '0')
  }

  /** `r` is `M:SS` for digit strings `M` and `SS` whose values are `m` and
      `s`, where `M` has no leading zero. */
  predicate ReadsAs(r: string, m: nat, s: nat) {
    && |r| >= 4 && r[|r| - 3] == ':' && AllDigits(r[..|r| - 3]) && AllDigits(r[|r| - 2..])
    && (|r| > 4 ==> r[0] != '0')
    && DigitsValue(r[..|r| - 3]) == m && DigitsValue(r[|r| - 2..]) == s
  }

  /** `m:ss` with `s` below 60 reads back as `m` and `s`. */
  lemma ClockReadsBack(m: nat, s: nat)
    requires s < 60
    ensures ReadsAs(Clock(m, s), m, s)
  {
    var mins := NatToString(m);
    var digits := NatToString(s);
    var secs := PadStart(digits, 2, '0');
    ShortNumeral(s);
    DigitsValueOfNatToString(m);
    TwoDigitValue(digits, secs, s);
    ClockParts(mins, secs, m, s);
  }

  lemma ClockParts(mins: string, secs: string, m: nat, s: nat)
    requires |mins| > 0 && AllDigits(mins) && DigitsValue(mins) == m
    requires |mins| > 1 ==> mins[0] != '0'
    requires |secs| == 2 && AllDigits(secs) && DigitsValue(secs) == s
    ensures ReadsAs(mins + ":" + secs, m, s)
  {
    var r := mins + ":" + secs;
    assert r[..|r| - 3] == mins && r[|r| - 2..] == secs;
  }

  /** A number below 60 has a numeral of one or two digits. */
  lemma ShortNumeral(n: nat)
    requires n < 60
    ensures 1 <= |NatToString(n)| <= 2
  {
    if n >= 10 {
      assert |NatToString(n / 10)| == 1;
    }
  }

  /** The padded numeral of `n` has the value `n`. */
  lemma TwoDigitValue(digits: string, secs: string, n: nat)
    requires digits == NatToString(n) && 1 <= |digits| <= 2 && secs == PadStart(digits, 2, '0')
    ensures AllDigits(secs) && DigitsValue(secs) == n
  {
    DigitsValueOfNatToString(n);
    if |digits| == 1 {
      assert secs == ['0'] + digits;
      assert secs[..1] == "0";
    }
  }

  /** What a submit at time `now` hands over from the state `t`: the trimmed
      answer with the metrics of its typing, when the answer is not blank and
      no submit is in flight. The clock starts at the submit when no change
      started it; the character count is the untrimmed `answer.length`, in
      UTF-16 code units. */
  function Submitted(t: Tracker, isSubmitting: bool, now: nat): (r: Option<Submission>)
    ensures r.Some? <==> Trim(t.answer) != "" && !isSubmitting
    ensures r.Some? ==> && r.value.answer == Trim(t.answer) && IsTrimmed(r.value.answer)
                        && r.value.metrics.startTime == (if t.startTime == 0 then now else t.startTime)
                        && r.value.metrics.endTime == now && r.value.metrics.characterCount == Utf16Length(t.answer)
                        && r.value.metrics.pauseCount == t.pauseCount
                        && r.value.metrics.correctionCount == t.correctionCount
  {
    if Trim(t.answer) != "" && !isSubmitting then
      Some(Submission(Trim(t.answer), TypingMetrics(if t.startTime == 0 then now else t.startTime, now,
                                                    Utf16Length(t.answer), t.pauseCount, t.correctionCount)))
    else None
  }

  /** The answer box of one question. */
  class AnswerBox {
    const enableCognitiveTracking: bool
    var answer: string
    var startTime: nat
    var pauseCount: nat
    var correctionCount: nat
    var elapsedTime: nat
    var lastKeystrokeTime: nat
    var previousLength: nat

    function State(): Tracker
      reads this
    {
      Tracker(answer, startTime, pauseCount, correctionCount, lastKeystrokeTime, previousLength)
    }

    constructor(enableCognitiveTracking: bool)
      ensures this.enableCognitiveTracking == enableCognitiveTracking
      ensures State() == Idle && elapsedTime == 0
    {
      this.enableCognitiveTracking := enableCognitiveTracking;
      answer := "";
      startTime := 0;
      pauseCount := 0;
      correctionCount := 0;
      elapsedTime := 0;
      lastKeystrokeTime := 0;
      previousLength := 0;
    }

    /** `handleChange`: one change of the text, arriving at time `now`. */
    method HandleChange(newValue: string, now: nat)
      modifies this
      ensures State() == AfterChange(old(State()), newValue, now, enableCognitiveTracking)
      ensures elapsedTime == old(elapsedTime)
    {
      if startTime == 0 {
        startTime := now;
      }
      if enableCognitiveTracking {
        if lastKeystrokeTime > 0 && now - lastKeystrokeTime > PauseGap {
          pauseCount := pauseCount + 1;
        }
        if Utf16Length(newValue) < previousLength {
          correctionCount := correctionCount + 1;
        }
        lastKeystrokeTime := now;
        previousLength := Utf16Length(newValue);
      }
      answer := newValue;
    }

    /** `handleSubmit` at time `now`: a non-blank answer, while no submit is in
        flight, is handed over trimmed with the metrics of its typing, and the
        box returns to its idle state; otherwise nothing happens. */
    method HandleSubmit(isSubmitting: bool, now: nat) returns (sent: Option<Submission>)
      modifies this
      ensures sent == Submitted(old(State()), isSubmitting, now)
      ensures State() == (if sent.Some? then Idle else old(State()))
      ensures elapsedTime == (if sent.Some? then 0 else old(elapsedTime))
    {
      var t := State();
      sent := Submitted(t, isSubmitting, now);
      if sent.Some? {
        Clear();
      }
    }

    /** The reset after a submit: the box is empty and the counters are zero. */
    method Clear()
      modifies this
      ensures State() == Idle && elapsedTime == 0
    {
      answer, startTime, pauseCount, correctionCount := "", 0, 0, 0;
      elapsedTime, lastKeystrokeTime, previousLength := 0, 0, 0;
    }
  }
}
