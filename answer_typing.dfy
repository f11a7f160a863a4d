/** The typing counters of the answer box: the state each change of the
    text reads and writes, and what a run of changes adds up to. Times are
    milliseconds from the clock, passed in. */
module AnswerTyping {
  import opened Text

  /** A gap between keystrokes longer than this many milliseconds is a pause. */
  const PauseGap: int := 2000

  /** The state a change reads and writes: the text, the start time, the two
      counters, and the two refs holding the last keystroke time and length. */
  datatype Tracker = Tracker(answer: string, startTime: nat, pauseCount: nat, correctionCount: nat,
                             lastKeystrokeTime: nat, previousLength: nat)

  /** The state of an empty box, before any typing and after every submit. */
  const Idle: Tracker := Tracker("", 0, 0, 0, 0, 0)

  /** `handleChange` with the text `newValue` at time `now`: the clock starts
      at the first change; with tracking on, a pause is counted after a gap
      over two seconds since a recorded keystroke, a correction when the text
      got shorter, and the refs then take the current time and length. Lengths
      are `value.length`, in UTF-16 code units. */
  function AfterChange(t: Tracker, newValue: string, now: nat, tracking: bool): (r: Tracker)
    ensures r.answer == newValue
    ensures r.startTime == if t.startTime == 0 then now else t.startTime
    ensures tracking ==> r.lastKeystrokeTime == now && r.previousLength == Utf16Length(newValue)
    ensures tracking ==> t.pauseCount <= r.pauseCount <= t.pauseCount + 1
    ensures tracking ==> (r.pauseCount > t.pauseCount <==> t.lastKeystrokeTime > 0 && now > t.lastKeystrokeTime + PauseGap)
    ensures tracking ==> t.correctionCount <= r.correctionCount <= t.correctionCount + 1
    ensures tracking ==> (r.correctionCount > t.correctionCount <==> Utf16Length(newValue) < t.previousLength)
    ensures !tracking ==> && r.pauseCount == t.pauseCount && r.correctionCount == t.correctionCount
                          && r.lastKeystrokeTime == t.lastKeystrokeTime && r.previousLength == t.previousLength
  {
    var start := if t.startTime == 0 then now else t.startTime;
    if tracking then
      var pause := t.lastKeystrokeTime > 0 && now - t.lastKeystrokeTime > PauseGap;
      var shorter := Utf16Length(newValue) < t.previousLength;
      Tracker(newValue, start,
              if pause then t.pauseCount + 1 else t.pauseCount,
              if shorter then t.correctionCount + 1 else t.correctionCount,
              now, Utf16Length(newValue))
    else
      t.(answer := newValue, startTime := start)
  }

  /** One change event: the whole new text and the time it arrived. */
  datatype Keystroke = Keystroke(value: string, at: nat)

  function AfterChanges(t: Tracker, keys: seq<Keystroke>, tracking: bool): Tracker
    decreases |keys|
  {
    if keys == [] then t
    else AfterChanges(AfterChange(t, keys[0].value, keys[0].at, tracking), keys[1..], tracking)
  }

  /** How many changes made the text shorter, in UTF-16 code units, than the
      one before (the first compared with the length `prev`). */
  function Corrections(prev: nat, keys: seq<Keystroke>): nat
    decreases |keys|
  {
    if keys == [] then 0
    else
      var n := Utf16Length(keys[0].value);
      (if n < prev then 1 else 0) + Corrections(n, keys[1..])
  }

  /** How many changes came more than two seconds after a recorded previous
      one (the first compared with the time `last`, 0 meaning none). */
  function Pauses(last: nat, keys: seq<Keystroke>): nat
    decreases |keys|
  {
    if keys == [] then 0
    else (if last > 0 && keys[0].at - last > PauseGap then 1 else 0) + Pauses(keys[0].at, keys[1..])
  }

  /** With tracking on, the counters count the corrections and the pauses of
      the typing, and the refs and the text are those of the last change. */
  lemma {:induction false} TrackedTyping(t: Tracker, keys: seq<Keystroke>)
    ensures var r := AfterChanges(t, keys, true);
            && r.correctionCount == t.correctionCount + Corrections(t.previousLength, keys)
            && r.pauseCount == t.pauseCount + Pauses(t.lastKeystrokeTime, keys)
            && (keys != [] ==> var last := keys[|keys| - 1];
                               r.answer == last.value && r.lastKeystrokeTime == last.at
                               && r.previousLength == Utf16Length(last.value))
    decreases |keys|
  {
    if keys != [] {
      var t1 := AfterChange(t, keys[0].value, keys[0].at, true);
      TrackedTyping(t1, keys[1..]);
      if |keys| > 1 {
        assert keys[1..][|keys[1..]| - 1] == keys[|keys| - 1];
      }
    }
  }

  /** With tracking off, typing changes only the text and the start time. */
  lemma {:induction false} UntrackedTyping(t: Tracker, keys: seq<Keystroke>)
    ensures var r := AfterChanges(t, keys, false);
            && r.pauseCount == t.pauseCount && r.correctionCount == t.correctionCount
            && r.lastKeystrokeTime == t.lastKeystrokeTime && r.previousLength == t.previousLength
            && r.answer == if keys == [] then t.answer else keys[|keys| - 1].value
    decreases |keys|
  {
    if keys != [] {
      UntrackedTyping(AfterChange(t, keys[0].value, keys[0].at, false), keys[1..]);
      if |keys| > 1 {
        assert keys[1..][|keys[1..]| - 1] == keys[|keys| - 1];
      }
    }
  }

  /** Once the clock has started, typing never moves the start time. */
  lemma {:induction false} StartTimeKept(t: Tracker, keys: seq<Keystroke>, tracking: bool)
    requires t.startTime > 0
    ensures AfterChanges(t, keys, tracking).startTime == t.startTime
    decreases |keys|
  {
    if keys != [] {
      StartTimeKept(AfterChange(t, keys[0].value, keys[0].at, tracking), keys[1..], tracking);
    }
  }

  /** The clock starts at the first change (at a non-zero time). */
  lemma FirstChangeStartsClock(t: Tracker, keys: seq<Keystroke>, tracking: bool)
    requires t.startTime == 0 && keys != [] && keys[0].at > 0
    ensures AfterChanges(t, keys, tracking).startTime == keys[0].at
  {
    StartTimeKept(AfterChange(t, keys[0].value, keys[0].at, tracking), keys[1..], tracking);
  }
}
